/** Turns a service result into the HTTP response: the value on success,
    no content for a payload-less success, and a bad request carrying one
    error item per error otherwise. */
module Presenter {

  import opened Results
  import opened ErrorResponses

  /** The three `ActionResult`s the presenter produces. */
  datatype ActionResult<+T> = OkObject(value: T) | NoContent | BadRequest(body: ErrorResponse)

  /** A metadata value as text: the empty string when the value is null. */
  function TextOrEmpty(v: Option<string>): (r: string)
    ensures v.Some? ==> r == v.value
    ensures r == "" <==> v == None || v == Some("")
  {
    match v
    case Some(s) => s
    case None => ""
  }

  /** `MapError`: the message is copied, and a reason is attached exactly
      when both reason keys are present, description and name each read
      from its own key. */
  function MapError(e: Error): (item: ErrorItem)
    ensures item.message == e.message
    ensures item.reason.Some? <==> ReasonDescription in e.metadata && ReasonName in e.metadata
    ensures item.reason.Some? ==> item.reason.value.description == TextOrEmpty(e.metadata[ReasonDescription])
    ensures item.reason.Some? ==> item.reason.value.name == TextOrEmpty(e.metadata[ReasonName])
  {
    var item := NewErrorItem(e.message);
    if ReasonDescription in e.metadata && ReasonName in e.metadata then
      item.(reason := Some(ErrorItemReason(
        TextOrEmpty(e.metadata[ReasonDescription]),
        TextOrEmpty(e.metadata[ReasonName]))))
    else item
  }

  /** Every error mapped to an item: one item per error, in order. */
  function MapErrors(errors: seq<Error>): (items: seq<ErrorItem>)
    ensures |items| == |errors|
    ensures forall i :: 0 <= i < |errors| ==> items[i] == MapError(errors[i])
  {
    if |errors| == 0 then []
    else [MapError(errors[0])] + MapErrors(errors[1..])
  }

  /** `PresentErrorResponse`: a bad request whose error list follows the
      errors one for one, messages preserved. */
  function PresentErrorResponse<T>(errors: seq<Error>): (a: ActionResult<T>)
    ensures a.BadRequest?
    ensures |a.body.errors| == |errors|
    ensures forall i :: 0 <= i < |errors| ==>
      a.body.errors[i].message == errors[i].message
      && (a.body.errors[i].reason.Some? <==> ReasonDescription in errors[i].metadata && ReasonName in errors[i].metadata)
  {
    BadRequest(NewErrorResponse.(errors := MapErrors(errors)))
  }

  /** `Present<T>(Result<T>)`. */
  function Present<T>(r: Result<T>): (a: ActionResult<T>)
    ensures r.Success? <==> a.OkObject?
    ensures r.Success? ==> a.value == r.value
    ensures r.Failure? ==> a == PresentErrorResponse(r.errors)
    ensures r.Failure? ==> |a.body.errors| > 0
  {
    if r.Success? then OkObject(r.value) else PresentErrorResponse(r.errors)
  }

  /** `Present(Result)`, the payload-less overload. */
  function PresentOutcome(o: Outcome): (a: ActionResult<()>)
    ensures o.Pass? <==> a.NoContent?
    ensures o.Fail? ==> a == PresentErrorResponse(o.errors)
    ensures o.Fail? ==> |a.body.errors| > 0
  {
    if o.Pass? then NoContent else PresentErrorResponse(o.errors)
  }

  /** Presenting an error built as `new ErrorWithReason(m).WithReason(d, n)`
      gives back exactly `m`, `d` and `n`, in their own fields. */
  lemma ReasonRoundTrip(m: string, d: string, n: string)
    ensures WithReason(Message(m), d, n).Some?
    ensures MapError(WithReason(Message(m), d, n).value) == ErrorItem(m, Some(ErrorItemReason(d, n)))
  {
  }

  /** A service failure made with a plain message reaches the client as a
      bad request with that one message and no reason. */
  lemma FailurePresented<T>(m: string)
    ensures Present(FailWith<T>(m)) == BadRequest(ErrorResponse([ErrorItem(m, None)]))
    ensures PresentOutcome(Fail([Message(m)])) == BadRequest(ErrorResponse([ErrorItem(m, None)]))
    ensures MapError(Message(m)) == NewErrorItem(m)
  {
    assert MapErrors([Message(m)]) == [ErrorItem(m, None)];
  }

  /** A list of errors whose every error carries a reason is presented with
      every reason intact, in order. */
  lemma {:induction false} PresentReasons<T>(ms: seq<string>, ds: seq<string>, ns: seq<string>)
    requires |ms| == |ds| == |ns|
    ensures forall i :: 0 <= i < |ms| ==> WithReason(Message(ms[i]), ds[i], ns[i]).Some?
    ensures
      var errors := seq(|ms|, i requires 0 <= i < |ms| => WithReason(Message(ms[i]), ds[i], ns[i]).value);
      PresentErrorResponse<T>(errors).body.errors
        == seq(|ms|, i requires 0 <= i < |ms| => ErrorItem(ms[i], Some(ErrorItemReason(ds[i], ns[i]))))
  {
    forall i | 0 <= i < |ms|
      ensures WithReason(Message(ms[i]), ds[i], ns[i]).Some?
    {
      ReasonRoundTrip(ms[i], ds[i], ns[i]);
    }
    var errors := seq(|ms|, i requires 0 <= i < |ms| => WithReason(Message(ms[i]), ds[i], ns[i]).value);
    forall i | 0 <= i < |ms|
      ensures MapError(errors[i]) == ErrorItem(ms[i], Some(ErrorItemReason(ds[i], ns[i])))
    {
      ReasonRoundTrip(ms[i], ds[i], ns[i]);
    }
  }

  /** One reason key alone yields no reason. */
  lemma SingleKeyNoReason(e: Error, k: string, v: Option<string>)
    requires e.metadata == map[k := v]
    ensures MapError(e).reason.None?
  {
    assert ReasonDescription != ReasonName;
  }
}
