/** The error payload returned to HTTP clients, and the error subtype that
    lets a producer attach a machine-readable reason to an error. */
module ErrorResponses {

  import opened Results

  /** `ErrorItemReason(description, name)`. */
  datatype ErrorItemReason = ErrorItemReason(description: string, name: string)

  /** `ErrorItem`: a message and an optional reason. */
  datatype ErrorItem = ErrorItem(message: string, reason: Option<ErrorItemReason>)

  /** `ErrorResponse`: the ordered list of error items. */
  datatype ErrorResponse = ErrorResponse(errors: seq<ErrorItem>)

  /** A freshly constructed `ErrorResponse` holds no errors. */
  const NewErrorResponse := ErrorResponse([])

  /** `new ErrorItem(message)`: the reason starts out null. */
  function NewErrorItem(message: string): (item: ErrorItem)
    ensures item.message == message && item.reason == None
  {
    ErrorItem(message, None)
  }

  /** The two metadata keys under which a reason is stored. */
  const ReasonDescription := "ReasonDescription"
  const ReasonName := "ReasonName"

  /** `ErrorWithReason.WithReason(description, name)`: records the
      description and the name under their keys and hands back the same
      error. `Dictionary.Add` throws on a key that is already present; that
      case yields `None`. */
  function WithReason(e: Error, description: string, name: string): (r: Option<Error>)
    ensures r.Some? <==> ReasonDescription !in e.metadata && ReasonName !in e.metadata
    ensures r.Some? ==> r.value.message == e.message
    ensures r.Some? ==> r.value.metadata.Keys == e.metadata.Keys + {ReasonDescription, ReasonName}
    ensures r.Some? ==> r.value.metadata[ReasonDescription] == Some(description)
    ensures r.Some? ==> r.value.metadata[ReasonName] == Some(name)
    ensures r.Some? ==> forall k :: k in e.metadata ==> r.value.metadata[k] == e.metadata[k]
  {
    if ReasonDescription in e.metadata || ReasonName in e.metadata then None
    else Some(Error(e.message, e.metadata[ReasonDescription := Some(description)][ReasonName := Some(name)]))
  }
}
