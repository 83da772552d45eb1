/** Globally unique identifiers as the web shop uses them: 128-bit values
    written as 32 hexadecimal digits. `Guid.Empty` is the all-zero value and
    the text form used in messages is .NET's default "D" format,
    `xxxxxxxx-xxxx-xxxx-xxxx-xxxxxxxxxxxx` with lower-case digits. */
module Guids {

  import opened Results

  type Nibble = n: int | 0 <= n < 16

  /** A GUID is identified with its 32 hexadecimal digits, most significant first. */
  type Guid = g: seq<Nibble> | |g| == 32 witness seq(32, _ => 0)

  /** `Guid.Empty`. */
  const Empty: Guid := [0, 0, 0, 0, 0, 0, 0, 0, 0, 0, 0, 0, 0, 0, 0, 0, 0, 0, 0, 0, 0, 0, 0, 0, 0, 0, 0, 0, 0, 0, 0, 0]

  /** Equality with `Guid.Empty`, digit by digit. */
  predicate IsEmpty(g: Guid) {
    forall i :: 0 <= i < |g| ==> g[i] == 0
  }

  lemma EmptyIsEmpty(g: Guid)
    ensures IsEmpty(g) <==> g == Empty
  {
    if IsEmpty(g) {
      assert forall i :: 0 <= i < 32 ==> g[i] == Empty[i];
    }
  }

  const TextLength := 36

  /** Positions of the four hyphens in the "D" format. */
  predicate IsHyphenAt(i: int) {
    i == 8 || i == 13 || i == 18 || i == 23
  }

  /** The text position at which digit `j` is written. */
  function CharPos(j: int): (i: int)
    requires 0 <= j < 32
    ensures 0 <= i < TextLength && !IsHyphenAt(i)
  {
    j + (if j >= 8 then 1 else 0) + (if j >= 12 then 1 else 0)
      + (if j >= 16 then 1 else 0) + (if j >= 20 then 1 else 0)
  }

  /** The digit written at text position `i`: the inverse of `CharPos`. */
  function DigitPos(i: int): (j: int)
    requires 0 <= i < TextLength && !IsHyphenAt(i)
    ensures 0 <= j < 32 && CharPos(j) == i
  {
    i - (if i > 8 then 1 else 0) - (if i > 13 then 1 else 0)
      - (if i > 18 then 1 else 0) - (if i > 23 then 1 else 0)
  }

  function HexChar(n: Nibble): char {
    if n < 10 then ('0' as int + n) as char else ('a' as int + n - 10) as char
  }

  function HexValue(c: char): (r: Option<Nibble>)
    ensures r.Some? ==> HexChar(r.value) == c
  {
    if '0' <= c <= '9' then Some(c as int - '0' as int)
    else if 'a' <= c <= 'f' then Some(c as int - 'a' as int + 10)
    else None
  }

  /** `Guid.ToString()`: 36 characters, hyphens at the fixed positions and a
      hexadecimal digit everywhere else. */
  function Text(g: Guid): (s: string)
    ensures |s| == TextLength
  {
    seq(TextLength, i requires 0 <= i < TextLength =>
      if IsHyphenAt(i) then '-' else HexChar(g[DigitPos(i)]))
  }

  /** The text of a GUID has its hyphens in place and digit `j` of the
      identifier at position `CharPos(j)`. */
  lemma TextFormat(g: Guid)
    ensures forall i :: 0 <= i < TextLength && IsHyphenAt(i) ==> Text(g)[i] == '-'
    ensures forall j :: 0 <= j < 32 ==> Text(g)[CharPos(j)] == HexChar(g[j])
  {
  }

  /** Reads the text form back: the inverse of `Text`. */
  function Parse(s: string): (r: Option<Guid>)
  {
    if |s| == TextLength
       && (forall i :: 0 <= i < TextLength && IsHyphenAt(i) ==> s[i] == '-')
       && (forall j :: 0 <= j < 32 ==> HexValue(s[CharPos(j)]).Some?)
    then Some(seq(32, j requires 0 <= j < 32 => HexValue(s[CharPos(j)]).value))
    else None
  }

  lemma HexRoundTrip(n: Nibble)
    ensures HexValue(HexChar(n)) == Some(n)
  {
  }

  /** Formatting then parsing gives the identifier back. */
  lemma ParseText(g: Guid)
    ensures Parse(Text(g)) == Some(g)
  {
    var s := Text(g);
    TextFormat(g);
    forall j | 0 <= j < 32
      ensures HexValue(s[CharPos(j)]) == Some(g[j])
    {
      HexRoundTrip(g[j]);
    }
    assert Parse(s).value == g;
  }

  /** Parsing accepts exactly the texts `Text` produces. */
  lemma TextParse(s: string, g: Guid)
    requires Parse(s) == Some(g)
    ensures Text(g) == s
  {
    var t := Text(g);
    TextFormat(g);
    forall i | 0 <= i < TextLength
      ensures t[i] == s[i]
    {
      if !IsHyphenAt(i) {
        var j := DigitPos(i);
        assert g[j] == HexValue(s[CharPos(j)]).value;
      }
    }
  }

  /** Distinct identifiers print differently. */
  lemma TextInjective(a: Guid, b: Guid)
    requires Text(a) == Text(b)
    ensures a == b
  {
    ParseText(a);
    ParseText(b);
  }
}
