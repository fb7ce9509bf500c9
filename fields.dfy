/**
 * Decoded JSON values and the per-field coercions applied while a log line is
 * turned into a row: integers (`jsonGetInt`), floats (`jsonGetFloat`) and
 * tagged user identifiers (`jsonGetUid`). A Go `nil` (a missing key or a JSON
 * `null`) and the nginx placeholder `"-"` both become a null cell; a value of
 * the wrong JSON type or a malformed number is an error (a panic in Go).
 */
module Fields {
  import opened Wrappers
  import opened Strconv

  /** A decoded JSON value as far as the parser looks at it: null, a string, or anything else. */
  datatype JVal = JNull | JStr(s: string) | JOther

  /** A decoded JSON object. */
  type Object = map<string, JVal>

  /** Indexing a Go map: a missing key reads as nil. */
  function Get(d: Object, key: string): JVal {
    if key in d then d[key] else JNull
  }

  /** One entry of a row: what Go stores in the `[]interface{}` slot. */
  datatype Cell =
    | Null
    | Text(s: string)
    | Int(i: int)
    | Float(bits: bv64)   // an IEEE-754 double, by its bit pattern
    | Time(instant: int)
    | Opaque              // a JSON number, boolean, array or object copied through unchanged

  /** The cell a raw (uncoerced) JSON value occupies. */
  function FromJson(v: JVal): Cell {
    match v
    case JNull => Null
    case JStr(s) => Text(s)
    case JOther => Opaque
  }

  /** nginx writes `-` for an empty variable. */
  const Placeholder: string := "-"

  /** Values that the coercions turn into a null cell without looking further. */
  predicate IsAbsent(v: JVal) {
    v == JNull || v == JStr(Placeholder)
  }

  datatype ParseError =
    | Malformed                  // the line is not a JSON object
    | TimeNotString              // `time` is missing or not a string
    | BadTimestamp               // `time` is not an RFC 3339 timestamp
    | NotString(column: string)  // a coerced field holds a non-string JSON value
    | BadInteger(column: string)
    | BadFloat(column: string)
    | UidTooShort(column: string)

  /** Length of the tag in front of a user identifier. */
  const UidPrefixLength: nat := 4

  function JsonGetInt(column: string, v: JVal): (r: Result<Cell, ParseError>)
    ensures r == Success(Null) <==> IsAbsent(v)
    ensures r.Success? && r.value.Int? ==>
      v.JStr? && IsDecimalInt(v.s) && r.value.i == SignedValue(v.s) && MinInt64 <= r.value.i <= MaxInt64
    ensures r.Success? ==> r.value.Null? || r.value.Int?
    ensures v.JStr? && !IsAbsent(v) && IsDecimalInt(v.s) && MinInt64 <= SignedValue(v.s) <= MaxInt64 ==>
      r == Success(Int(SignedValue(v.s)))
    ensures r.Failure? ==> r.error == (if v.JOther? then NotString(column) else BadInteger(column))
  {
    match v
    case JNull => Success(Null)
    case JOther => Failure(NotString(column))
    case JStr(s) =>
      ParseIntMeaning(s);
      if s == Placeholder then Success(Null)
      else match ParseInt(s)
        case Parsed(n) => Success(Int(n))
        case _ => Failure(BadInteger(column))
  }

  function JsonGetFloat(column: string, v: JVal, parseFloat: string -> Option<bv64>): (r: Result<Cell, ParseError>)
    ensures r == Success(Null) <==> IsAbsent(v)
    ensures v.JStr? && !IsAbsent(v) ==>
      if parseFloat(v.s).Some? then r == Success(Float(parseFloat(v.s).value)) else r == Failure(BadFloat(column))
    ensures v.JOther? ==> r == Failure(NotString(column))
  {
    match v
    case JNull => Success(Null)
    case JOther => Failure(NotString(column))
    case JStr(s) =>
      if s == Placeholder then Success(Null)
      else match parseFloat(s)
        case Some(f) => Success(Float(f))
        case None => Failure(BadFloat(column))
  }

  function JsonGetUid(column: string, v: JVal): (r: Result<Cell, ParseError>)
    ensures r == Success(Null) <==> IsAbsent(v)
    ensures r.Success? && !r.value.Null? ==>
      v.JStr? && r.value.Text? && |r.value.s| == |v.s| - UidPrefixLength && v.s == v.s[..UidPrefixLength] + r.value.s
    ensures v.JStr? && !IsAbsent(v) ==> (r.Success? <==> |v.s| >= UidPrefixLength)
    ensures r.Failure? ==> r.error == (if v.JOther? then NotString(column) else UidTooShort(column))
  {
    match v
    case JNull => Success(Null)
    case JOther => Failure(NotString(column))
    case JStr(s) =>
      if s == Placeholder then Success(Null)
      else if |s| < UidPrefixLength then Failure(UidTooShort(column))
      else Success(Text(s[UidPrefixLength..]))
  }

  /** Round trip: the decimal rendering of any 64-bit integer coerces back to that integer. */
  lemma IntRoundTrip(column: string, i: int)
    requires MinInt64 <= i <= MaxInt64
    ensures JsonGetInt(column, JStr(FormatInt(i))) == Success(Int(i))
  {
    ParseFormatInt(i);
  }

  /** Round trip: tagging an identifier with any four-character prefix and coercing it gives the identifier back. */
  lemma UidRoundTrip(column: string, tag: string, id: string)
    requires |tag| == UidPrefixLength
    ensures JsonGetUid(column, JStr(tag + id)) == Success(Text(id))
  {
    assert (tag + id)[UidPrefixLength..] == id;
  }
}
