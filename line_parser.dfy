/**
 * `parseLine`: one raw log line becomes a row of seventeen cells, in the
 * column order of the bulk write, together with the line's timestamp.
 * The line is hex-normalised, decoded as a JSON object, its `time` parsed as
 * an RFC 3339 timestamp, the row built field by field (the coercions run in
 * row order, so the first failing one decides the error), and finally every
 * cell holding the text `-` is overwritten with null, in place.
 */
module LineParser {
  import opened Wrappers
  import opened Fields
  import opened HexEscapes

  /**
   * The library parsers the line parser relies on: JSON object decoding,
   * RFC 3339 timestamps (section 5.6 of RFC 3339) to an integer instant, and
   * decimal floating-point text to the bits of a double. Instants count from
   * Go's zero `time.Time` (0001-01-01 00:00:00 UTC), which is instant 0.
   */
  datatype Decoders = Decoders(
    json: string -> Option<Object>,
    rfc3339: string -> Option<int>,
    float: string -> Option<bv64>)

  datatype Coercion = AsIs | AsInt | AsTimestamp | AsUid | AsFloat

  /** A column of the bulk write: its name, which is also the JSON key it is read from, and its coercion. */
  datatype Column = Column(name: string, coercion: Coercion)

  /**
   * The row of `parseLine`, slot by slot: each slot reads the JSON key of the
   * same name and applies its coercion, and the slots are in the order of the
   * column list of the bulk write.
   */
  const Columns: seq<Column> := [
    Column("time_local", AsIs),
    Column("path", AsIs),
    Column("ip", AsIs),
    Column("server_name", AsIs),
    Column("remote_user", AsIs),
    Column("remote_port", AsInt),
    Column("time", AsTimestamp),
    Column("user_agent", AsIs),
    Column("user_id_got", AsUid),
    Column("user_id_set", AsUid),
    Column("request", AsIs),
    Column("status", AsInt),
    Column("body_bytes_sent", AsInt),
    Column("request_time", AsFloat),
    Column("request_method", AsIs),
    Column("geoip_country_code", AsIs),
    Column("http_referrer", AsIs)
  ]

  /** Position of the timestamp in a row. */
  const TimeIndex: nat := 6

  /** The cell that `column` receives from the decoded object `d` whose timestamp is `t`. */
  function Coerce(column: Column, d: Object, t: int, dec: Decoders): Result<Cell, ParseError> {
    var v := Get(d, column.name);
    match column.coercion
    case AsIs => Success(FromJson(v))
    case AsInt => JsonGetInt(column.name, v)
    case AsTimestamp => Success(Time(t))
    case AsUid => JsonGetUid(column.name, v)
    case AsFloat => JsonGetFloat(column.name, v, dec.float)
  }

  /** Decoding and timestamp extraction: what comes before the row is built. */
  function Decode(line: string, dec: Decoders): (r: Result<(Object, int), ParseError>)
    ensures dec.json(NormaliseHex(line)).None? ==> r == Failure(Malformed)
    ensures r.Success? ==> dec.json(NormaliseHex(line)) == Some(r.value.0)
    ensures dec.json(NormaliseHex(line)).Some? ==>
      var d := dec.json(NormaliseHex(line)).value;
      match Get(d, "time")
      case JStr(ts) => r == (if dec.rfc3339(ts).Some? then Success((d, dec.rfc3339(ts).value)) else Failure(BadTimestamp))
      case _ => r == Failure(TimeNotString)
  {
    match dec.json(NormaliseHex(line))
    case None => Failure(Malformed)
    case Some(d) =>
      match Get(d, "time")
      case JStr(ts) =>
        (match dec.rfc3339(ts)
         case None => Failure(BadTimestamp)
         case Some(t) => Success((d, t)))
      case _ => Failure(TimeNotString)
  }

  /**
   * Evaluating the row literal over `columns`: the slots are coerced left to
   * right and the first coercion that fails (a panic in Go) ends the row.
   */
  function CoerceAll(columns: seq<Column>, d: Object, t: int, dec: Decoders): Result<seq<Cell>, ParseError>
    decreases |columns|
  {
    if |columns| == 0 then Success([])
    else
      var init :- CoerceAll(columns[..|columns| - 1], d, t, dec);
      var cell :- Coerce(columns[|columns| - 1], d, t, dec);
      Success(init + [cell])
  }

  /** The row literal of `parseLine`, before placeholders are nulled. */
  function BuildRow(d: Object, t: int, dec: Decoders): Result<seq<Cell>, ParseError> {
    CoerceAll(Columns, d, t, dec)
  }

  /** A row succeeds exactly when every slot's coercion does, and then slot `i` holds what column `i` receives. */
  lemma {:induction false} CoerceAllMeaning(columns: seq<Column>, d: Object, t: int, dec: Decoders)
    ensures CoerceAll(columns, d, t, dec).Success? <==>
      forall i :: 0 <= i < |columns| ==> Coerce(columns[i], d, t, dec).Success?
    ensures CoerceAll(columns, d, t, dec).Success? ==>
      |CoerceAll(columns, d, t, dec).value| == |columns| &&
      forall i :: 0 <= i < |columns| ==> Coerce(columns[i], d, t, dec) == Success(CoerceAll(columns, d, t, dec).value[i])
    decreases |columns|
  {
    if |columns| > 0 {
      var init := columns[..|columns| - 1];
      CoerceAllMeaning(init, d, t, dec);
      assert forall i :: 0 <= i < |init| ==> init[i] == columns[i];
    }
  }

  /** A failing row reports the error of the first slot, in row order, whose coercion fails. */
  lemma {:induction false} CoerceAllFirstFailure(columns: seq<Column>, d: Object, t: int, dec: Decoders, k: nat)
    requires k < |columns| && Coerce(columns[k], d, t, dec).Failure?
    requires forall j :: 0 <= j < k ==> Coerce(columns[j], d, t, dec).Success?
    ensures CoerceAll(columns, d, t, dec) == Failure(Coerce(columns[k], d, t, dec).error)
    decreases |columns|
  {
    var init := columns[..|columns| - 1];
    if k < |columns| - 1 {
      assert init[k] == columns[k];
      assert forall j :: 0 <= j < k ==> init[j] == columns[j];
      CoerceAllFirstFailure(init, d, t, dec, k);
    } else {
      CoerceAllMeaning(init, d, t, dec);
      assert forall j :: 0 <= j < |init| ==> init[j] == columns[j];
    }
  }

  /** A parsed line: the row handed to the bulk write and the line's timestamp. */
  datatype ParsedLine = ParsedLine(row: seq<Cell>, time: int)

  /** The final pass over one cell: the text `-` becomes null, anything else is kept. */
  function Scrub(c: Cell): Cell {
    if c == Text(Placeholder) then Null else c
  }

  /** The final pass over a row: only placeholder cells change, and they become null. */
  function WithoutPlaceholders(cells: seq<Cell>): (r: seq<Cell>)
    ensures |r| == |cells|
    ensures forall i :: 0 <= i < |r| ==> r[i] != Text(Placeholder)
    ensures forall i :: 0 <= i < |r| && cells[i] != Text(Placeholder) ==> r[i] == cells[i]
    ensures forall i :: 0 <= i < |r| && cells[i] == Text(Placeholder) ==> r[i] == Null
  {
    if cells == [] then [] else [Scrub(cells[0])] + WithoutPlaceholders(cells[1..])
  }

  /** The final loop of `parseLine`, overwriting placeholder slots of the row in place. */
  method ClearPlaceholders(a: array<Cell>)
    modifies a
    ensures a[..] == WithoutPlaceholders(old(a[..]))
  {
    ghost var before := a[..];
    for i := 0 to a.Length
      invariant forall k :: 0 <= k < i ==> a[k] == Scrub(before[k])
      invariant forall k :: i <= k < a.Length ==> a[k] == before[k]
    {
      if a[i] == Text(Placeholder) {
        a[i] := Null;
      }
    }
  }

  /** What `parseLine` produces for `line`: the row and timestamp, or the error it panics with. */
  function ParsedLineOf(line: string, dec: Decoders): Result<ParsedLine, ParseError> {
    var decoded :- Decode(line, dec);
    var built :- BuildRow(decoded.0, decoded.1, dec);
    Success(ParsedLine(WithoutPlaceholders(built), decoded.1))
  }

  /** `parseLine`: builds the row, then nulls its placeholder cells in place. */
  method ParseLine(line: string, dec: Decoders) returns (res: Result<ParsedLine, ParseError>)
    ensures res == ParsedLineOf(line, dec)
  {
    var decoded :- Decode(line, dec);
    var built :- BuildRow(decoded.0, decoded.1, dec);
    var parsed := new Cell[|built|](i requires 0 <= i < |built| => built[i]);
    assert parsed[..] == built;
    ClearPlaceholders(parsed);
    res := Success(ParsedLine(parsed[..], decoded.1));
  }

  /**
   * A parsed line is a row of one cell per column, in column order: cell `i`
   * is what column `i` receives from the decoded object with placeholders
   * nulled, the timestamp column holds the line's timestamp, and no cell is
   * the placeholder text.
   */
  lemma ParsedLineShape(line: string, dec: Decoders)
    ensures ParsedLineOf(line, dec).Success? ==>
      var p := ParsedLineOf(line, dec).value;
      var d := Decode(line, dec).value.0;
      && Decode(line, dec).Success?
      && |p.row| == |Columns| == 17
      && Columns[TimeIndex].name == "time"
      && p.row[TimeIndex] == Time(p.time)
      && p.time == Decode(line, dec).value.1
      && (forall i :: 0 <= i < |Columns| ==>
            Coerce(Columns[i], d, p.time, dec).Success? && p.row[i] == Scrub(Coerce(Columns[i], d, p.time, dec).value))
      && (forall i :: 0 <= i < |p.row| ==> p.row[i] != Text(Placeholder))
  {
    assert Columns[TimeIndex] == Column("time", AsTimestamp);
    if ParsedLineOf(line, dec).Success? {
      var (d, t) := Decode(line, dec).value;
      CoerceAllMeaning(Columns, d, t, dec);
    }
  }

  /** A line that decodes but whose row fails reports the first failing column's error. */
  lemma ParseLineFirstFailure(line: string, dec: Decoders, k: nat)
    requires Decode(line, dec).Success?
    requires k < |Columns| && Coerce(Columns[k], Decode(line, dec).value.0, Decode(line, dec).value.1, dec).Failure?
    requires forall j :: 0 <= j < k ==> Coerce(Columns[j], Decode(line, dec).value.0, Decode(line, dec).value.1, dec).Success?
    ensures ParsedLineOf(line, dec) == Failure(Coerce(Columns[k], Decode(line, dec).value.0, Decode(line, dec).value.1, dec).error)
  {
    CoerceAllFirstFailure(Columns, Decode(line, dec).value.0, Decode(line, dec).value.1, dec, k);
  }
}
