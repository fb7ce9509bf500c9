/**
 * `storeLogs`: a flushed batch of raw lines is parsed in order (the first
 * line that fails aborts the whole batch before anything is written), the
 * rows whose timestamp is strictly after the high-water mark are kept in
 * input order, and they are handed to the sink in one bulk write, unless
 * none survive. The numbers of stored and skipped lines are reported.
 */
module Storage {
  import opened Wrappers
  import opened Fields
  import opened LineParser

  type Row = seq<Cell>

  /**
   * The destination table, as far as the pipeline sees it: the batches of
   * rows it has accepted, in order, and whether it accepts the next write.
   * A write is accepted or rejected as a whole. The database decides that
   * outside the program (the connection may drop, or a row may break a
   * column type such as `int` or `varchar(256)`), so the environment sets
   * `healthy` before each write and may change it between writes.
   */
  class Sink {
    var batches: seq<seq<Row>>
    var healthy: bool

    constructor (healthy: bool)
      ensures batches == [] && this.healthy == healthy
    {
      batches := [];
      this.healthy := healthy;
    }

    /** The bulk write: all of `rows` or nothing. */
    method CopyFrom(rows: seq<Row>) returns (ok: bool)
      modifies this
      ensures ok == old(healthy) && healthy == old(healthy)
      ensures batches == if ok then old(batches) + [rows] else old(batches)
    {
      ok := healthy;
      if ok {
        batches := batches + [rows];
      }
    }

    /** The environment decides whether the next write will be accepted. */
    method SetHealthy(accepting: bool)
      modifies this
      ensures healthy == accepting && batches == old(batches)
    {
      healthy := accepting;
    }
  }

  /** Parses every line in order; the first failing line decides the error. */
  function ParseAll(logs: seq<string>, dec: Decoders): (r: Result<seq<ParsedLine>, ParseError>)
    ensures r.Success? <==> forall i :: 0 <= i < |logs| ==> ParsedLineOf(logs[i], dec).Success?
    ensures r.Success? ==>
      |r.value| == |logs| && forall i :: 0 <= i < |logs| ==> ParsedLineOf(logs[i], dec) == Success(r.value[i])
    decreases |logs|
  {
    if logs == [] then Success([])
    else
      var init :- ParseAll(logs[..|logs| - 1], dec);
      var last :- ParsedLineOf(logs[|logs| - 1], dec);
      Success(init + [last])
  }

  /** The rows of the lines timestamped strictly after `mark`, in input order. */
  function Surviving(parsed: seq<ParsedLine>, mark: int): (rows: seq<Row>)
    ensures |rows| <= |parsed|
    decreases |parsed|
  {
    if parsed == [] then []
    else
      var last := parsed[|parsed| - 1];
      Surviving(parsed[..|parsed| - 1], mark) + (if last.time > mark then [last.row] else [])
  }

  /** The number of lines timestamped at or before `mark`. */
  function CountAtOrBefore(parsed: seq<ParsedLine>, mark: int): nat
    decreases |parsed|
  {
    if parsed == [] then 0
    else CountAtOrBefore(parsed[..|parsed| - 1], mark) + (if parsed[|parsed| - 1].time <= mark then 1 else 0)
  }

  /** The lines stored and skipped by one call. */
  datatype StoreReport = StoreReport(stored: nat, skipped: nat)

  datatype StoreError = ParseFailed(cause: ParseError) | WriteFailed

  /** What one call returns, and the writes it makes to the sink: none, or one batch. */
  datatype StoreOutcome = StoreOutcome(result: Result<StoreReport, StoreError>, written: seq<seq<Row>>)

  /** The outcome of `storeLogs` on `logs` with high-water mark `mark` against a sink that is `healthy` or not. */
  function Store(logs: seq<string>, mark: int, dec: Decoders, healthy: bool): (o: StoreOutcome)
    ensures Filtered(logs, mark, dec).Failure? ==>
      o.written == [] && o.result == Failure(ParseFailed(Filtered(logs, mark, dec).error))
    ensures o.written != [] ==>
      o.written == [Filtered(logs, mark, dec).value] && o.written[0] != [] && healthy
    ensures o.written != [] <==> o.result.Success? && o.result.value.stored > 0
    ensures o.result.Success? ==>
      && o.result.value.stored + o.result.value.skipped == |logs|
      && o.result.value.skipped == CountAtOrBefore(ParseAll(logs, dec).value, mark)
    ensures Filtered(logs, mark, dec).Success? && Filtered(logs, mark, dec).value == [] ==>
      o == StoreOutcome(Success(StoreReport(0, |logs|)), [])
    ensures Filtered(logs, mark, dec).Success? && Filtered(logs, mark, dec).value != [] && healthy ==>
      var rows := Filtered(logs, mark, dec).value;
      o == StoreOutcome(Success(StoreReport(|rows|, |logs| - |rows|)), [rows])
    ensures Filtered(logs, mark, dec).Success? && Filtered(logs, mark, dec).value != [] && !healthy ==>
      o == StoreOutcome(Failure(WriteFailed), [])
  {
    match Filtered(logs, mark, dec)
    case Failure(e) => StoreOutcome(Failure(ParseFailed(e)), [])
    case Success(rows) =>
      SurvivingCount(ParseAll(logs, dec).value, mark);
      if rows == [] then StoreOutcome(Success(StoreReport(0, |logs|)), [])
      else if healthy then StoreOutcome(Success(StoreReport(|rows|, |logs| - |rows|)), [rows])
      else StoreOutcome(Failure(WriteFailed), [])
  }

  /** Parsing one more line extends the parsed prefix, or fails with that line's error. */
  lemma ParseAllStep(logs: seq<string>, i: nat, dec: Decoders)
    requires i < |logs| && ParseAll(logs[..i], dec).Success?
    ensures ParseAll(logs[..i + 1], dec) ==
      match ParsedLineOf(logs[i], dec)
      case Failure(e) => Failure(e)
      case Success(p) => Success(ParseAll(logs[..i], dec).value + [p])
  {
    assert logs[..i + 1][..i] == logs[..i];
  }

  lemma SurvivingStep(parsed: seq<ParsedLine>, p: ParsedLine, mark: int)
    ensures Surviving(parsed + [p], mark) == Surviving(parsed, mark) + (if p.time > mark then [p.row] else [])
  {
    assert (parsed + [p])[..|parsed|] == parsed;
  }

  /** The filter distributes over concatenation: rows keep their input order. */
  lemma {:induction false} SurvivingAppend(p1: seq<ParsedLine>, p2: seq<ParsedLine>, mark: int)
    ensures Surviving(p1 + p2, mark) == Surviving(p1, mark) + Surviving(p2, mark)
    decreases |p2|
  {
    if p2 == [] {
      assert p1 + p2 == p1;
    } else {
      var q := p2[..|p2| - 1];
      var x := p2[|p2| - 1];
      assert p2 == q + [x];
      assert p1 + p2 == (p1 + q) + [x];
      SurvivingStep(p1 + q, x, mark);
      SurvivingStep(q, x, mark);
      SurvivingAppend(p1, q, mark);
    }
  }

  /** A single line survives exactly when its timestamp is strictly after the mark. */
  lemma SurvivingSingle(p: ParsedLine, mark: int)
    ensures Surviving([p], mark) == if p.time > mark then [p.row] else []
  {
    SurvivingStep([], p, mark);
    assert [] + [p] == [p];
  }

  /** Kept and skipped lines together account for every line. */
  lemma {:induction false} SurvivingCount(parsed: seq<ParsedLine>, mark: int)
    ensures |Surviving(parsed, mark)| + CountAtOrBefore(parsed, mark) == |parsed|
    decreases |parsed|
  {
    if parsed != [] {
      SurvivingCount(parsed[..|parsed| - 1], mark);
    }
  }

  /** When every line is after the mark, every row is kept, in order. */
  lemma {:induction false} SurvivingAllAfter(parsed: seq<ParsedLine>, mark: int)
    requires forall i :: 0 <= i < |parsed| ==> parsed[i].time > mark
    ensures |Surviving(parsed, mark)| == |parsed|
    ensures forall i :: 0 <= i < |parsed| ==> Surviving(parsed, mark)[i] == parsed[i].row
    decreases |parsed|
  {
    if parsed != [] {
      SurvivingAllAfter(parsed[..|parsed| - 1], mark);
    }
  }

  /** When no line is after the mark (a replay of stored lines), nothing is kept. */
  lemma {:induction false} SurvivingNoneAfter(parsed: seq<ParsedLine>, mark: int)
    requires forall i :: 0 <= i < |parsed| ==> parsed[i].time <= mark
    ensures Surviving(parsed, mark) == []
    ensures CountAtOrBefore(parsed, mark) == |parsed|
    decreases |parsed|
  {
    if parsed != [] {
      SurvivingNoneAfter(parsed[..|parsed| - 1], mark);
    }
  }

  /** A batch all of whose lines are at or before the mark parses, but writes nothing and skips every line. */
  lemma ReplayIsSkipped(logs: seq<string>, mark: int, dec: Decoders, healthy: bool)
    requires forall i :: 0 <= i < |logs| ==>
      ParsedLineOf(logs[i], dec).Success? && ParsedLineOf(logs[i], dec).value.time <= mark
    ensures Store(logs, mark, dec, healthy) == StoreOutcome(Success(StoreReport(0, |logs|)), [])
  {
    SurvivingNoneAfter(ParseAll(logs, dec).value, mark);
  }

  /** A failing prefix decides the outcome of parsing the whole batch. */
  lemma {:induction false} ParseAllPrefixFailure(logs: seq<string>, i: nat, dec: Decoders)
    requires i <= |logs| && ParseAll(logs[..i], dec).Failure?
    ensures ParseAll(logs, dec) == ParseAll(logs[..i], dec)
    decreases |logs|
  {
    if i < |logs| {
      var init := logs[..|logs| - 1];
      assert init[..i] == logs[..i];
      ParseAllPrefixFailure(init, i, dec);
    } else {
      assert logs[..i] == logs;
    }
  }

  /** The rows `storeLogs` hands to the sink, or the error of the first line that fails to parse. */
  function Filtered(logs: seq<string>, mark: int, dec: Decoders): Result<seq<Row>, ParseError> {
    var parsed :- ParseAll(logs, dec);
    Success(Surviving(parsed, mark))
  }

  /** The loop of `storeLogs`: parse each line in order and keep the rows after the mark. */
  method FilterBatch(logs: seq<string>, lastEntryTime: int, dec: Decoders) returns (res: Result<seq<Row>, ParseError>)
    ensures res == Filtered(logs, lastEntryTime, dec)
  {
    var rows: seq<Row> := [];
    var i := 0;
    while i < |logs|
      invariant 0 <= i <= |logs|
      invariant ParseAll(logs[..i], dec).Success?
      invariant rows == Surviving(ParseAll(logs[..i], dec).value, lastEntryTime)
    {
      var parsed := ParseLine(logs[i], dec);
      ParseAllStep(logs, i, dec);
      if parsed.Failure? {
        ParseAllPrefixFailure(logs, i + 1, dec);
        return Failure(parsed.error);
      }
      SurvivingStep(ParseAll(logs[..i], dec).value, parsed.value, lastEntryTime);
      if parsed.value.time > lastEntryTime {
        rows := rows + [parsed.value.row];
      }
      i := i + 1;
    }
    assert logs[..i] == logs;
    res := Success(rows);
  }

  /** `storeLogs`: filter the batch, then one bulk write if any row survives. */
  method StoreLogs(logs: seq<string>, sink: Sink, lastEntryTime: int, dec: Decoders)
    returns (res: Result<StoreReport, StoreError>)
    modifies sink
    ensures sink.healthy == old(sink.healthy)
    ensures var o := Store(logs, lastEntryTime, dec, old(sink.healthy));
      res == o.result && sink.batches == old(sink.batches) + o.written
  {
    var filtered := FilterBatch(logs, lastEntryTime, dec);
    ghost var o := Store(logs, lastEntryTime, dec, sink.healthy);
    if filtered.Failure? {
      assert o == StoreOutcome(Failure(ParseFailed(filtered.error)), []);
      return Failure(ParseFailed(filtered.error));
    }
    var rows := filtered.value;
    if |rows| == 0 {
      assert o == StoreOutcome(Success(StoreReport(0, |logs|)), []);
      return Success(StoreReport(0, |logs|));
    }
    var ok := sink.CopyFrom(rows);
    if ok {
      assert o == StoreOutcome(Success(StoreReport(|rows|, |logs| - |rows|)), [rows]);
      res := Success(StoreReport(|rows|, |logs| - |rows|));
    } else {
      assert o == StoreOutcome(Failure(WriteFailed), []);
      res := Failure(WriteFailed);
    }
  }
}
