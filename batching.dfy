/**
 * The loop of `processLogs`: every received line is appended to a buffer;
 * when the whole milliseconds elapsed since the last flush reach the flush
 * window (`FLUSH_MS`), the buffer is handed to `storeLogs` with the
 * high-water mark read once at start-up, emptied, and the flush time reset.
 * The clock is a parameter (monotonic nanoseconds).
 */
module Batching {
  import opened Wrappers
  import opened Strconv
  import opened LineParser
  import opened Storage

  /** Go's zero `time.Time`: the mark when the table yields no maximum timestamp. */
  const ZeroTime: int := 0

  const NanosPerMilli: nat := 1_000_000

  /** `Duration.Milliseconds()` of `to - from` nanoseconds: whole milliseconds, truncated toward zero. */
  function ElapsedMs(from: int, to: int): (ms: int)
    ensures from <= to ==> 0 <= ms * NanosPerMilli <= to - from < (ms + 1) * NanosPerMilli
    ensures to < from ==> 0 <= -ms * NanosPerMilli <= from - to < (-ms + 1) * NanosPerMilli
  {
    var d := to - from;
    if d >= 0 then d / NanosPerMilli else -((-d) / NanosPerMilli)
  }

  /** Elapsed time truncates toward zero, so reversing the interval negates it (a floor would not). */
  lemma ElapsedMsAntisymmetric(from: int, to: int)
    ensures ElapsedMs(from, to) == -ElapsedMs(to, from)
  {
  }

  /** The flush window from the `FLUSH_MS` setting; a parse error is ignored, as in the source. */
  function FlushWindow(setting: string): int {
    ParseInt(setting).IgnoringError()
  }

  /**
   * The high-water mark at start-up, from the text of the table's maximum
   * timestamp if the query yields one. `parseStored` gives instants on the
   * same scale as the line decoder, counted from Go's zero `time.Time`.
   */
  function StartingMark(maxTime: Option<string>, parseStored: string -> Option<int>): (r: Result<int, string>)
    ensures maxTime.None? ==> r == Success(ZeroTime)
    ensures maxTime.Some? ==>
      r == if parseStored(maxTime.value).Some? then Success(parseStored(maxTime.value).value) else Failure(maxTime.value)
  {
    match maxTime
    case None => Success(ZeroTime)
    case Some(text) =>
      match parseStored(text)
      case None => Failure(text)
      case Some(t) => Success(t)
  }

  /** The state of the loop: the buffered lines and the clock reading of the last flush. */
  datatype Accumulator = Accumulator(buffer: seq<string>, lastSync: int)

  /** One iteration: the state afterwards and the batch flushed, if any. */
  datatype Tick = Tick(next: Accumulator, flushed: Option<seq<string>>)

  predicate FlushDue(lastSync: int, now: int, flushTime: int) {
    ElapsedMs(lastSync, now) >= flushTime
  }

  /** One iteration of the loop on `line` received at clock reading `now`. */
  function Advance(acc: Accumulator, line: string, now: int, flushTime: int): Tick {
    var buffer := acc.buffer + [line];
    if FlushDue(acc.lastSync, now, flushTime) then Tick(Accumulator([], now), Some(buffer))
    else Tick(Accumulator(buffer, acc.lastSync), None)
  }

  /** A line and the clock reading at which the loop received it. */
  datatype Arrival = Arrival(line: string, at: int)

  /** The state after a run of iterations and the batches flushed along the way, in order. */
  datatype Trace = Trace(final: Accumulator, batches: seq<seq<string>>)

  function Run(acc: Accumulator, arrivals: seq<Arrival>, flushTime: int): Trace
    decreases |arrivals|
  {
    if arrivals == [] then Trace(acc, [])
    else
      var tick := Advance(acc, arrivals[0].line, arrivals[0].at, flushTime);
      var rest := Run(tick.next, arrivals[1..], flushTime);
      Trace(rest.final, (if tick.flushed.Some? then [tick.flushed.value] else []) + rest.batches)
  }

  function Concat(batches: seq<seq<string>>): seq<string> {
    if batches == [] then [] else batches[0] + Concat(batches[1..])
  }

  function Lines(arrivals: seq<Arrival>): seq<string> {
    if arrivals == [] then [] else [arrivals[0].line] + Lines(arrivals[1..])
  }

  /**
   * With a window of at least one millisecond, a flush is due exactly when
   * the clock has advanced by at least the window.
   */
  lemma FlushDueMeaning(lastSync: int, now: int, flushTime: int)
    requires flushTime >= 1
    ensures FlushDue(lastSync, now, flushTime) <==> now - lastSync >= flushTime * NanosPerMilli
  {
    var ms := ElapsedMs(lastSync, now);
    if now - lastSync >= flushTime * NanosPerMilli {
      assert (ms + 1) * NanosPerMilli > flushTime * NanosPerMilli;
    }
    if lastSync <= now && ms >= flushTime {
      assert ms * NanosPerMilli >= flushTime * NanosPerMilli;
    }
  }

  /** Batching loses, duplicates and reorders nothing: the flushed batches then the buffer are the lines received. */
  lemma {:induction false} RunKeepsEveryLine(acc: Accumulator, arrivals: seq<Arrival>, flushTime: int)
    ensures Concat(Run(acc, arrivals, flushTime).batches) + Run(acc, arrivals, flushTime).final.buffer
         == acc.buffer + Lines(arrivals)
    decreases |arrivals|
  {
    if arrivals != [] {
      var a := arrivals[0];
      var tick := Advance(acc, a.line, a.at, flushTime);
      var rest := Run(tick.next, arrivals[1..], flushTime);
      var trace := Run(acc, arrivals, flushTime);
      RunKeepsEveryLine(tick.next, arrivals[1..], flushTime);
      assert trace.final == rest.final;
      assert Lines(arrivals) == [a.line] + Lines(arrivals[1..]);
      if tick.flushed.Some? {
        var b := acc.buffer + [a.line];
        assert tick.next.buffer == [] && tick.flushed.value == b;
        assert trace.batches == [b] + rest.batches;
        assert ([b] + rest.batches)[1..] == rest.batches;
        assert Concat(trace.batches) == b + Concat(rest.batches);
        assert Concat(rest.batches) + rest.final.buffer == Lines(arrivals[1..]);
      } else {
        assert tick.next.buffer == acc.buffer + [a.line];
        assert trace.batches == rest.batches;
      }
    }
  }

  /** Every flushed batch holds at least the line whose arrival triggered the flush, as its last line. */
  lemma {:induction false} RunBatchesEndWithTrigger(acc: Accumulator, arrivals: seq<Arrival>, flushTime: int)
    ensures forall k :: 0 <= k < |Run(acc, arrivals, flushTime).batches| ==>
      var b := Run(acc, arrivals, flushTime).batches[k];
      b != [] && exists i :: 0 <= i < |arrivals| && b[|b| - 1] == arrivals[i].line
    decreases |arrivals|
  {
    if arrivals != [] {
      var tick := Advance(acc, arrivals[0].line, arrivals[0].at, flushTime);
      var rest := Run(tick.next, arrivals[1..], flushTime);
      RunBatchesEndWithTrigger(tick.next, arrivals[1..], flushTime);
      var batches := Run(acc, arrivals, flushTime).batches;
      forall k | 0 <= k < |batches|
        ensures batches[k] != [] && exists i :: 0 <= i < |arrivals| && batches[k][|batches[k]| - 1] == arrivals[i].line
      {
        if tick.flushed.Some? && k == 0 {
          assert batches[0] == acc.buffer + [arrivals[0].line];
        } else {
          var j := if tick.flushed.Some? then k - 1 else k;
          assert batches[k] == rest.batches[j];
          var i :| 0 <= i < |arrivals[1..]| && rest.batches[j][|rest.batches[j]| - 1] == arrivals[1..][i].line;
          assert arrivals[1..][i] == arrivals[i + 1];
        }
      }
    }
  }

  /** Running one more arrival after a run is one more iteration from where the run ended. */
  lemma {:induction false} RunSnoc(acc: Accumulator, xs: seq<Arrival>, x: Arrival, flushTime: int)
    ensures var pre := Run(acc, xs, flushTime);
      var tick := Advance(pre.final, x.line, x.at, flushTime);
      Run(acc, xs + [x], flushTime)
        == Trace(tick.next, pre.batches + (if tick.flushed.Some? then [tick.flushed.value] else []))
    decreases |xs|
  {
    if xs == [] {
      assert xs + [x] == [x];
      assert [x][1..] == [];
    } else {
      assert (xs + [x])[0] == xs[0] && (xs + [x])[1..] == xs[1..] + [x];
      var first := Advance(acc, xs[0].line, xs[0].at, flushTime);
      RunSnoc(first.next, xs[1..], x, flushTime);
    }
  }

  /**
   * Arrival `i` flushes exactly when the flush is due at its clock reading,
   * measured from the last flush before it; the batch it flushes is the
   * buffer left by the earlier arrivals followed by its own line, and
   * otherwise its line is only buffered.
   */
  lemma FlushAtArrival(acc: Accumulator, arrivals: seq<Arrival>, flushTime: int, i: nat)
    requires i < |arrivals|
    ensures var pre := Run(acc, arrivals[..i], flushTime);
      var post := Run(acc, arrivals[..i + 1], flushTime);
      var due := FlushDue(pre.final.lastSync, arrivals[i].at, flushTime);
      && (due ==>
            && post.batches == pre.batches + [pre.final.buffer + [arrivals[i].line]]
            && post.final == Accumulator([], arrivals[i].at))
      && (!due ==>
            && post.batches == pre.batches
            && post.final == Accumulator(pre.final.buffer + [arrivals[i].line], pre.final.lastSync))
  {
    assert arrivals[..i + 1] == arrivals[..i] + [arrivals[i]];
    RunSnoc(acc, arrivals[..i], arrivals[i], flushTime);
  }

  /**
   * A window of zero or less (for instance an unset `FLUSH_MS`) flushes on
   * every line, each in a batch of its own, as long as the clock does not go
   * backwards.
   */
  lemma {:induction false} ZeroWindowFlushesEveryLine(acc: Accumulator, arrivals: seq<Arrival>, flushTime: int)
    requires flushTime <= 0 && acc.buffer == []
    requires forall i :: 0 <= i < |arrivals| ==> acc.lastSync <= arrivals[i].at
    requires forall i, j :: 0 <= i < j < |arrivals| ==> arrivals[i].at <= arrivals[j].at
    ensures Run(acc, arrivals, flushTime).final.buffer == []
    ensures |Run(acc, arrivals, flushTime).batches| == |arrivals|
    ensures forall i :: 0 <= i < |arrivals| ==> Run(acc, arrivals, flushTime).batches[i] == [arrivals[i].line]
    decreases |arrivals|
  {
    if arrivals != [] {
      var a := arrivals[0];
      assert FlushDue(acc.lastSync, a.at, flushTime);
      var tick := Advance(acc, a.line, a.at, flushTime);
      assert acc.buffer + [a.line] == [a.line];
      assert tick.next == Accumulator([], a.at) && tick.flushed == Some([a.line]);
      ZeroWindowFlushesEveryLine(tick.next, arrivals[1..], flushTime);
      var rest := Run(tick.next, arrivals[1..], flushTime);
      assert Run(acc, arrivals, flushTime).batches == [[a.line]] + rest.batches;
    }
  }

  /** An unset `FLUSH_MS` reads as the empty text, which yields a window of zero. */
  lemma UnsetWindowIsZero()
    ensures FlushWindow("") == 0
  {
  }

  /**
   * An in-range decimal setting is the window; text ParseInt rejects with a
   * syntax error yields zero; text it rejects with a range error yields the
   * 64-bit bound on its sign's side.
   */
  lemma FlushWindowValue(setting: string)
    ensures IsDecimalInt(setting) && MinInt64 <= SignedValue(setting) <= MaxInt64 ==>
      FlushWindow(setting) == SignedValue(setting)
    ensures ParseInt(setting).SyntaxError? ==> FlushWindow(setting) == 0
    ensures ParseInt(setting).RangeError? ==>
      setting != [] && FlushWindow(setting) == if setting[0] == '-' then MinInt64 else MaxInt64
  {
    ParseIntMeaning(setting);
  }

  /**
   * Digits that overflow 64 unsigned bits make the setting a range error
   * whatever follows them, even characters that are not digits: the window
   * is then the largest 64-bit integer, not zero.
   */
  lemma OverflowBeforeBadCharacter(digits: string, d: char, rest: string)
    requires AllDigits(digits) && IsDigit(d)
    requires Horner(0, digits) <= MaxUint64 < Horner(0, digits) * 10 + DigitValue(d)
    ensures ParseInt(digits + [d] + rest) == RangeError(MaxInt64)
    ensures FlushWindow(digits + [d] + rest) == MaxInt64
  {
    var s := digits + [d] + rest;
    assert s == digits + ([d] + rest);
    AccumulateDigitsAppend(0, digits, [d] + rest);
    assert ([d] + rest)[0] == d;
    assert digits != [];
    assert s[0] == digits[0];
  }

  /**
   * The loop appends before it checks the clock: with a one-second window and
   * lines received at 0, 400 and 1200 ms, the first flush happens at 1200 ms
   * and carries all three lines.
   */
  lemma OneSecondWindowExample()
    ensures Run(Accumulator([], 0),
                [Arrival("a", 0), Arrival("b", 400 * NanosPerMilli), Arrival("c", 1200 * NanosPerMilli)],
                1000)
         == Trace(Accumulator([], 1200 * NanosPerMilli), [["a", "b", "c"]])
  {
    var arrivals := [Arrival("a", 0), Arrival("b", 400 * NanosPerMilli), Arrival("c", 1200 * NanosPerMilli)];
    assert ElapsedMs(0, 0) == 0 && ElapsedMs(0, 400 * NanosPerMilli) == 400;
    assert ElapsedMs(0, 1200 * NanosPerMilli) == 1200;
    var first := Advance(Accumulator([], 0), "a", 0, 1000);
    assert first == Tick(Accumulator(["a"], 0), None);
    var second := Advance(first.next, "b", 400 * NanosPerMilli, 1000);
    assert second == Tick(Accumulator(["a", "b"], 0), None);
    assert ["a", "b"] + ["c"] == ["a", "b", "c"];
    var third := Advance(second.next, "c", 1200 * NanosPerMilli, 1000);
    assert third == Tick(Accumulator([], 1200 * NanosPerMilli), Some(["a", "b", "c"]));
    assert arrivals[1..][1..][1..] == [];
    assert Run(third.next, [], 1000) == Trace(third.next, []);
    assert Run(second.next, arrivals[2..], 1000) == Trace(third.next, [["a", "b", "c"]]);
    assert Run(first.next, arrivals[1..], 1000) == Trace(third.next, [["a", "b", "c"]]);
  }

  /** On a first sync, every parsed line timestamped after the zero time is kept, in order. */
  lemma FirstSyncKeepsAll(logs: seq<string>, dec: Decoders, parseStored: string -> Option<int>)
    requires forall i :: 0 <= i < |logs| ==>
      ParsedLineOf(logs[i], dec).Success? && ParsedLineOf(logs[i], dec).value.time > ZeroTime
    ensures StartingMark(None, parseStored) == Success(ZeroTime)
    ensures Filtered(logs, ZeroTime, dec).Success?
    ensures |Filtered(logs, ZeroTime, dec).value| == |logs|
    ensures forall i :: 0 <= i < |logs| ==> Filtered(logs, ZeroTime, dec).value[i] == ParsedLineOf(logs[i], dec).value.row
  {
    SurvivingAllAfter(ParseAll(logs, dec).value, ZeroTime);
  }

  /**
   * The consumer side of `processLogs`: the buffer and last flush time change
   * with every received line; the flush window and the high-water mark are
   * fixed before the loop starts and never reassigned. After a failed flush
   * the process would exit, so the pipeline halts.
   */
  class Pipeline {
    var buffer: seq<string>
    var lastSync: int
    var halted: bool
    const flushTime: int
    const lastEntryTime: int
    const sink: Sink
    const dec: Decoders

    /**
     * Start-up: `start` is the clock reading taken first, `flushSetting` the
     * text of `FLUSH_MS` and `maxTime` the table's maximum timestamp, if the
     * query yields one. A maximum that cannot be parsed ends the program
     * before the loop starts, so it is not a state a pipeline is built in.
     */
    constructor (flushSetting: string, maxTime: Option<string>, parseStored: string -> Option<int>,
                 start: int, sink: Sink, dec: Decoders)
      requires StartingMark(maxTime, parseStored).Success?
      ensures buffer == [] && lastSync == start && !halted
      ensures flushTime == FlushWindow(flushSetting)
      ensures lastEntryTime == StartingMark(maxTime, parseStored).value
      ensures this.sink == sink && this.dec == dec
    {
      buffer := [];
      lastSync := start;
      halted := false;
      flushTime := FlushWindow(flushSetting);
      lastEntryTime := StartingMark(maxTime, parseStored).value;
      this.sink := sink;
      this.dec := dec;
    }

    function State(): Accumulator
      reads this
    {
      Accumulator(buffer, lastSync)
    }

    /** One iteration of the loop: `line` has been received at clock reading `now`. */
    method Step(line: string, now: int) returns (res: Result<Option<StoreReport>, StoreError>)
      requires !halted
      modifies this, sink
      ensures sink.healthy == old(sink.healthy)
      ensures var tick := Advance(old(State()), line, now, flushTime);
        match tick.flushed
        case None =>
          && State() == tick.next && !halted
          && res == Success(None) && sink.batches == old(sink.batches)
        case Some(batch) =>
          var o := Store(batch, lastEntryTime, dec, old(sink.healthy));
          && sink.batches == old(sink.batches) + o.written
          && (o.result.Success? ==> State() == tick.next && !halted && res == Success(Some(o.result.value)))
          && (o.result.Failure? ==>
                halted && buffer == old(buffer) + [line] && lastSync == old(lastSync) && res == Failure(o.result.error))
    {
      buffer := buffer + [line];
      if ElapsedMs(lastSync, now) >= flushTime {
        var stored := StoreLogs(buffer, sink, lastEntryTime, dec);
        if stored.Failure? {
          halted := true;
          return Failure(stored.error);
        }
        buffer := [];
        lastSync := now;
        res := Success(Some(stored.value));
      } else {
        res := Success(None);
      }
    }
  }
}
