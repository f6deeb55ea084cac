/**
 The ingest phase (import-den.go lines 197-327): every data line after the
 header is decoded and routed to every interval; the first line that does not
 decode stops the run, leaving what was written so far.
 */
module Ingest {
  import opened Wrappers
  import opened Intervals
  import opened Records
  import opened Routing
  import opened Sinks

  /** The per-interval destinations, keyed by interval id. */
  type State<V> = map<string, Sink<V>>

  /** A destination looked up the Go way: a missing key reads as the zero value. */
  function SinkOf<V>(st: State<V>, k: string): Sink<V> {
    if k in st then st[k] else Empty()
  }

  /** Line 156: one empty destination per interval. */
  function Init<V>(table: map<string, TimeRange>): State<V> {
    map k | k in table :: Empty()
  }

  /**
   Lines 290-322 with the map walked in the order `order`: each interval in
   turn receives the reading's writes.
   */
  function StepInOrder<V>(table: map<string, TimeRange>, st: State<V>, rec: Record<V>, order: seq<string>): State<V>
    decreases |order|
  {
    if |order| == 0 then st
    else
      var k := order[0];
      var st' := if k in table then st[k := Deliver(SinkOf(st, k), table[k], rec)] else st;
      StepInOrder(table, st', rec, order[1..])
  }

  /** The routing step with no order: every interval receives the reading's writes. */
  function Step<V>(table: map<string, TimeRange>, st: State<V>, rec: Record<V>): State<V> {
    map k | k in table :: Deliver(SinkOf(st, k), table[k], rec)
  }

  ghost predicate Distinct(order: seq<string>) {
    forall i, j :: 0 <= i < j < |order| ==> order[i] != order[j]
  }

  /**
   Walking the intervals in any order without repeats delivers the reading to
   exactly the intervals walked, each from its state before the step; the
   other destinations are untouched.
   */
  lemma {:induction false} StepInOrderSpec<V>(table: map<string, TimeRange>, st: State<V>, rec: Record<V>, order: seq<string>)
    requires Distinct(order)
    ensures var st' := StepInOrder(table, st, rec, order);
      && (forall k :: k in st' <==> k in st || (k in order && k in table))
      && (forall k :: k in order && k in table ==> st'[k] == Deliver(SinkOf(st, k), table[k], rec))
      && (forall k :: k in st && !(k in order && k in table) ==> st'[k] == st[k])
    decreases |order|
  {
    if |order| > 0 {
      var k0 := order[0];
      var st1 := if k0 in table then st[k0 := Deliver(SinkOf(st, k0), table[k0], rec)] else st;
      assert Distinct(order[1..]);
      StepInOrderSpec(table, st1, rec, order[1..]);
      assert forall k :: k in order <==> k == k0 || k in order[1..];
      assert k0 !in order[1..];
      forall k | k in order[1..] && k in table
        ensures SinkOf(st1, k) == SinkOf(st, k)
      {
        assert k != k0;
      }
    }
  }

  /**
   Lines 290-322: the order in which Go walks the destination map does not
   matter; any enumeration of the intervals gives the order-free step.
   */
  lemma StepOrderIrrelevant<V>(table: map<string, TimeRange>, st: State<V>, rec: Record<V>, order: seq<string>)
    requires st.Keys == table.Keys
    requires Distinct(order)
    requires forall k :: k in order <==> k in table
    ensures StepInOrder(table, st, rec, order) == Step(table, st, rec)
  {
    StepInOrderSpec(table, st, rec, order);
  }

  /** Route a sequence of readings, one step per reading. */
  function RunRecords<V>(table: map<string, TimeRange>, st: State<V>, recs: seq<Record<V>>): State<V>
    decreases |recs|
  {
    if |recs| == 0 then st
    else RunRecords(table, Step(table, st, recs[0]), recs[1..])
  }

  /**
   Lines 290-322 over a whole input: reading `i` is delivered by walking the
   destination map in the order `orders[i]`, which Go may choose afresh for
   every reading.
   */
  function RunRecordsInOrders<V>(table: map<string, TimeRange>, st: State<V>, recs: seq<Record<V>>,
                                 orders: seq<seq<string>>): State<V>
    requires |orders| == |recs|
    decreases |recs|
  {
    if |recs| == 0 then st
    else RunRecordsInOrders(table, StepInOrder(table, st, recs[0], orders[0]), recs[1..], orders[1..])
  }

  /**
   Whatever enumeration of the intervals each reading is routed in, the
   destinations end as with the order-free step.
   */
  lemma {:induction false} RunOrdersIrrelevant<V>(table: map<string, TimeRange>, st: State<V>, recs: seq<Record<V>>,
                                                  orders: seq<seq<string>>)
    requires st.Keys == table.Keys
    requires |orders| == |recs|
    requires forall i :: 0 <= i < |orders| ==> Distinct(orders[i])
    requires forall i, k :: 0 <= i < |orders| ==> (k in orders[i] <==> k in table)
    ensures RunRecordsInOrders(table, st, recs, orders) == RunRecords(table, st, recs)
    decreases |recs|
  {
    if |recs| > 0 {
      StepOrderIrrelevant(table, st, recs[0], orders[0]);
      var st1 := Step(table, st, recs[0]);
      assert forall i :: 0 <= i < |orders[1..]| ==> orders[1..][i] == orders[i + 1];
      RunOrdersIrrelevant(table, st1, recs[1..], orders[1..]);
    }
  }

  /** Route a sequence of readings to one interval alone. */
  function RunOne<V>(r: TimeRange, s: Sink<V>, recs: seq<Record<V>>): Sink<V>
    decreases |recs|
  {
    if |recs| == 0 then s
    else RunOne(r, Deliver(s, r, recs[0]), recs[1..])
  }

  /**
   Each interval's destination evolves on its own: it depends only on that
   interval's range, its own starting state and the readings.
   */
  lemma {:induction false} PerInterval<V>(table: map<string, TimeRange>, st: State<V>, recs: seq<Record<V>>, k: string)
    requires k in table
    ensures SinkOf(RunRecords(table, st, recs), k) == RunOne(table[k], SinkOf(st, k), recs)
    decreases |recs|
  {
    if |recs| > 0 {
      PerInterval(table, Step(table, st, recs[0]), recs[1..], k);
    }
  }

  /** With a destination per interval, routing keeps exactly those keys. */
  lemma {:induction false} RunRecordsKeys<V>(table: map<string, TimeRange>, st: State<V>, recs: seq<Record<V>>)
    requires st.Keys == table.Keys
    ensures RunRecords(table, st, recs).Keys == table.Keys
    decreases |recs|
  {
    if |recs| > 0 {
      RunRecordsKeys(table, Step(table, st, recs[0]), recs[1..]);
    }
  }

  /** Reference file contents: each reading's writes, reading after reading. */
  function Expected<V>(r: TimeRange, recs: seq<Record<V>>): seq<Line<V>>
    decreases |recs|
  {
    if |recs| == 0 then [] else Written(r, recs[0]) + Expected(r, recs[1..])
  }

  /** Reference counter: how many readings fire bucket `b`. */
  function Hits<V>(r: TimeRange, recs: seq<Record<V>>, b: Bucket): nat
    decreases |recs|
  {
    if |recs| == 0 then 0 else Hit(r, recs[0], b) + Hits(r, recs[1..], b)
  }

  lemma Associative<T>(a: seq<T>, b: seq<T>, c: seq<T>)
    ensures (a + b) + c == a + (b + c)
  {
  }

  /** Routing readings to one interval appends the reference contents to its file. */
  lemma {:induction false} RunOneLines<V>(r: TimeRange, s: Sink<V>, recs: seq<Record<V>>)
    ensures RunOne(r, s, recs).lines == s.lines + Expected(r, recs)
    decreases |recs|
  {
    if |recs| > 0 {
      var s1 := Deliver(s, r, recs[0]);
      RunOneLines(r, s1, recs[1..]);
      Associative(s.lines, Written(r, recs[0]), Expected(r, recs[1..]));
    } else {
      assert s.lines + [] == s.lines;
    }
  }

  /** Routing readings to one interval raises each counter by the number of readings firing its bucket. */
  lemma {:induction false} RunOneCount<V>(r: TimeRange, s: Sink<V>, recs: seq<Record<V>>)
    ensures RunOne(r, s, recs).count == FCount(s.count.a + Hits(r, recs, StartEdge),
                                               s.count.b + Hits(r, recs, Interior),
                                               s.count.c + Hits(r, recs, EndEdge))
    decreases |recs|
  {
    if |recs| > 0 {
      RunOneCount(r, Deliver(s, r, recs[0]), recs[1..]);
    }
  }

  /** Routing keeps the counters equal to the file's per-bucket line counts. */
  lemma {:induction false} RunOneConsistent<V>(r: TimeRange, s: Sink<V>, recs: seq<Record<V>>)
    requires Consistent(s)
    ensures Consistent(RunOne(r, s, recs))
    decreases |recs|
  {
    if |recs| > 0 {
      DeliverConsistent(s, r, recs[0]);
      RunOneConsistent(r, Deliver(s, r, recs[0]), recs[1..]);
    }
  }

  lemma {:induction false} RunOneAppend<V>(r: TimeRange, s: Sink<V>, xs: seq<Record<V>>, ys: seq<Record<V>>)
    ensures RunOne(r, s, xs + ys) == RunOne(r, RunOne(r, s, xs), ys)
    decreases |xs|
  {
    if |xs| > 0 {
      assert (xs + ys)[1..] == xs[1..] + ys;
      RunOneAppend(r, Deliver(s, r, xs[0]), xs[1..], ys);
    } else {
      assert xs + ys == ys;
    }
  }

  /**
   From the initial state, after any readings, each interval's file holds
   exactly the reference contents, each counter equals the number of readings
   firing its bucket, and the counters agree with the file.
   */
  lemma RoutedFromStart<V>(table: map<string, TimeRange>, recs: seq<Record<V>>, k: string)
    requires k in table
    ensures var s := SinkOf(RunRecords(table, Init(table), recs), k);
      && s.lines == Expected(table[k], recs)
      && s.count == FCount(Hits(table[k], recs, StartEdge), Hits(table[k], recs, Interior), Hits(table[k], recs, EndEdge))
      && Consistent(s)
  {
    var st0: State<V> := Init(table);
    var e: Sink<V> := Empty();
    assert SinkOf(st0, k) == e;
    PerInterval(table, st0, recs, k);
    RunOneLines(table[k], e, recs);
    assert e.lines + Expected(table[k], recs) == Expected(table[k], recs);
    RunOneCount(table[k], e, recs);
    RunOneConsistent(table[k], e, recs);
  }

  /**
   Counters never decrease and files only grow: after more readings, each
   file extends the earlier one and each counter is at least its earlier
   value.
   */
  lemma Monotone<V>(table: map<string, TimeRange>, st: State<V>, xs: seq<Record<V>>, ys: seq<Record<V>>, k: string)
    requires k in table
    ensures var before := SinkOf(RunRecords(table, st, xs), k);
      var after := SinkOf(RunRecords(table, st, xs + ys), k);
      && before.lines <= after.lines
      && before.count.a <= after.count.a
      && before.count.b <= after.count.b
      && before.count.c <= after.count.c
  {
    PerInterval(table, st, xs, k);
    PerInterval(table, st, xs + ys, k);
    RunOneAppend(table[k], SinkOf(st, k), xs, ys);
    RunOneLines(table[k], RunOne(table[k], SinkOf(st, k), xs), ys);
    RunOneCount(table[k], RunOne(table[k], SinkOf(st, k), xs), ys);
  }

  /** The readings decoded before the first bad line, and that line's failure if any. */
  datatype Decoded<V> = Decoded(records: seq<Record<V>>, stop: Option<Fatal>)

  /** Decode data lines numbered from `lineNo` until the first failure. */
  function DecodeAll<V>(lines: seq<string>, p: Parsers<V>, lineNo: nat): (d: Decoded<V>)
    ensures |d.records| <= |lines|
    ensures forall i :: 0 <= i < |d.records| ==> Decode(lines[i], p, lineNo + i) == Success(d.records[i])
    ensures d.stop.None? ==> |d.records| == |lines|
    ensures d.stop.Some? ==> |d.records| < |lines| && Decode(lines[|d.records|], p, lineNo + |d.records|) == Failure(d.stop.value)
    decreases |lines|
  {
    if |lines| == 0 then Decoded([], None)
    else
      match Decode(lines[0], p, lineNo)
      case Failure(e) => Decoded([], Some(e))
      case Success(rec) =>
        var rest := DecodeAll(lines[1..], p, lineNo + 1);
        var d := Decoded([rec] + rest.records, rest.stop);
        assert forall i :: 0 < i <= |rest.records| ==>
          lines[i] == lines[1..][i - 1] && lineNo + i == lineNo + 1 + (i - 1);
        assert forall i :: 0 < i < |d.records| ==> d.records[i] == rest.records[i - 1];
        d
  }

  /** How the ingest phase ends, with the destinations as they are at that point. */
  datatype Outcome<V> = Finished(state: State<V>) | Aborted(error: Fatal, state: State<V>)

  /** Lines 235-326 for data lines numbered from `lineNo`. */
  function IngestFrom<V>(table: map<string, TimeRange>, p: Parsers<V>, lines: seq<string>, lineNo: nat, st: State<V>): Outcome<V>
    decreases |lines|
  {
    if |lines| == 0 then Finished(st)
    else
      match Decode(lines[0], p, lineNo)
      case Failure(e) => Aborted(e, st)
      case Success(rec) => IngestFrom(table, p, lines[1..], lineNo + 1, Step(table, st, rec))
  }

  /** Lines 197-327: skip the header line, then ingest the rest starting from empty destinations. */
  function IngestLines<V>(table: map<string, TimeRange>, p: Parsers<V>, lines: seq<string>): Outcome<V> {
    if |lines| == 0 then Finished(Init(table))
    else IngestFrom(table, p, lines[1..], 2, Init(table))
  }

  /**
   Decoding and routing separate: ingest ends as the decoding of the lines
   ends, and the destinations then hold exactly the routing of the readings
   decoded before the stop, so a fatal line leaves everything written before
   it in place.
   */
  lemma {:induction false} IngestIsDecodeThenRoute<V>(table: map<string, TimeRange>, p: Parsers<V>, lines: seq<string>,
                                                      lineNo: nat, st: State<V>)
    ensures var d := DecodeAll(lines, p, lineNo);
      IngestFrom(table, p, lines, lineNo, st)
        == if d.stop.None? then Finished(RunRecords(table, st, d.records))
           else Aborted(d.stop.value, RunRecords(table, st, d.records))
    decreases |lines|
  {
    if |lines| > 0 {
      match Decode(lines[0], p, lineNo)
      case Failure(e) =>
      case Success(rec) =>
        IngestIsDecodeThenRoute(table, p, lines[1..], lineNo + 1, Step(table, st, rec));
    }
  }

  /**
   A five-minute interval and one reading exactly at its start: the file gets
   one line stamped with the start and the start-edge counter becomes 1.
   */
  lemma ReadingAtStart<V>(id: string, start: int, freq: V, power: V)
    ensures var table := map[id := TimeRange(start, start + 300000)];
      SinkOf(RunRecords(table, Init(table), [Record(start, freq, power)]), id)
        == Sink([Line(StartEdge, start, freq, power)], FCount(1, 0, 0))
  {
  }

  /**
   The same interval and one reading halfway through: one interior line with
   the reading's own time.
   */
  lemma ReadingInside<V>(id: string, start: int, freq: V, power: V)
    ensures var table := map[id := TimeRange(start, start + 300000)];
      SinkOf(RunRecords(table, Init(table), [Record(start + 150000, freq, power)]), id)
        == Sink([Line(Interior, start + 150000, freq, power)], FCount(0, 1, 0))
  {
  }

  /** A reading 100 ms before the start lies in the band yet leaves the interval untouched. */
  lemma ReadingInBandDropped<V>(id: string, start: int, freq: V, power: V)
    ensures var table := map[id := TimeRange(start, start + 300000)];
      SinkOf(RunRecords(table, Init(table), [Record(start - 100, freq, power)]), id) == Empty()
  {
  }
}
