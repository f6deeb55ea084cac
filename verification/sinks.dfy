/**
 One interval's destination: the lines written to its output file and its
 three counters `a`, `b` and `c` (import-den.go lines 50-52 and 292-313).
 */
module Sinks {
  import opened Intervals
  import opened Records
  import opened Routing

  /**
   One output line: the stamp and the two values, tagged with the bucket that
   wrote it (the tag is not printed; it lets the counters be read off the
   file).
   */
  datatype Line<V> = Line(bucket: Bucket, stamp: int, freq: V, power: V)

  /** The counters of lines 50-52: start-edge, interior and end-edge writes. */
  datatype FCount = FCount(a: nat, b: nat, c: nat) {
    /** Line 336: the total reported for an interval. */
    function Total(): nat { a + b + c }
  }

  /** An interval's output file contents and counters. */
  datatype Sink<V> = Sink(lines: seq<Line<V>>, count: FCount)

  /** Line 156: no lines yet, counters at zero (also Go's zero value for a missing key). */
  function Empty<V>(): Sink<V> {
    Sink([], FCount(0, 0, 0))
  }

  /** Increment the counter of one bucket. */
  function Bump(c: FCount, b: Bucket): FCount {
    match b
    case StartEdge => c.(a := c.a + 1)
    case Interior => c.(b := c.b + 1)
    case EndEdge => c.(c := c.c + 1)
  }

  /** How many lines of `lines` belong to bucket `b`. */
  function CountBucket<V>(lines: seq<Line<V>>, b: Bucket): nat
    decreases |lines|
  {
    if |lines| == 0 then 0
    else (if lines[0].bucket == b then 1 else 0) + CountBucket(lines[1..], b)
  }

  lemma {:induction false} CountBucketAppend<V>(xs: seq<Line<V>>, ys: seq<Line<V>>, b: Bucket)
    ensures CountBucket(xs + ys, b) == CountBucket(xs, b) + CountBucket(ys, b)
    decreases |xs|
  {
    if |xs| > 0 {
      assert (xs + ys)[1..] == xs[1..] + ys;
      CountBucketAppend(xs[1..], ys, b);
    } else {
      assert xs + ys == ys;
    }
  }

  /** Every counter equals the number of lines its bucket has written. */
  ghost predicate Consistent<V>(s: Sink<V>) {
    && s.count.a == CountBucket(s.lines, StartEdge)
    && s.count.b == CountBucket(s.lines, Interior)
    && s.count.c == CountBucket(s.lines, EndEdge)
  }

  /** When the counters agree with the file, their total is its number of lines. */
  lemma {:induction false} ConsistentTotal<V>(s: Sink<V>)
    requires Consistent(s)
    ensures s.count.Total() == |s.lines|
  {
    BucketsPartition(s.lines);
  }

  lemma {:induction false} BucketsPartition<V>(lines: seq<Line<V>>)
    ensures CountBucket(lines, StartEdge) + CountBucket(lines, Interior) + CountBucket(lines, EndEdge) == |lines|
    decreases |lines|
  {
    if |lines| > 0 {
      BucketsPartition(lines[1..]);
    }
  }

  /** The line a bucket writes for a reading, if it fires. */
  function LineIf<V>(r: TimeRange, rec: Record<V>, b: Bucket): seq<Line<V>> {
    if Fires(r, rec.time, b) then [Line(b, Stamp(r, rec.time, b), rec.freq, rec.power)] else []
  }

  /** Everything one reading writes to one interval, in bucket order. */
  function Written<V>(r: TimeRange, rec: Record<V>): seq<Line<V>> {
    LineIf(r, rec, StartEdge) + LineIf(r, rec, Interior) + LineIf(r, rec, EndEdge)
  }

  /** 1 if bucket `b` fires for the reading, else 0. */
  function Hit<V>(r: TimeRange, rec: Record<V>, b: Bucket): nat {
    if Fires(r, rec.time, b) then 1 else 0
  }

  /** One write: append the line and bump its bucket's counter. */
  function Write<V>(s: Sink<V>, e: Emit, rec: Record<V>): Sink<V> {
    Sink(s.lines + [Line(e.bucket, e.stamp, rec.freq, rec.power)], Bump(s.count, e.bucket))
  }

  /** The lines a list of writes produces for a reading. */
  function LinesOf<V>(emits: seq<Emit>, rec: Record<V>): seq<Line<V>>
    decreases |emits|
  {
    if |emits| == 0 then []
    else [Line(emits[0].bucket, emits[0].stamp, rec.freq, rec.power)] + LinesOf(emits[1..], rec)
  }

  /** How many of the writes belong to bucket `b`. */
  function CountEmits(emits: seq<Emit>, b: Bucket): nat
    decreases |emits|
  {
    if |emits| == 0 then 0
    else (if emits[0].bucket == b then 1 else 0) + CountEmits(emits[1..], b)
  }

  /** Perform the writes in order: their lines are appended and each counter grows by its share. */
  function WriteAll<V>(s: Sink<V>, emits: seq<Emit>, rec: Record<V>): (s': Sink<V>)
    ensures s'.lines == s.lines + LinesOf(emits, rec)
    ensures s'.count == FCount(s.count.a + CountEmits(emits, StartEdge),
                               s.count.b + CountEmits(emits, Interior),
                               s.count.c + CountEmits(emits, EndEdge))
    decreases |emits|
  {
    if |emits| == 0 then s
    else
      var s' := WriteAll(Write(s, emits[0], rec), emits[1..], rec);
      assert s.lines + [Line(emits[0].bucket, emits[0].stamp, rec.freq, rec.power)] + LinesOf(emits[1..], rec)
          == s.lines + LinesOf(emits, rec);
      s'
  }

  /**
   Lines 291-313 for one interval: the reading's writes are appended to the
   file, each bucket's counter grows by one exactly when it fires, and
   nothing else changes.
   */
  function Deliver<V>(s: Sink<V>, r: TimeRange, rec: Record<V>): (s': Sink<V>)
    ensures s'.lines == s.lines + Written(r, rec)
    ensures s'.count == FCount(s.count.a + Hit(r, rec, StartEdge),
                               s.count.b + Hit(r, rec, Interior),
                               s.count.c + Hit(r, rec, EndEdge))
  {
    var emits := Classify(r, rec.time);
    var s' := WriteAll(s, emits, rec);
    assert LinesOf(emits, rec) == Written(r, rec) by {
      LinesOfAppend(EmitIf(r, rec.time, StartEdge) + EmitIf(r, rec.time, Interior), EmitIf(r, rec.time, EndEdge), rec);
      LinesOfAppend(EmitIf(r, rec.time, StartEdge), EmitIf(r, rec.time, Interior), rec);
    }
    assert forall b :: CountEmits(emits, b) == Hit(r, rec, b) by {
      forall b ensures CountEmits(emits, b) == Hit(r, rec, b) {
        CountEmitsAppend(EmitIf(r, rec.time, StartEdge) + EmitIf(r, rec.time, Interior), EmitIf(r, rec.time, EndEdge), b);
        CountEmitsAppend(EmitIf(r, rec.time, StartEdge), EmitIf(r, rec.time, Interior), b);
        assert !(Fires(r, rec.time, StartEdge) && Fires(r, rec.time, Interior));
        assert !(Fires(r, rec.time, Interior) && Fires(r, rec.time, EndEdge));
      }
    }
    s'
  }

  lemma {:induction false} LinesOfAppend<V>(xs: seq<Emit>, ys: seq<Emit>, rec: Record<V>)
    ensures LinesOf(xs + ys, rec) == LinesOf(xs, rec) + LinesOf(ys, rec)
    decreases |xs|
  {
    if |xs| > 0 {
      assert (xs + ys)[1..] == xs[1..] + ys;
      LinesOfAppend(xs[1..], ys, rec);
    } else {
      assert xs + ys == ys;
    }
  }

  lemma {:induction false} CountEmitsAppend(xs: seq<Emit>, ys: seq<Emit>, b: Bucket)
    ensures CountEmits(xs + ys, b) == CountEmits(xs, b) + CountEmits(ys, b)
    decreases |xs|
  {
    if |xs| > 0 {
      assert (xs + ys)[1..] == xs[1..] + ys;
      CountEmitsAppend(xs[1..], ys, b);
    } else {
      assert xs + ys == ys;
    }
  }

  /** Delivering a reading keeps every counter equal to its bucket's line count. */
  lemma DeliverConsistent<V>(s: Sink<V>, r: TimeRange, rec: Record<V>)
    requires Consistent(s)
    ensures Consistent(Deliver(s, r, rec))
  {
    var w := Written(r, rec);
    forall b ensures CountBucket(w, b) == Hit(r, rec, b) {
      CountBucketAppend(LineIf(r, rec, StartEdge) + LineIf(r, rec, Interior), LineIf(r, rec, EndEdge), b);
      CountBucketAppend(LineIf(r, rec, StartEdge), LineIf(r, rec, Interior), b);
    }
    forall b ensures CountBucket(s.lines + w, b) == CountBucket(s.lines, b) + Hit(r, rec, b) {
      CountBucketAppend(s.lines, w, b);
    }
  }
}
