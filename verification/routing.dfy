/**
 The routing step for one reading against one interval (import-den.go lines
 291-313): a "near" guard of 150 ms on either side, then three independent
 checks choosing the start-edge, interior and end-edge buckets.
 */
module Routing {
  import opened Intervals

  /** The tolerance, 150 ms, applied before the start and after the end. */
  const Tolerance: int := 150

  /** Which counter a write goes to: `a`, `b` or `c`. */
  datatype Bucket = StartEdge | Interior | EndEdge

  /** One write to an interval's output: its bucket and the timestamp printed. */
  datatype Emit = Emit(bucket: Bucket, stamp: int)

  /** Line 291: strictly after start - 150 ms and strictly before end + 150 ms. */
  predicate Near(r: TimeRange, t: int) {
    r.start - Tolerance < t && t < r.end + Tolerance
  }

  /**
   When each bucket fires, with the near guard folded in: the edges fire only
   on exact equality with the interval's start or end, and the interior only
   strictly inside it.
   */
  predicate Fires(r: TimeRange, t: int, b: Bucket) {
    match b
    case StartEdge => t == r.start && t < r.end + Tolerance
    case Interior => r.start < t < r.end
    case EndEdge => t == r.end && r.start - Tolerance < t
  }

  /** The timestamp written for a bucket: the interval's start, the reading's own time, or the end. */
  function Stamp(r: TimeRange, t: int, b: Bucket): int {
    match b
    case StartEdge => r.start
    case Interior => t
    case EndEdge => r.end
  }

  /** The writes a bucket contributes when it fires. */
  function EmitIf(r: TimeRange, t: int, b: Bucket): seq<Emit> {
    if Fires(r, t, b) then [Emit(b, Stamp(r, t, b))] else []
  }

  /**
   Lines 291-313, as written: under the near guard, the start-edge check
   `t < start - 150 ms || t == start`, the interior check `start < t < end`
   and the end-edge check `t > end + 150 ms || t == end`, in that order.
   The outer disjuncts of the edge checks cannot hold under the guard, so the
   writes are exactly those of the buckets that `Fires`, in bucket order.
   */
  function Classify(r: TimeRange, t: int): (emits: seq<Emit>)
    ensures emits == EmitIf(r, t, StartEdge) + EmitIf(r, t, Interior) + EmitIf(r, t, EndEdge)
  {
    if Near(r, t) then
      (if t < r.start - Tolerance || t == r.start then [Emit(StartEdge, r.start)] else [])
      + (if r.start < t && t < r.end then [Emit(Interior, t)] else [])
      + (if t > r.end + Tolerance || t == r.end then [Emit(EndEdge, r.end)] else [])
    else []
  }

  /** A write for bucket `b` with stamp `s` happens exactly when `b` fires, and `s` is its stamp. */
  lemma ClassifyMembers(r: TimeRange, t: int, b: Bucket, s: int)
    ensures Emit(b, s) in Classify(r, t) <==> Fires(r, t, b) && s == Stamp(r, t, b)
  {
  }

  /** Outside the open band (start - 150 ms, end + 150 ms) nothing is written. */
  lemma OutsideBandNothing(r: TimeRange, t: int)
    requires !Near(r, t)
    ensures Classify(r, t) == []
  {
  }

  /**
   When start <= end, inside the band but outside [start, end] nothing is
   written either, so a reading 100 ms before the start or after the end is
   dropped.
   */
  lemma BandOutsideIntervalNothing(r: TimeRange, t: int)
    requires r.start <= r.end
    requires Near(r, t)
    requires t < r.start || r.end < t
    ensures Classify(r, t) == []
  {
  }

  /**
   Nothing checks start <= end. For an inverted interval whose start lies less
   than 150 ms after its end, a reading at the start is in the band and outside
   the empty [start, end], yet it still takes the start-edge write.
   */
  lemma InvertedIntervalStartWrite(r: TimeRange, t: int)
    requires r.end < r.start < r.end + Tolerance
    requires t == r.start
    ensures Near(r, t) && r.end < t
    ensures Classify(r, t) == [Emit(StartEdge, r.start)]
  {
  }

  /** With start < end a reading produces at most one write per interval. */
  lemma AtMostOneWrite(r: TimeRange, t: int)
    requires r.start < r.end
    ensures |Classify(r, t)| <= 1
  {
  }

  /** With start == end a reading at that time is written twice: once per edge. */
  lemma DegenerateIntervalWritesTwice(r: TimeRange)
    requires r.start == r.end
    ensures Classify(r, r.start) == [Emit(StartEdge, r.start), Emit(EndEdge, r.end)]
  {
  }

  /** Within the interval the three buckets cover [start, end] exactly once each point. */
  lemma InsideIntervalExactlyOne(r: TimeRange, t: int)
    requires r.start < r.end
    requires r.start <= t <= r.end
    ensures |Classify(r, t)| == 1
    ensures t == r.start ==> Classify(r, t) == [Emit(StartEdge, r.start)]
    ensures r.start < t < r.end ==> Classify(r, t) == [Emit(Interior, t)]
    ensures t == r.end ==> Classify(r, t) == [Emit(EndEdge, r.end)]
  {
  }
}
