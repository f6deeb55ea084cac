/** The end-of-run report: per interval, in sorted id order, its counters and their total (import-den.go lines 335-338). */
module Summary {
  import opened Sinks
  import opened Ingest

  /** One report line: the interval id, its counters `a`, `b`, `c`, and their total. */
  datatype Row = Row(id: string, count: FCount, total: nat)

  /** Line 336-337 for one id: its counters and their total. */
  function RowOf<V>(k: string, st: State<V>): Row {
    var count := SinkOf(st, k).count;
    Row(k, count, count.Total())
  }

  /** Lines 335-338: one row per id of `keys`, in that order. */
  function Summarize<V>(keys: seq<string>, st: State<V>): (rows: seq<Row>)
    ensures |rows| == |keys|
    ensures forall i :: 0 <= i < |keys| ==> rows[i].id == keys[i] && rows[i].count == SinkOf(st, keys[i]).count
    ensures forall i :: 0 <= i < |keys| ==> rows[i].total == rows[i].count.a + rows[i].count.b + rows[i].count.c
  {
    seq(|keys|, i requires 0 <= i < |keys| => RowOf(keys[i], st))
  }

  /**
   When the counters agree with the files, each reported total is the number
   of lines written to that interval's file.
   */
  lemma SummarizeTotals<V>(keys: seq<string>, st: State<V>)
    requires forall k :: k in keys ==> Consistent(SinkOf(st, k))
    ensures forall i :: 0 <= i < |keys| ==> Summarize(keys, st)[i].total == |SinkOf(st, keys[i]).lines|
  {
    forall i | 0 <= i < |keys|
      ensures Summarize(keys, st)[i].total == |SinkOf(st, keys[i]).lines|
    {
      ConsistentTotal(SinkOf(st, keys[i]));
    }
  }
}
