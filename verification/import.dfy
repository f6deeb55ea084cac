/**
 The whole run (import-den.go `main`, lines 91-354, without its I/O): load the
 interval table, sort its ids, ingest the data lines, and report.
 */
module Import {
  import opened Wrappers
  import opened Text
  import opened Sorting
  import opened Intervals
  import opened Records
  import opened Routing
  import opened Sinks
  import opened Ingest
  import opened Summary

  /**
   What a run leaves behind: the sorted ids, how ingest ended with the
   destinations at that point, and the report, which a run stopped by a bad
   data line never prints.
   */
  datatype Report<V> = Report(keys: seq<string>, outcome: Outcome<V>, rows: Option<seq<Row>>)

  /**
   Load, sort, ingest and report. Loading fails exactly on a two-field
   interval line. Otherwise every interval's file holds exactly the writes of
   the readings decoded before ingest ended, and each reported total is that
   file's number of lines.
   */
  method RunImport<V>(intervalLines: seq<string>, parseInterval: string -> Option<int>,
                      dataLines: seq<string>, p: Parsers<V>)
    returns (r: Result<Report<V>, LoadError>)
    ensures r.Failure? <==> Load(intervalLines, parseInterval).Failure?
    ensures r.Failure? <==> !NoMissingEnd(intervalLines, parseInterval)
    ensures r.Failure? ==> r.error == Load(intervalLines, parseInterval).error
    ensures r.Success? ==>
      var table := Load(intervalLines, parseInterval).value;
      var report := r.value;
      var decoded := if |dataLines| == 0 then Decoded([], None) else DecodeAll(dataLines[1..], p, 2);
      && StrictlySorted(report.keys)
      && (forall k :: k in report.keys <==> k in table)
      && report.outcome.Finished? == decoded.stop.None?
      && (report.outcome.Aborted? ==> report.outcome.error == decoded.stop.value)
      && report.outcome.state.Keys == table.Keys
      && (forall k :: k in table ==>
            && SinkOf(report.outcome.state, k).lines == Expected(table[k], decoded.records)
            && SinkOf(report.outcome.state, k).count.a == Hits(table[k], decoded.records, StartEdge)
            && SinkOf(report.outcome.state, k).count.b == Hits(table[k], decoded.records, Interior)
            && SinkOf(report.outcome.state, k).count.c == Hits(table[k], decoded.records, EndEdge))
      && (report.rows.Some? <==> report.outcome.Finished?)
      && (report.rows.Some? ==>
            && |report.rows.value| == |report.keys|
            && forall i :: 0 <= i < |report.keys| ==>
                 && report.rows.value[i].id == report.keys[i]
                 && report.rows.value[i].count == SinkOf(report.outcome.state, report.keys[i]).count
                 && report.rows.value[i].total == |SinkOf(report.outcome.state, report.keys[i]).lines|)
  {
    LoadSpec(intervalLines, parseInterval);
    var loaded := Load(intervalLines, parseInterval);
    if loaded.Failure? {
      return Failure(loaded.error);
    }
    var table := loaded.value;
    var keys := SortedKeys(table);
    var outcome := IngestLines(table, p, dataLines);

    var decoded := if |dataLines| == 0 then Decoded([], None) else DecodeAll(dataLines[1..], p, 2);
    if |dataLines| > 0 {
      IngestIsDecodeThenRoute(table, p, dataLines[1..], 2, Init(table));
    }
    assert outcome.state == RunRecords(table, Init(table), decoded.records);
    RunRecordsKeys(table, Init<V>(table), decoded.records);
    forall k | k in table
      ensures SinkOf(outcome.state, k).lines == Expected(table[k], decoded.records)
      ensures SinkOf(outcome.state, k).count
           == FCount(Hits(table[k], decoded.records, StartEdge), Hits(table[k], decoded.records, Interior),
                     Hits(table[k], decoded.records, EndEdge))
      ensures Consistent(SinkOf(outcome.state, k))
    {
      RoutedFromStart(table, decoded.records, k);
    }

    var rows: Option<seq<Row>> := None;
    if outcome.Finished? {
      SummarizeTotals(keys, outcome.state);
      rows := Some(Summarize(keys, outcome.state));
    }
    r := Success(Report(keys, outcome, rows));
  }
}
