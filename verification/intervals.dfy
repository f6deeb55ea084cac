/**
 The interval table: the lines of the intervals file turned into a map from
 interval id to its time range (import-den.go lines 109-139).

 Times are integer milliseconds on a line whose origin is Go's zero
 `time.Time`. Parsing a timestamp text is a parameter of the model: a partial
 function that yields milliseconds or nothing.
 */
module Intervals {
  import opened Wrappers
  import opened Text

  /** The value `time.Parse` returns alongside an error: Go's zero time. */
  const ZeroTime: int := 0

  /** A named interval's bounds. Nothing forces `start < end`. */
  datatype TimeRange = TimeRange(start: int, end: int)

  /** What one line of the intervals file contributes to the table. */
  datatype LineKind =
    | Skipped                              // comment, or a line without a comma
    | MissingEnd                           // exactly two fields: `fields[2]` is out of range
    | Entry(id: string, range: TimeRange)  // three or more fields

  /** The run stops while loading: a two-field line on line `lineNo` (1-based). */
  datatype LoadError = IndexOutOfRange(lineNo: nat)

  /** The time a parse stores: its result, or the zero time after an error. */
  function TimeOrZero(parse: string -> Option<int>, txt: string): int {
    match parse(txt)
    case Some(t) => t
    case None => ZeroTime
  }

  /**
   One intervals-file line: lines starting with `#` and lines with a single
   comma-separated field are skipped; otherwise the fields are id, start and
   end. A timestamp that does not parse is reported and stored as the zero
   time: the entry is kept either way.
   */
  function ClassifyLine(line: string, parse: string -> Option<int>): (k: LineKind)
    ensures k.Skipped? <==> HasPrefix(line, "#") || ',' !in line
    ensures k.MissingEnd? <==> !HasPrefix(line, "#") && Occurrences(line, ',') == 1
    ensures k.Entry? <==> !HasPrefix(line, "#") && Occurrences(line, ',') >= 2
    ensures k.Entry? ==> ',' !in k.id && HasPrefix(line, k.id + ",")
    ensures k.Entry? ==>
      var fields := Split(line, ',');
      && (parse(fields[1]).Some? ==> k.range.start == parse(fields[1]).value)
      && (parse(fields[1]).None? ==> k.range.start == ZeroTime)
      && (parse(fields[2]).Some? ==> k.range.end == parse(fields[2]).value)
      && (parse(fields[2]).None? ==> k.range.end == ZeroTime)
  {
    OccurrencesZero(line, ',');
    if HasPrefix(line, "#") then Skipped
    else
      var fields := Split(line, ',');
      if |fields| == 1 then Skipped
      else if |fields| == 2 then MissingEnd
      else
        assert HasPrefix(line, fields[0] + ",") by {
          JoinSplit(line, ',');
          assert line == fields[0] + [','] + Join(fields[1..], ',');
        }
        Entry(fields[0], TimeRange(TimeOrZero(parse, fields[1]), TimeOrZero(parse, fields[2])))
  }

  /** Fold the lines, numbered from `lineNo`, into `table`. */
  function LoadFrom(table: map<string, TimeRange>, lines: seq<string>, parse: string -> Option<int>, lineNo: nat)
    : Result<map<string, TimeRange>, LoadError>
    decreases |lines|
  {
    if |lines| == 0 then Success(table)
    else
      match ClassifyLine(lines[0], parse)
      case Skipped => LoadFrom(table, lines[1..], parse, lineNo + 1)
      case MissingEnd => Failure(IndexOutOfRange(lineNo))
      case Entry(id, range) => LoadFrom(table[id := range], lines[1..], parse, lineNo + 1)
  }

  /** Lines 109-139: the interval table built from the whole file. */
  function Load(lines: seq<string>, parse: string -> Option<int>): Result<map<string, TimeRange>, LoadError> {
    LoadFrom(map[], lines, parse, 1)
  }

  /**
   Reference reading of "last write wins": scanning the file backwards, the
   range of the first entry line found for `id`.
   */
  function LastEntry(lines: seq<string>, parse: string -> Option<int>, id: string): Option<TimeRange>
    decreases |lines|
  {
    if |lines| == 0 then None
    else
      match ClassifyLine(lines[|lines| - 1], parse)
      case Entry(id', range) =>
        if id' == id then Some(range) else LastEntry(lines[..|lines| - 1], parse, id)
      case _ => LastEntry(lines[..|lines| - 1], parse, id)
  }

  lemma {:induction false} LastEntryFront(lines: seq<string>, parse: string -> Option<int>, id: string)
    requires |lines| > 0
    ensures LastEntry(lines, parse, id) ==
      if LastEntry(lines[1..], parse, id).Some? then LastEntry(lines[1..], parse, id)
      else match ClassifyLine(lines[0], parse)
        case Entry(id', range) => if id' == id then Some(range) else None
        case _ => None
    decreases |lines|
  {
    var n := |lines|;
    if n > 1 {
      var init := lines[..n - 1];
      assert lines[1..][..n - 2] == init[1..];
      assert lines[1..][n - 2] == lines[n - 1];
      assert init[0] == lines[0];
      LastEntryFront(init, parse, id);
    }
  }

  ghost predicate NoMissingEnd(lines: seq<string>, parse: string -> Option<int>) {
    forall i :: 0 <= i < |lines| ==> !ClassifyLine(lines[i], parse).MissingEnd?
  }

  /**
   The fold fails exactly when some line has two fields, and then it reports
   the first such line.
   */
  lemma {:induction false} LoadFromFailure(table: map<string, TimeRange>, lines: seq<string>,
                                           parse: string -> Option<int>, lineNo: nat)
    ensures LoadFrom(table, lines, parse, lineNo).Success? <==> NoMissingEnd(lines, parse)
    ensures LoadFrom(table, lines, parse, lineNo).Failure? ==>
      var i := LoadFrom(table, lines, parse, lineNo).error.lineNo - lineNo;
      && 0 <= i < |lines|
      && ClassifyLine(lines[i], parse).MissingEnd?
      && NoMissingEnd(lines[..i], parse)
    decreases |lines|
  {
    if |lines| > 0 {
      var next := match ClassifyLine(lines[0], parse)
        case Entry(id, range) => table[id := range]
        case _ => table;
      LoadFromFailure(next, lines[1..], parse, lineNo + 1);
      if ClassifyLine(lines[0], parse).MissingEnd? {
        assert lines[..0] == [];
      } else {
        assert NoMissingEnd(lines, parse) <==> NoMissingEnd(lines[1..], parse) by {
          if NoMissingEnd(lines[1..], parse) {
            forall i | 0 < i < |lines| ensures !ClassifyLine(lines[i], parse).MissingEnd? {
              assert lines[i] == lines[1..][i - 1];
            }
          }
        }
        if LoadFrom(table, lines, parse, lineNo).Failure? {
          var i := LoadFrom(table, lines, parse, lineNo).error.lineNo - lineNo;
          assert lines[1..][..i - 1] == lines[1..i];
          forall j | 0 <= j < i ensures !ClassifyLine(lines[j], parse).MissingEnd? {
            if j > 0 {
              assert lines[j] == lines[1..][..i - 1][j - 1];
            }
          }
        }
      }
    }
  }

  /**
   A successful fold maps every id with an entry line to the range of its
   last entry line; keys of `table` without an entry line survive untouched,
   and no other key appears.
   */
  lemma {:induction false} LoadFromTable(table: map<string, TimeRange>, lines: seq<string>,
                                         parse: string -> Option<int>, lineNo: nat)
    requires LoadFrom(table, lines, parse, lineNo).Success?
    ensures var result := LoadFrom(table, lines, parse, lineNo).value;
      forall id ::
        && (id in result <==> id in table || LastEntry(lines, parse, id).Some?)
        && (LastEntry(lines, parse, id).Some? ==> id in result && result[id] == LastEntry(lines, parse, id).value)
        && (LastEntry(lines, parse, id).None? && id in table ==> id in result && result[id] == table[id])
    decreases |lines|
  {
    if |lines| > 0 {
      var next := match ClassifyLine(lines[0], parse)
        case Entry(id, range) => table[id := range]
        case _ => table;
      LoadFromTable(next, lines[1..], parse, lineNo + 1);
      forall id {
        LastEntryFront(lines, parse, id);
      }
    }
  }

  /**
   The loaded table: skipped lines contribute nothing, an id maps to the
   range of its last entry line, and ids with no entry line are absent.
   */
  lemma LoadSpec(lines: seq<string>, parse: string -> Option<int>)
    ensures Load(lines, parse).Success? <==> NoMissingEnd(lines, parse)
    ensures Load(lines, parse).Success? ==>
      forall id ::
        && (id in Load(lines, parse).value <==> LastEntry(lines, parse, id).Some?)
        && (id in Load(lines, parse).value ==> Load(lines, parse).value[id] == LastEntry(lines, parse, id).value)
  {
    LoadFromFailure(map[], lines, parse, 1);
    if Load(lines, parse).Success? {
      LoadFromTable(map[], lines, parse, 1);
    }
  }

  /**
   An entry line whose start does not parse still enters the table, with the
   zero time as its start.
   */
  lemma {:induction false} UnparsableStartKept(id: string, startText: string, endText: string,
                                               parse: string -> Option<int>)
    requires ',' !in id && ',' !in startText && ',' !in endText
    requires !HasPrefix(id, "#")
    requires parse(startText).None?
    ensures Load([id + "," + startText + "," + endText], parse)
         == Success(map[id := TimeRange(ZeroTime, TimeOrZero(parse, endText))])
  {
    var line := id + "," + startText + "," + endText;
    var parts := [id, startText, endText];
    assert Join(parts, ',') == line by {
      assert Join(parts[2..], ',') == endText;
      assert Join(parts[1..], ',') == startText + [','] + endText;
    }
    SplitJoin(parts, ',');
    assert !HasPrefix(line, "#") by {
      if |id| > 0 {
        assert line[..1] == id[..1];
      } else {
        assert line[0] == ',';
      }
    }
    assert TimeOrZero(parse, startText) == ZeroTime;
    assert ClassifyLine(line, parse) == Entry(id, TimeRange(ZeroTime, TimeOrZero(parse, endText)));
    var lines: seq<string> := [line];
    assert lines[1..] == [];
    var r := TimeRange(ZeroTime, TimeOrZero(parse, endText));
    assert LoadFrom(map[], lines, parse, 1) == LoadFrom(map[id := r], lines[1..], parse, 2);
  }
}
