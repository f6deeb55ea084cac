/**
 Data lines: the fixed-width slicing of one input line into timestamp,
 frequency and power texts, and their conversion into a record
 (import-den.go lines 235-267).

 Parsing the timestamp text and the two number texts are parameters of the
 model. Frequency and power are opaque values of type `V` that are carried to
 the output unchanged.
 */
module Records {
  import opened Wrappers

  /** One reading: its time in milliseconds and its two measured values. */
  datatype Record<V> = Record(time: int, freq: V, power: V)

  /** The three fixed-width texts of a data line. */
  datatype Fields = Fields(time: string, freq: string, power: string)

  /**
   The parsers a data line goes through: `time` stands for `time.Parse` with
   the `02/01/2006 15:04:05.00` layout, `number` for
   `strconv.ParseFloat(strings.TrimSpace(·), …)`.
   */
  datatype Parsers<V> = Parsers(time: string -> Option<int>, number: string -> Option<V>)

  /** Why the run stops on data line `lineNo` (1-based; line 1 is the header). */
  datatype Fatal =
    | SliceOutOfRange(lineNo: nat)  // the line is too short for the fixed columns
    | BadTime(lineNo: nat)
    | BadFreq(lineNo: nat)
    | BadPower(lineNo: nat)

  /** Byte offsets of the columns: time is [1,23), frequency [25,34), power [35,end). */
  const TimeFrom: nat := 1
  const TimeTo: nat := 23
  const FreqFrom: nat := 25
  const FreqTo: nat := 34
  const PowerFrom: nat := 35

  /**
   Lines 236-238: the three column texts. Go's slice expressions panic when
   the line is shorter than the last offset used, 35.
   */
  function Slice(line: string): (f: Option<Fields>)
    ensures f.Some? <==> |line| >= PowerFrom
    ensures f.Some? ==>
      && |f.value.time| == TimeTo - TimeFrom
      && |f.value.freq| == FreqTo - FreqFrom
      && line == line[..TimeFrom] + f.value.time + line[TimeTo..FreqFrom] + f.value.freq
                 + line[FreqTo..PowerFrom] + f.value.power
  {
    if |line| < PowerFrom then None
    else
      var f := Fields(line[TimeFrom..TimeTo], line[FreqFrom..FreqTo], line[PowerFrom..]);
      assert line == line[..TimeFrom] + f.time + line[TimeTo..FreqFrom] + f.freq
                     + line[FreqTo..PowerFrom] + f.power;
      Some(f)
  }

  /** A data line laid out in the fixed columns, with `pad` in the unused positions. */
  function Layout(f: Fields, pad: char): string {
    [pad] + f.time + [pad, pad] + f.freq + [pad] + f.power
  }

  /** Slicing a laid-out line gives back the three column texts. */
  lemma SliceLayout(f: Fields, pad: char)
    requires |f.time| == TimeTo - TimeFrom && |f.freq| == FreqTo - FreqFrom
    ensures Slice(Layout(f, pad)) == Some(f)
  {
    var line := Layout(f, pad);
    assert line[TimeFrom..TimeTo] == f.time;
    assert line[FreqFrom..FreqTo] == f.freq;
    assert line[PowerFrom..] == f.power;
  }

  /**
   Lines 236-267: a data line becomes a record, or the run stops with the
   first failure in source order: slicing, then the time, then frequency,
   then power.
   */
  function Decode<V>(line: string, p: Parsers<V>, lineNo: nat): (r: Result<Record<V>, Fatal>)
    ensures r.Success? <==>
      && |line| >= PowerFrom
      && p.time(line[TimeFrom..TimeTo]).Some?
      && p.number(line[FreqFrom..FreqTo]).Some?
      && p.number(line[PowerFrom..]).Some?
    ensures r.Success? ==> r.value == Record(p.time(line[TimeFrom..TimeTo]).value,
                                             p.number(line[FreqFrom..FreqTo]).value,
                                             p.number(line[PowerFrom..]).value)
    ensures r.Failure? ==> r.error.lineNo == lineNo
    ensures r == Failure(SliceOutOfRange(lineNo)) <==> |line| < PowerFrom
    ensures r == Failure(BadTime(lineNo)) <==> |line| >= PowerFrom && p.time(line[TimeFrom..TimeTo]).None?
    ensures r == Failure(BadFreq(lineNo)) <==>
      && |line| >= PowerFrom
      && p.time(line[TimeFrom..TimeTo]).Some?
      && p.number(line[FreqFrom..FreqTo]).None?
  {
    match Slice(line)
    case None => Failure(SliceOutOfRange(lineNo))
    case Some(f) =>
      match p.time(f.time)
      case None => Failure(BadTime(lineNo))
      case Some(t) =>
        match p.number(f.freq)
        case None => Failure(BadFreq(lineNo))
        case Some(freq) =>
          match p.number(f.power)
          case None => Failure(BadPower(lineNo))
          case Some(power) => Success(Record(t, freq, power))
  }

  /** A laid-out line whose three texts parse decodes to their values. */
  lemma DecodeLayout<V>(f: Fields, pad: char, p: Parsers<V>, lineNo: nat, t: int, freq: V, power: V)
    requires |f.time| == TimeTo - TimeFrom && |f.freq| == FreqTo - FreqFrom
    requires p.time(f.time) == Some(t) && p.number(f.freq) == Some(freq) && p.number(f.power) == Some(power)
    ensures Decode(Layout(f, pad), p, lineNo) == Success(Record(t, freq, power))
  {
    SliceLayout(f, pad);
  }
}
