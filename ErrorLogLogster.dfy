/**
 * ErrorLogLogster: counts the lines of an Apache error_log by their level
 * (`[stamp] [level] message`) and reports the counts as rates per window.
 *
 * parse_line classifies one line and increments one counter; get_state turns
 * the counters into metrics without resetting them, so the counts, and the
 * rates computed from them, are cumulative since construction.
 */
module ErrorLogLogster {
  import opened Wrappers
  import opened Text
  import opened ErrorLogPattern
  import opened Counters
  import opened Reporting

  /** The levels counted individually when none are given. */
  const DefaultLevels: set<string> := {"notice", "warn", "error", "crit"}

  /** Why parse_line raised LogsterParsingException (the message text is not modelled). */
  datatype Cause =
    | NoMatch          // the pattern did not match the line
    | NoLoglevelGroup  // the pattern has no group named loglevel: KeyError
    | LoglevelUnset    // the group took no part in the match: None has no lower()

  /** How parse_line ends: normally, or by raising LogsterParsingException. */
  datatype Outcome = Pass | LogsterParsingException(cause: Cause)

  /**
   * The counter a line is charged to: its lowercased level when that is a
   * recognised level, the catch-all otherwise; or the reason the line raises.
   * `groups` is what the compiled pattern gives for the line.
   */
  function Classify(groups: Option<Groups>, levels: set<string>): (r: Result<string, Cause>)
    ensures r.Success? <==> groups.Some? && Loglevel in groups.value && groups.value[Loglevel].Some?
    ensures r.Success? ==> r.value in levels || r.value == Other
    ensures r.Success? ==> !HasUpper(r.value)
    ensures groups.None? ==> r == Failure(NoMatch)
  {
    match groups
    case None => Failure(NoMatch)
    case Some(linebits) =>
      if Loglevel !in linebits then Failure(NoLoglevelGroup)
      else match linebits[Loglevel]
        case None => Failure(LoglevelUnset)
        case Some(captured) =>
          var level := Lower(captured);
          LowerIsCanonical(captured);
          Success(if level in levels then level else Other)
  }

  /** What parse_line does to the counters: the new counters, or the reason it raises. */
  function Step(reg: string -> Option<Groups>, levels: set<string>, counters: Counts, line: string)
    : (r: Result<Counts, Cause>)
    ensures reg(line).None? ==> r == Failure(NoMatch)
    ensures r.Success? ==> exists key :: (key in levels || key == Other) && r.value == Increment(counters, key)
    ensures r.Success? ==> forall k :: Count(counters, k) <= Count(r.value, k)
  {
    match Classify(reg(line), levels)
    case Success(key) => Success(Increment(counters, key))
    case Failure(cause) => Failure(cause)
  }

  /** A matched line whose lowercased level is recognised adds one to that level's counter and to no other. */
  lemma RecognizedLevelCounted(reg: string -> Option<Groups>, levels: set<string>, counters: Counts,
                               line: string, linebits: Groups, captured: string)
    requires reg(line) == Some(linebits) && Loglevel in linebits && linebits[Loglevel] == Some(captured)
    requires Lower(captured) in levels
    ensures Step(reg, levels, counters, line).Success?
    ensures var after := Step(reg, levels, counters, line).value;
      && Count(after, Lower(captured)) == Count(counters, Lower(captured)) + 1
      && forall k :: k != Lower(captured) ==> Count(after, k) == Count(counters, k)
  {
  }

  /** A matched line whose lowercased level is not recognised adds one to the catch-all and to no other. */
  lemma UnrecognizedLevelCounted(reg: string -> Option<Groups>, levels: set<string>, counters: Counts,
                                 line: string, linebits: Groups, captured: string)
    requires reg(line) == Some(linebits) && Loglevel in linebits && linebits[Loglevel] == Some(captured)
    requires Lower(captured) !in levels
    ensures Step(reg, levels, counters, line).Success?
    ensures var after := Step(reg, levels, counters, line).value;
      && Count(after, Other) == Count(counters, Other) + 1
      && forall k :: k != Other ==> Count(after, k) == Count(counters, k)
  {
  }

  /** A line the pattern does not match raises, and the counters stay as they were. */
  lemma UnmatchedLineRaises(reg: string -> Option<Groups>, levels: set<string>, counters: Counts, line: string)
    requires reg(line).None?
    ensures Step(reg, levels, counters, line) == Failure(NoMatch)
  {
  }

  /** With the default pattern, `[stamp] [level] rest` lines are counted under their lowercased level or the catch-all. */
  lemma DefaultLineCounted(levels: set<string>, counters: Counts, stamp: string, level: string, rest: string)
    requires WellFormedParts(stamp, level)
    ensures Step(DefaultMatcher, levels, counters, Layout(stamp, level, rest))
         == Success(Increment(counters, if Lower(level) in levels then Lower(level) else Other))
  {
    MatchComplete(stamp, level, rest);
  }

  /** With the default pattern, every other line raises and changes nothing. */
  lemma DefaultOtherLinesRaise(levels: set<string>, counters: Counts, line: string)
    requires forall stamp, level, rest :: line == Layout(stamp, level, rest) ==> !WellFormedParts(stamp, level)
    ensures Step(DefaultMatcher, levels, counters, line) == Failure(NoMatch)
  {
    if MatchDefault(line).Some? {
      MatchSound(line);
    }
  }

  /** The level is compared after lowercasing: `[x] [WARN] m` and `[x] [warn] m` hit the same counter. */
  lemma LevelCaseIgnored(levels: set<string>, counters: Counts, stamp: string, a: string, b: string, rest: string)
    requires WellFormedParts(stamp, a) && WellFormedParts(stamp, b) && Lower(a) == Lower(b)
    ensures Step(DefaultMatcher, levels, counters, Layout(stamp, a, rest))
         == Step(DefaultMatcher, levels, counters, Layout(stamp, b, rest))
  {
    DefaultLineCounted(levels, counters, stamp, a, rest);
    DefaultLineCounted(levels, counters, stamp, b, rest);
  }

  /** `levels` is not lowercased: an entry holding a capital letter is never incremented, whatever the pattern. */
  lemma UppercaseLevelNeverCounted(reg: string -> Option<Groups>, levels: set<string>, counters: Counts,
                                   line: string, level: string)
    requires HasUpper(level)
    ensures Step(reg, levels, counters, line).Success? ==>
      Count(Step(reg, levels, counters, line).value, level) == Count(counters, level)
  {
  }

  /** A successful step keeps the counters well formed and adds exactly one to their sum. */
  lemma StepKeepsInvariant(reg: string -> Option<Groups>, levels: set<string>, counters: Counts, line: string)
    requires WellFormed(counters, levels)
    requires Step(reg, levels, counters, line).Success?
    ensures WellFormed(Step(reg, levels, counters, line).value, levels)
    ensures Total(Step(reg, levels, counters, line).value) == Total(counters) + 1
  {
    var key := Classify(reg(line), levels).value;
    IncrementKeepsWellFormed(counters, levels, key);
    TotalIncrement(counters, key);
  }

  class ErrorLogLogster {
    /** Count of lines per level; only parse_line changes it. */
    var counters: Counts
    const levels: set<string>
    const prefix: string
    const numSeconds: int
    const units: string
    /** The compiled pattern: a line's groupdict, or None when `match` fails. */
    const reg: string -> Option<Groups>
    /** The number of parse_line calls that did not raise. */
    ghost var parsedLines: nat

    ghost predicate Valid()
      reads this
    {
      && WellFormed(counters, levels)
      && Total(counters) == parsedLines
      && units == UnitsFor(numSeconds)
    }

    constructor (reg: string -> Option<Groups> := DefaultMatcher, levels: set<string> := DefaultLevels,
                 prefix: string := "", numSeconds: int := 10)
      ensures Valid()
      ensures counters == map[] && parsedLines == 0
      ensures this.reg == reg && this.levels == levels && this.prefix == prefix && this.numSeconds == numSeconds
    {
      counters := map[];
      this.levels := levels;
      this.prefix := prefix;
      this.numSeconds := numSeconds;
      units := UnitsFor(numSeconds);
      this.reg := reg;
      parsedLines := 0;
    }

    /** parse_line: classify one line and increment its counter, or raise and change nothing. */
    method ParseLine(line: string) returns (outcome: Outcome)
      requires Valid()
      modifies this
      ensures Valid()
      ensures match Step(reg, levels, old(counters), line)
        case Success(after) =>
          outcome == Pass && counters == after && parsedLines == old(parsedLines) + 1
        case Failure(cause) =>
          outcome == LogsterParsingException(cause) && counters == old(counters) && parsedLines == old(parsedLines)
      ensures forall k :: Count(old(counters), k) <= Count(counters, k)
    {
      var regMatch := reg(line);
      if regMatch.None? {
        return LogsterParsingException(NoMatch);
      }
      var linebits := regMatch.value;
      if Loglevel !in linebits {
        return LogsterParsingException(NoLoglevelGroup);
      }
      if linebits[Loglevel].None? {
        return LogsterParsingException(LoglevelUnset);
      }
      var level := Lower(linebits[Loglevel].value);
      StepKeepsInvariant(reg, levels, counters, line);
      if level in levels {
        counters := Increment(counters, level);
      } else {
        counters := Increment(counters, Other);
      }
      parsedLines := parsedLines + 1;
      outcome := Pass;
    }

    /**
     * get_state: the metrics for the counters so far. Nothing when the duration
     * is not positive; otherwise one metric per counter, named prefix + key,
     * with value count * num_seconds / duration and the parser's unit. The
     * counters are only read.
     */
    function GetState(duration: real): (r: Result<set<Metric>, ReportError>)
      reads this
      ensures duration <= 0.0 ==> r == Success({})
      ensures counters == map[] ==> r == Success({})
      ensures r.Failure? <==> duration > 0.0 && numSeconds == 0 && counters != map[]
      ensures duration > 0.0 && numSeconds != 0 ==>
        && r.Success? && |r.value| == |counters|
        && forall k :: k in counters ==> Metric(prefix + k, Rate(counters[k], duration, numSeconds), units) in r.value
    {
      if duration > 0.0 && numSeconds != 0 then
        ReportOnePerKey(counters, duration, prefix, numSeconds, units);
        Report(counters, duration, prefix, numSeconds, units)
      else
        Report(counters, duration, prefix, numSeconds, units)
    }
  }

  /** Feeds the line `[stamp] [level] rest` to a parser using the default pattern. */
  method FeedLayout(p: ErrorLogLogster, stamp: string, level: string, rest: string)
    requires p.Valid() && p.reg == DefaultMatcher && WellFormedParts(stamp, level)
    modifies p
    ensures p.Valid()
    ensures p.counters == Increment(old(p.counters), if Lower(level) in p.levels then Lower(level) else Other)
    ensures p.parsedLines == old(p.parsedLines) + 1
  {
    DefaultLineCounted(p.levels, p.counters, stamp, level, rest);
    var o := p.ParseLine(Layout(stamp, level, rest));
  }

  /**
   * A driver over any time stamp: levels warn and error, prefix `errorlog.`,
   * the default pattern and window. Lines `[stamp] [warn] disk full`,
   * `[stamp] [WARN] disk full` and `[stamp] [notice] ok` are counted, and
   * `[stamp][warn] disk full` raises.
   */
  method CountExampleLines(stamp: string) returns (p: ErrorLogLogster)
    requires |stamp| >= 1 && NoClose(stamp)
    ensures fresh(p) && p.Valid()
    ensures p.reg == DefaultMatcher && p.levels == {"warn", "error"}
    ensures p.prefix == "errorlog." && p.numSeconds == 10
    ensures p.counters == map["warn" := 2, "other" := 1] && p.parsedLines == 3
  {
    p := new ErrorLogLogster(levels := {"warn", "error"}, prefix := "errorlog.");
    assert p.GetState(20.0) == Success({});
    ExampleLevels();
    FeedLayout(p, stamp, "warn", "disk full");
    assert p.counters == Increment(map[], "warn") == map["warn" := 1];
    FeedLayout(p, stamp, "WARN", "disk full");
    assert p.counters == Increment(map["warn" := 1], "warn") == map["warn" := 2];
    FeedLayout(p, stamp, "notice", "ok");
    assert p.counters == Increment(map["warn" := 2], Other) == map["warn" := 2, "other" := 1];

    var o := p.ParseLine("[" + stamp + "][" + "warn] disk full");
    AdjacentBracketsRejected(stamp, "warn] disk full");
    assert o == LogsterParsingException(NoMatch);
  }

  /**
   * Reporting the example over 20 seconds gives 1.0 for warn and 0.5 for
   * other; reporting again gives the same, and a later line adds to the same
   * counters: get_state does not reset them.
   */
  method ReportExampleLines(stamp: string)
    requires |stamp| >= 1 && NoClose(stamp)
  {
    var p := CountExampleLines(stamp);
    var first := p.GetState(20.0);
    ReportTwoWarningsAndANoticeRates();
    assert first == Success({Metric("errorlog.warn", 1.0, "Logs per 10 sec"),
                             Metric("errorlog.other", 0.5, "Logs per 10 sec")});
    assert p.GetState(20.0) == first;

    ExampleLevels();
    FeedLayout(p, stamp, "error", "disk failed");
    assert p.counters == Increment(map["warn" := 2, "other" := 1], "error") == map["warn" := 2, "other" := 1, "error" := 1];
  }

  lemma ExampleLevels()
    ensures AllWord("warn") && AllWord("WARN") && AllWord("notice") && AllWord("error")
    ensures Lower("warn") == "warn" && Lower("WARN") == "warn"
    ensures Lower("notice") == "notice" && Lower("error") == "error"
  {
  }

  lemma ReportTwoWarningsAndANoticeRates()
    ensures Report(map["warn" := 2, "other" := 1], 20.0, "errorlog.", 10, UnitsFor(10))
         == Success({Metric("errorlog.warn", 1.0, "Logs per 10 sec"),
                     Metric("errorlog.other", 0.5, "Logs per 10 sec")})
  {
    var c := map["warn" := 2, "other" := 1];
    var u := UnitsFor(10);
    assert u == "Logs per 10 sec";
    var warn := MetricOf(c, "warn", 20.0, "errorlog.", 10, u);
    var other := MetricOf(c, "other", 20.0, "errorlog.", 10, u);
    assert warn == Metric("errorlog.warn", 1.0, u);
    assert other == Metric("errorlog.other", 0.5, u);
    var ms := set k | k in c :: MetricOf(c, k, 20.0, "errorlog.", 10, u);
    assert warn in ms && other in ms;
    assert forall m :: m in ms ==> m == warn || m == other;
    assert ms == {warn, other};
  }
}
