/**
 * The parser's default pattern, `^\[[^]]+\] \[(?P<loglevel>\w+)\] .*`, written
 * out as a total function, and the shape of the lines it accepts.
 *
 * The pattern has a single way to match: `[^]]+` cannot cross a `]`, so it
 * ends at the first `]` after the opening bracket, and `\w+` cannot cross the
 * `]` that must follow it, so it ends at the first character outside `\w`.
 * `.*` accepts any tail, including the empty one, and nothing anchors the end.
 */
module ErrorLogPattern {
  import opened Wrappers
  import opened Text

  /** The name of the pattern's capture group. */
  const Loglevel: string := "loglevel"

  /** What `match.groupdict()` gives: each named group, None when it took no part. */
  type Groups = map<string, Option<string>>

  predicate NoClose(s: string) {
    forall i :: 0 <= i < |s| ==> s[i] != ']'
  }

  predicate AllWord(s: string) {
    forall i :: 0 <= i < |s| ==> IsWordChar(s[i])
  }

  /** Where `[^]]+` stops when it starts at `i`: the first `]` from `i` on, or the end. */
  function SkipToClose(s: string, i: nat): (j: nat)
    requires i <= |s|
    ensures i <= j <= |s|
    ensures forall k :: i <= k < j ==> s[k] != ']'
    ensures j == |s| || s[j] == ']'
    decreases |s| - i
  {
    if i == |s| || s[i] == ']' then i else SkipToClose(s, i + 1)
  }

  /** Where `\w+` stops when it starts at `i`: the first non-word character from `i` on, or the end. */
  function SkipWord(s: string, i: nat): (j: nat)
    requires i <= |s|
    ensures i <= j <= |s|
    ensures forall k :: i <= k < j ==> IsWordChar(s[k])
    ensures j == |s| || !IsWordChar(s[j])
    decreases |s| - i
  {
    if i == |s| || !IsWordChar(s[i]) then i else SkipWord(s, i + 1)
  }

  /** `re.match` of the default pattern on `line`: the `loglevel` capture, or None for no match. */
  function MatchDefault(line: string): (r: Option<string>)
    ensures r.Some? ==> |line| >= 1 && line[0] == '['
    ensures r.Some? ==> |r.value| >= 1 && AllWord(r.value)
  {
    if |line| == 0 || line[0] != '[' then None
    else
      var close := SkipToClose(line, 1);
      if close == 1 || close + 3 > |line| || line[close + 1] != ' ' || line[close + 2] != '[' then None
      else
        var start := close + 3;
        var end := SkipWord(line, start);
        if end == start || end + 2 > |line| || line[end] != ']' || line[end + 1] != ' ' then None
        else Some(line[start..end])
  }

  /** The pieces of an accepted line: a non-empty stamp without `]`, a non-empty `\w` level. */
  predicate WellFormedParts(stamp: string, level: string) {
    |stamp| >= 1 && NoClose(stamp) && |level| >= 1 && AllWord(level)
  }

  /** The line `[stamp] [level] rest`. */
  function Layout(stamp: string, level: string, rest: string): string {
    "[" + stamp + "] [" + level + "] " + rest
  }

  lemma LayoutAt(stamp: string, level: string, rest: string)
    ensures var line := Layout(stamp, level, rest);
      var c := |stamp| + 1;
      var e := c + 3 + |level|;
      && |line| == e + 2 + |rest|
      && line[0] == '[' && line[1..c] == stamp
      && line[c] == ']' && line[c + 1] == ' ' && line[c + 2] == '['
      && line[c + 3..e] == level
      && line[e] == ']' && line[e + 1] == ' '
      && line[e + 2..] == rest
  {
  }

  /** Every line of the shape `[stamp] [level] rest` matches, and the capture is `level`. */
  lemma {:induction false} MatchComplete(stamp: string, level: string, rest: string)
    requires WellFormedParts(stamp, level)
    ensures MatchDefault(Layout(stamp, level, rest)) == Some(level)
  {
    LayoutAt(stamp, level, rest);
  }

  /** Where the pieces of a matched line lie. */
  lemma MatchPieces(line: string) returns (close: nat, end: nat)
    requires MatchDefault(line).Some?
    ensures 1 < close && close + 3 < end && end + 2 <= |line|
    ensures line[..1] == "[" && line[close..close + 3] == "] [" && line[end..end + 2] == "] "
    ensures WellFormedParts(line[1..close], line[close + 3..end])
    ensures MatchDefault(line).value == line[close + 3..end]
  {
    close := SkipToClose(line, 1);
    end := SkipWord(line, close + 3);
  }

  /** Every match has the shape `[stamp] [level] rest`, with `level` the capture. */
  lemma MatchSound(line: string)
    requires MatchDefault(line).Some?
    ensures exists stamp, rest ::
      WellFormedParts(stamp, MatchDefault(line).value) && line == Layout(stamp, MatchDefault(line).value, rest)
  {
    var close, end := MatchPieces(line);
    var stamp, level, rest := line[1..close], line[close + 3..end], line[end + 2..];
    assert line == line[..1] + stamp + line[close..close + 3] + level + line[end..end + 2] + rest;
    assert line == Layout(stamp, level, rest);
  }

  /** The default pattern accepts exactly the lines `[stamp] [level] rest`, capturing `level`. */
  lemma MatchDefaultIff(line: string, level: string)
    ensures MatchDefault(line) == Some(level) <==>
      exists stamp, rest :: WellFormedParts(stamp, level) && line == Layout(stamp, level, rest)
  {
    if MatchDefault(line) == Some(level) {
      MatchSound(line);
    }
    if exists stamp, rest :: WellFormedParts(stamp, level) && line == Layout(stamp, level, rest) {
      var stamp, rest :| WellFormedParts(stamp, level) && line == Layout(stamp, level, rest);
      MatchComplete(stamp, level, rest);
    }
  }

  /** A line whose stamp is followed by `][` rather than `] [` is not matched. */
  lemma AdjacentBracketsRejected(stamp: string, rest: string)
    requires NoClose(stamp)
    ensures MatchDefault("[" + stamp + "][" + rest) == None
  {
    var line := "[" + stamp + "][" + rest;
    assert line[|stamp| + 1] == ']';
  }

  /** The default pattern compiled and applied: its groupdict, or None when `re.match` fails. */
  function DefaultMatcher(line: string): (r: Option<Groups>)
    ensures r.Some? <==> MatchDefault(line).Some?
    ensures r.Some? ==> r.value == map[Loglevel := Some(MatchDefault(line).value)]
  {
    match MatchDefault(line)
    case None => None
    case Some(level) => Some(map[Loglevel := Some(level)])
  }
}
