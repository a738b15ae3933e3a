# ErrorLogLogster, modelled in Dafny

A model of logster's `ErrorLogLogster` parser (`logster/parsers/ErrorLogLogster.py`).
The parser reads an Apache `error_log` one line at a time. It matches each line
against a pattern of the form `[stamp] [level] message` and lowercases the
level. It then increments that level's counter, or the catch-all counter
`other` when the level is not one of the recognised levels. On request it turns
the counters into metrics: each count rescaled from the elapsed duration to a
window of `num_seconds` seconds, named `prefix + level`, with the unit
`Logs per N sec`.

Layout:

- `Wrappers.dfy`: `Option` and `Result`.
- `Text.dfy`: Python 2's ASCII `str.lower()` and `\w` class. It also renders an
  int as `'{0}'.format(n)` does, with its inverse.
- `ErrorLogPattern.dfy`: the default pattern
  `^\[[^]]+\] \[(?P<loglevel>\w+)\] .*` as a total function `MatchDefault`.
  Beside it is a declarative description of the lines it accepts
  (`Layout`/`WellFormedParts`). The two are proved equivalent in both
  directions.
- `Counters.dfy`: the `defaultdict(int)` of counters as a `map<string, nat>`. It
  has the increment, the sum of all counts, and the invariant the parser keeps.
- `Reporting.dfy`: get_state's list comprehension as a pure function `Report`,
  with the rate formula over `real`.
- `ErrorLogLogster.dfy`: the class, with `counters` as a field that `ParseLine`
  reassigns and a ghost count of successful `ParseLine` calls. It also has the
  classification function `Step` that specifies `ParseLine`, the properties of
  `Step`, and a driver method that steps through the worked example.

Behaviour the model follows from the code:

- The counters are never reset: `GetState` only reads them. Counts and rates are
  cumulative since construction.
- `levels` is used as given and is not lowercased. An entry with a capital
  letter can never be counted.
- A pattern match alone is not enough. A user-supplied pattern may lack a
  `loglevel` group, which raises `KeyError`. Its `loglevel` group may also take
  no part in the match, and then `None.lower()` fails. The `try` block turns
  both into `LogsterParsingException`, like a line that does not match. They
  are modelled as the causes `NoLoglevelGroup` and `LoglevelUnset`.
- The default pattern needs exactly one space between `]` and the second `[`.
  A line written `[Mon Jan 1][warn] disk full` raises
  (`ErrorLogPattern.AdjacentBracketsRejected`). The model follows the pattern in
  the code.
- When `num_seconds` is 0, `get_state` raises
  `ZeroDivisionError`, but only if the duration is positive and at least one
  counter exists. In every other case the comprehension never divides.

## Model

| member | source | states |
|---|---|---|
| `Text.Lower` | logster/parsers/ErrorLogLogster.py:49 | `level.lower()` keeps the length and replaces each ASCII capital by its small letter, leaving every other character as it is |
| `Text.LowerIsCanonical` | logster/parsers/ErrorLogLogster.py:49 | a lowered level has no capital letter left, and lowering it again changes nothing |
| `Text.NatToString` | logster/parsers/ErrorLogLogster.py:31 | the decimal rendering of a count of seconds is a non-empty string of digits with no leading zero |
| `Text.DecimalRoundTrip` | logster/parsers/ErrorLogLogster.py:31 | reading the digits back gives the number rendered |
| `Text.IntRoundTrip` | logster/parsers/ErrorLogLogster.py:31 | `'{0}'.format(n)` for any int, sign included, reads back as `n` |
| `Reporting.UnitsNameWindow` | logster/parsers/ErrorLogLogster.py:31 | the unit is `Logs per ` + the window + ` sec`, and the window can be read back from it |
| `ErrorLogPattern.SkipToClose` | logster/parsers/ErrorLogLogster.py:21 | `[^]]+` stops at the first `]` at or after its start, or at the end of the line |
| `ErrorLogPattern.SkipWord` | logster/parsers/ErrorLogLogster.py:21 | `\w+` stops at the first non-word character at or after its start, or at the end of the line |
| `ErrorLogPattern.MatchPieces` | logster/parsers/ErrorLogLogster.py:21 | a matched line is `[`, a stamp without `]`, `] [`, a non-empty word-character capture, `] `, then anything |
| `ErrorLogPattern.MatchComplete` | logster/parsers/ErrorLogLogster.py:21 | every line `[stamp] [level] rest` with a non-empty `]`-free stamp and a non-empty `\w` level matches, capturing `level` |
| `ErrorLogPattern.MatchSound` | logster/parsers/ErrorLogLogster.py:21 | every match is such a line, and the capture is its level |
| `ErrorLogPattern.MatchDefaultIff` | logster/parsers/ErrorLogLogster.py:21 | the default pattern captures `level` from `line` if and only if `line` is `[stamp] [level] rest` with well-formed pieces |
| `ErrorLogPattern.AdjacentBracketsRejected` | logster/parsers/ErrorLogLogster.py:21 | `[stamp][...`, with no space between the fields, never matches |
| `ErrorLogPattern.DefaultMatcher` | logster/parsers/ErrorLogLogster.py:44-48 | with the default pattern, `groupdict()` exists exactly when the line matches and maps `loglevel` to the capture |
| `Counters.Increment` | logster/parsers/ErrorLogLogster.py:51-54 | `counters[k] += 1` on the defaultdict: `k` gains one and becomes a key; every other counter reads the same |
| `Counters.TotalRemove` | logster/parsers/ErrorLogLogster.py:51-54 | the sum of the counters does not depend on the order the keys are taken in |
| `Counters.TotalIncrement` | logster/parsers/ErrorLogLogster.py:51-54 | each increment adds exactly one to the sum of the counters |
| `Counters.IncrementKeepsWellFormed` | logster/parsers/ErrorLogLogster.py:51-54 | incrementing a recognised level or `other` keeps every key within `levels ∪ {other}` and every count at least 1 |
| `ErrorLogLogster.Classify` | logster/parsers/ErrorLogLogster.py:44-57 | a line is counted exactly when it matches and its `loglevel` group has a value. The counter is then a recognised level or `other`, and it has no capital letter. No match raises `NoMatch` |
| `ErrorLogPattern.MatchDefault` | logster/parsers/ErrorLogLogster.py:21 | a match needs a line starting with `[` and captures a non-empty run of `\w` characters; its partner `ErrorLogPattern.MatchDefaultIff` proves it accepts exactly the lines `[stamp] [level] rest`, capturing `level` |
| `ErrorLogLogster.Step` | logster/parsers/ErrorLogLogster.py:44-60 | a line the pattern does not match raises `NoMatch`; a counted line adds one to a single counter, a recognised level or `other`, and never lowers any counter. Its partners `RecognizedLevelCounted`, `UnrecognizedLevelCounted`, `UnmatchedLineRaises` and `StepKeepsInvariant` state each case and the invariant it keeps |
| `ErrorLogLogster.RecognizedLevelCounted` | logster/parsers/ErrorLogLogster.py:44-52 | a match whose lowercased level is in `levels` adds exactly one to that level's counter and leaves every other counter unchanged |
| `ErrorLogLogster.UnrecognizedLevelCounted` | logster/parsers/ErrorLogLogster.py:51-54 | a match whose lowercased level is not in `levels` adds exactly one to `other` and leaves every other counter unchanged |
| `ErrorLogLogster.UnmatchedLineRaises` | logster/parsers/ErrorLogLogster.py:56-60 | a line the pattern does not match raises `LogsterParsingException` and produces no new counters |
| `ErrorLogLogster.DefaultLineCounted` | logster/parsers/ErrorLogLogster.py:44-54 | with the default pattern, `[stamp] [level] rest` increments the lowercased level if it is recognised, `other` if not |
| `ErrorLogLogster.DefaultOtherLinesRaise` | logster/parsers/ErrorLogLogster.py:44-60 | with the default pattern, every line not of that shape raises and changes nothing |
| `ErrorLogLogster.LevelCaseIgnored` | logster/parsers/ErrorLogLogster.py:48-51 | `[x] [WARN] m` and `[x] [warn] m` have the same effect, as do any two levels equal after lowercasing |
| `ErrorLogLogster.UppercaseLevelNeverCounted` | logster/parsers/ErrorLogLogster.py:49-51 | a `levels` entry containing a capital letter is never incremented, whatever the pattern and the line |
| `ErrorLogLogster.StepKeepsInvariant` | logster/parsers/ErrorLogLogster.py:51-54 | a successful parse keeps keys in `levels ∪ {other}` and counts at least 1, and adds exactly one to the sum of the counts |
| `ErrorLogLogster.ErrorLogLogster.constructor` | logster/parsers/ErrorLogLogster.py:19-35 | a new parser has empty counters, zero successful parses, the given pattern, levels, prefix and window, and the unit for that window. The defaults are the default pattern, `notice, warn, error, crit`, `''` and 10 |
| `ErrorLogLogster.ErrorLogLogster.ParseLine` | logster/parsers/ErrorLogLogster.py:38-60 | parse_line either increments exactly the counter `Step` selects and counts one more success, or raises with the cause and leaves counters and count unchanged. It keeps the invariant (keys in `levels ∪ {other}`, counts at least 1, sum equal to the successful calls), and no counter ever decreases |
| `ErrorLogLogster.ErrorLogLogster.GetState` | logster/parsers/ErrorLogLogster.py:63-73 | get_state is empty for a non-positive duration or with no counters. It raises only for a zero window with a positive duration and a counter. Otherwise it gives one metric per counter, `prefix + key` with value `count / (duration / num_seconds)` and the parser's unit. It only reads the parser |
| `ErrorLogLogster.CountExampleLines` | logster/parsers/ErrorLogLogster.py:42-60 | two `warn`/`WARN` lines and one `notice` line with levels `{warn, error}` give `warn = 2, other = 1`; a `[stamp][warn]` line raises |
| `ErrorLogLogster.ReportTwoWarningsAndANoticeRates` | logster/parsers/ErrorLogLogster.py:67-73 | those counts over 20 s with a 10 s window give `errorlog.warn = 1.0` and `errorlog.other = 0.5`, unit `Logs per 10 sec` |
| `Reporting.Rate` | logster/parsers/ErrorLogLogster.py:69 | `count / (duration / num_seconds)` times the duration equals `count * num_seconds` |
| `Reporting.MetricOf` | logster/parsers/ErrorLogLogster.py:68-70 | a key's metric is named `prefix + key` (the key can be read back after the prefix), carries the unit, and its value rescales the count to the window |
| `Reporting.Report` | logster/parsers/ErrorLogLogster.py:67-73 | a non-positive duration gives no metric; a `ZeroDivisionError` occurs exactly when the duration is positive, the window is 0 and some counter exists |
| `Reporting.MetricsAsManyAsKeys` | logster/parsers/ErrorLogLogster.py:67-73 | distinct keys give distinct metrics, so no two counters collapse into one metric |
| `Reporting.ReportOnePerKey` | logster/parsers/ErrorLogLogster.py:67-73 | for a positive duration and a non-zero window there is exactly one metric per counter: `prefix + key`, the rescaled count and the unit. Every metric is of that form |
| `Reporting.CounterSurvivesReport` | logster/parsers/ErrorLogLogster.py:67-73 | two counter maps that report the same metrics agree on every key of the first |
| `Reporting.ReportDeterminesCounts` | logster/parsers/ErrorLogLogster.py:67-73 | nothing is lost in reporting: for a positive duration and non-zero window the metrics determine the counters exactly |

## Left out

- The general `re` engine: only the default pattern is written out. A
  user-supplied `regexp` is an abstract function from a line to its
  `groupdict()`, or to None when `match` fails. Compiling an invalid pattern is
  not modelled.
- `Text.Lower` lowercases ASCII letters only. This is what Python 2 does for
  byte strings in the default C locale, and the default pattern only captures ASCII word characters. A
  custom pattern run on `unicode` lines may capture non-ASCII letters, and
  `unicode.lower()` would fold those too.
- `MetricObject`, `LogsterParser` and `LogsterParsingException` belong to
  `logster.logster_helper`, which is not part of this model. A metric is a
  plain triple, and the exception is the `LogsterParsingException` outcome of
  `ParseLine`.
- The text of the exception messages is diagnostic only and is not modelled.
  Only the cause is kept.
- `Reporting.Rate`: values are exact reals, not floating point. Python 2 does
  integer division when `duration` is an int: `duration / num_seconds` then
  floors and can reach 0, and `value / (...)` floors as well. That case is not
  modelled, because the duration is taken as a real, as the host driver passes
  it.
- `option_string` and the unused `import time` are host plumbing. File tailing,
  scheduling and metric output belong to the surrounding logster harness.
- `Reporting.UnitsFor`: the window is an int. A non-integer `num_seconds`
  and its rendering by `format` are not modelled.
- `ErrorLogLogster.ErrorLogLogster.GetState` returns a set, not a list: the
  list's order is the dict's iteration order. Names are distinct, so the set
  has exactly one element per counter (`Reporting.ReportOnePerKey`).
- `levels` is taken as a set of strings. The source accepts any iterable and
  calls `set()` on it.
- Failures outside the ones the code makes are not modelled, for example a
  line that is not a string.
