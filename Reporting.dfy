/**
 * get_state's computation: every counter becomes a metric whose value is the
 * count rescaled from the elapsed duration to the parser's window of
 * `num_seconds`, `count / (duration / num_seconds)`. Rates are real numbers.
 */
module Reporting {
  import opened Wrappers
  import opened Counters
  import Text

  /** A MetricObject: name, value and unit. */
  datatype Metric = Metric(name: string, value: real, units: string)

  /** The one error get_state can raise: the division by a zero window. */
  datatype ReportError = ZeroDivisionError

  /** `'Logs per {0} sec'.format(num_seconds)`. */
  function UnitsFor(numSeconds: int): string {
    "Logs per " + Text.IntToString(numSeconds) + " sec"
  }

  /** The unit string names its window: reading the number back gives `numSeconds`. */
  lemma UnitsNameWindow(numSeconds: int)
    ensures var u := UnitsFor(numSeconds);
      var n := u[9..|u| - 4];
      |u| >= 14 && u[..9] == "Logs per " && u[|u| - 4..] == " sec"
      && |n| >= 1 && (n[0] == '-' ==> Text.AllDigits(n[1..])) && (n[0] != '-' ==> Text.AllDigits(n))
      && Text.IntValue(n) == numSeconds
  {
    var u := UnitsFor(numSeconds);
    Text.IntRoundTrip(numSeconds);
    assert u[9..|u| - 4] == Text.IntToString(numSeconds);
  }

  /** `count / (duration / num_seconds)`: the count an interval of `numSeconds` would see at this pace. */
  function Rate(count: nat, duration: real, numSeconds: int): (r: real)
    requires duration > 0.0 && numSeconds != 0
    ensures r * duration == count as real * numSeconds as real
  {
    count as real / (duration / numSeconds as real)
  }

  /** The metric get_state reports for one counter key. */
  function MetricOf(counters: Counts, key: string, duration: real, prefix: string, numSeconds: int,
                    units: string): (m: Metric)
    requires key in counters && duration > 0.0 && numSeconds != 0
    ensures |prefix| <= |m.name| && m.name[..|prefix|] == prefix && m.name[|prefix|..] == key
    ensures m.value * duration == counters[key] as real * numSeconds as real
    ensures m.units == units
  {
    Metric(prefix + key, Rate(counters[key], duration, numSeconds), units)
  }

  /**
   * The list comprehension of get_state, as a set (its order is the dict's).
   * A non-positive duration filters every item out before any division; with
   * no counter at all nothing is divided either; otherwise a zero window
   * raises on the first item.
   */
  function Report(counters: Counts, duration: real, prefix: string, numSeconds: int, units: string)
    : (r: Result<set<Metric>, ReportError>)
    ensures duration <= 0.0 ==> r == Success({})
    ensures r.Failure? <==> duration > 0.0 && numSeconds == 0 && counters != map[]
  {
    if duration <= 0.0 || counters == map[] then Success({})
    else if numSeconds == 0 then Failure(ZeroDivisionError)
    else Success(set k | k in counters :: MetricOf(counters, k, duration, prefix, numSeconds, units))
  }

  /** The metrics built from a set of keys are as many as the keys: names never collide. */
  lemma {:induction false} MetricsAsManyAsKeys(counters: Counts, keys: set<string>, duration: real, prefix: string,
                                               numSeconds: int, units: string)
    requires keys <= counters.Keys && duration > 0.0 && numSeconds != 0
    ensures |set k | k in keys :: MetricOf(counters, k, duration, prefix, numSeconds, units)| == |keys|
    decreases |keys|
  {
    if keys != {} {
      var x :| x in keys;
      var rest := keys - {x};
      MetricsAsManyAsKeys(counters, rest, duration, prefix, numSeconds, units);
      var mx := MetricOf(counters, x, duration, prefix, numSeconds, units);
      var all := set k | k in keys :: MetricOf(counters, k, duration, prefix, numSeconds, units);
      var others := set k | k in rest :: MetricOf(counters, k, duration, prefix, numSeconds, units);
      assert all == others + {mx};
      assert mx !in others;
    }
  }

  /**
   * With a positive duration and a non-zero window, get_state reports exactly
   * one metric per counter: named prefix + key, with the key's rescaled count
   * and the parser's unit, and nothing else.
   */
  lemma ReportOnePerKey(counters: Counts, duration: real, prefix: string, numSeconds: int, units: string)
    requires duration > 0.0 && numSeconds != 0
    ensures Report(counters, duration, prefix, numSeconds, units).Success?
    ensures var ms := Report(counters, duration, prefix, numSeconds, units).value;
      && |ms| == |counters|
      && (forall k :: k in counters ==>
            Metric(prefix + k, Rate(counters[k], duration, numSeconds), units) in ms)
      && (forall m :: m in ms ==>
            && m.units == units
            && |prefix| <= |m.name| && m.name[..|prefix|] == prefix
            && m.name[|prefix|..] in counters
            && m.value * duration == counters[m.name[|prefix|..]] as real * numSeconds as real)
  {
    if counters != map[] {
      MetricsAsManyAsKeys(counters, counters.Keys, duration, prefix, numSeconds, units);
      var ms := Report(counters, duration, prefix, numSeconds, units).value;
      forall k | k in counters
        ensures Metric(prefix + k, Rate(counters[k], duration, numSeconds), units) in ms
      {
        assert MetricOf(counters, k, duration, prefix, numSeconds, units) in ms;
      }
    }
  }

  lemma CancelWindow(a: nat, b: nat, numSeconds: int)
    requires numSeconds != 0
    requires a as real * numSeconds as real == b as real * numSeconds as real
    ensures a == b
  {
  }

  /** A counter of `c1` reappears, with the same count, in any `c2` that reports the same metrics. */
  lemma CounterSurvivesReport(c1: Counts, c2: Counts, k: string, duration: real, prefix: string,
                              numSeconds: int, units: string)
    requires duration > 0.0 && numSeconds != 0 && k in c1
    requires Report(c1, duration, prefix, numSeconds, units) == Report(c2, duration, prefix, numSeconds, units)
    ensures k in c2 && c2[k] == c1[k]
  {
    var mk := MetricOf(c1, k, duration, prefix, numSeconds, units);
    assert mk in Report(c1, duration, prefix, numSeconds, units).value;
    var k2 :| k2 in c2 && MetricOf(c2, k2, duration, prefix, numSeconds, units) == mk;
    assert k2 == mk.name[|prefix|..] == k;
    CancelWindow(c1[k], c2[k], numSeconds);
  }

  /** Nothing is lost in reporting: the metrics of a positive duration determine the counters. */
  lemma ReportDeterminesCounts(c1: Counts, c2: Counts, duration: real, prefix: string, numSeconds: int,
                               units: string)
    requires duration > 0.0 && numSeconds != 0
    requires Report(c1, duration, prefix, numSeconds, units) == Report(c2, duration, prefix, numSeconds, units)
    ensures c1 == c2
  {
    forall k | k in c1
      ensures k in c2 && c2[k] == c1[k]
    {
      CounterSurvivesReport(c1, c2, k, duration, prefix, numSeconds, units);
    }
    forall k | k in c2
      ensures k in c1
    {
      CounterSurvivesReport(c2, c1, k, duration, prefix, numSeconds, units);
    }
  }
}
