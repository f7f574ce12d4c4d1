/** Drawdown duration: how many consecutive periods the series has spent below
    its running peak. The source computes it with a grouped cumulative sum;
    here that computation is stated as written, shown equal to a counter that
    resets at every point that is not underwater, and its maximum is shown to
    be the length of the longest underwater run. */
module DrawdownDuration {
  import opened PriceSeries

  /** is_underwater: a point is underwater when its drawdown is strictly negative. */
  function Underwater(d: seq<real>): (u: seq<bool>)
    ensures |u| == |d|
  {
    seq(|d|, i requires 0 <= i < |d| => d[i] < 0.0)
  }

  /** astype(int) of a flag. */
  function Indicator(b: bool): (n: nat) { if b then 1 else 0 }

  // ---- the grouped cumulative sum, as the source writes it ----

  /** cumsum() of a count series: element i is the total of xs[0..i]. */
  function CumSum(xs: seq<nat>): (s: seq<nat>)
    ensures |s| == |xs|
    ensures |xs| > 0 ==> s[0] == xs[0]
    ensures forall i :: 0 < i < |xs| ==> s[i] == s[i - 1] + xs[i]
    ensures forall i, j :: 0 <= j <= i < |xs| ==> s[j] <= s[i]
    decreases |xs|
  {
    if xs == [] then []
    else
      var s' := CumSum(xs[..|xs| - 1]);
      s' + [(if s' == [] then 0 else s'[|s'| - 1]) + xs[|xs| - 1]]
  }

  /** Total of vals[j] over the positions j < n whose key is `key`. */
  function GroupTotal(vals: seq<nat>, keys: seq<nat>, key: nat, n: nat): (total: nat)
    requires n <= |vals| && n <= |keys|
    decreases n
  {
    if n == 0 then 0
    else GroupTotal(vals, keys, key, n - 1) + (if keys[n - 1] == key then vals[n - 1] else 0)
  }

  /** groupby(keys).cumsum(): at each position, the running total of the
      values of its own group, taken in order up to and including it. */
  function GroupedCumSum(vals: seq<nat>, keys: seq<nat>): (s: seq<nat>)
    requires |vals| == |keys|
    ensures |s| == |vals|
  {
    seq(|vals|, i requires 0 <= i < |vals| => GroupTotal(vals, keys, keys[i], i + 1))
  }

  /** The duration series of the source: the underwater indicator, summed
      within groups keyed by the running count of points that are not underwater. */
  function DurationSeries(u: seq<bool>): (c: seq<nat>)
    ensures |c| == |u|
  {
    var wet := seq(|u|, i requires 0 <= i < |u| => Indicator(u[i]));
    var dry := seq(|u|, i requires 0 <= i < |u| => Indicator(!u[i]));
    GroupedCumSum(wet, CumSum(dry))
  }

  // ---- the reference counter ----

  /** A counter that is 0 at every point that is not underwater and otherwise
      one more than at the previous point (1 at the first point). */
  function ResetCounter(u: seq<bool>): (c: seq<nat>)
    ensures |c| == |u|
    ensures forall i :: 0 <= i < |u| ==> (c[i] == 0 <==> !u[i])
    ensures forall i :: 0 <= i < |u| ==> c[i] <= i + 1
    ensures |u| > 0 && u[0] ==> c[0] == 1
    ensures forall i :: 0 < i < |u| && u[i] ==> c[i] == c[i - 1] + 1
    decreases |u|
  {
    if u == [] then []
    else
      var c' := ResetCounter(u[..|u| - 1]);
      c' + [if !u[|u| - 1] then 0 else if c' == [] then 1 else c'[|c'| - 1] + 1]
  }

  lemma {:induction false} GroupTotalAbsent(vals: seq<nat>, keys: seq<nat>, key: nat, n: nat)
    requires n <= |vals| && n <= |keys|
    requires forall j :: 0 <= j < n ==> keys[j] < key
    ensures GroupTotal(vals, keys, key, n) == 0
    decreases n
  {
    if n > 0 {
      GroupTotalAbsent(vals, keys, key, n - 1);
    }
  }

  /** At each position the source's grouped sum equals the reset counter. */
  lemma {:induction false} DurationAt(u: seq<bool>, i: nat)
    requires i < |u|
    ensures DurationSeries(u)[i] == ResetCounter(u)[i]
    decreases i
  {
    var wet := seq(|u|, j requires 0 <= j < |u| => Indicator(u[j]));
    var dry := seq(|u|, j requires 0 <= j < |u| => Indicator(!u[j]));
    var keys := CumSum(dry);
    var c := ResetCounter(u);
    assert DurationSeries(u)[i] == GroupTotal(wet, keys, keys[i], i + 1);
    if !u[i] {
      // a dry point opens a new group, whose key no earlier point carries
      if i > 0 {
        assert keys[i] == keys[i - 1] + 1;
      }
      GroupTotalAbsent(wet, keys, keys[i], i);
    } else if i == 0 {
      assert GroupTotal(wet, keys, keys[0], 0) == 0;
    } else {
      // an underwater point stays in its predecessor's group
      assert keys[i] == keys[i - 1];
      DurationAt(u, i - 1);
      assert DurationSeries(u)[i - 1] == GroupTotal(wet, keys, keys[i - 1], i);
    }
  }

  /** The grouped cumulative sum of the source is the reset counter. */
  lemma DurationIsResetCounter(u: seq<bool>)
    ensures DurationSeries(u) == ResetCounter(u)
  {
    forall i | 0 <= i < |u|
      ensures DurationSeries(u)[i] == ResetCounter(u)[i]
    {
      DurationAt(u, i);
    }
  }

  /** Read against the drawdown series: the duration is 0 wherever drawdown
      is not negative, starts at 1 on an underwater first point, grows by one
      per underwater point, and never exceeds the number of points so far. */
  lemma DurationCounterSteps(d: seq<real>)
    ensures var c := DurationSeries(Underwater(d));
      && (forall i :: 0 <= i < |d| && d[i] >= 0.0 ==> c[i] == 0)
      && (|d| > 0 && d[0] < 0.0 ==> c[0] == 1)
      && (forall i :: 0 < i < |d| && d[i] < 0.0 ==> c[i] == c[i - 1] + 1)
      && (forall i :: 0 <= i < |d| ==> c[i] <= i + 1)
  {
    DurationIsResetCounter(Underwater(d));
  }

  // ---- runs ----

  /** Positions lo .. hi-1 are all underwater. */
  predicate UnderwaterRun(u: seq<bool>, lo: int, hi: int) {
    0 <= lo <= hi <= |u| && forall k :: lo <= k < hi ==> u[k]
  }

  /** The counter at i is the length of the maximal underwater run ending at
      i: the points it counts are underwater, and the one before them is not
      (or there is none). */
  lemma {:induction false} CounterIsRunLength(u: seq<bool>, i: nat)
    requires i < |u|
    ensures var c := ResetCounter(u)[i];
      && UnderwaterRun(u, i + 1 - c, i + 1)
      && (c == i + 1 || !u[i - c])
    decreases i
  {
    if i > 0 && u[i] {
      CounterIsRunLength(u, i - 1);
    }
  }

  /** A run of underwater points ending at hi - 1 is no longer than the counter there. */
  lemma {:induction false} RunWithinCounter(u: seq<bool>, lo: int, hi: int)
    requires UnderwaterRun(u, lo, hi) && lo < hi
    ensures ResetCounter(u)[hi - 1] >= hi - lo
    decreases hi - lo
  {
    if lo < hi - 1 {
      RunWithinCounter(u, lo, hi - 1);
    }
  }

  /** n is the length of the longest underwater run of u: no run is longer,
      some run is that long, and n is 0 exactly when no point is underwater. */
  ghost predicate LongestRun(u: seq<bool>, n: nat) {
    && (forall lo, hi :: UnderwaterRun(u, lo, hi) ==> hi - lo <= n)
    && (exists lo, hi :: UnderwaterRun(u, lo, hi) && hi - lo == n)
    && (n == 0 <==> forall k :: 0 <= k < |u| ==> !u[k])
  }

  /** The maximum duration (an integer count of periods) is the length of the
      longest underwater run, wherever it lies, including one still open at
      the last point; it is 0 exactly when the series is never underwater. */
  lemma MaxDurationIsLongestRun(u: seq<bool>)
    requires |u| > 0
    ensures LongestRun(u, MaxOf(DurationSeries(u)))
  {
    DurationIsResetCounter(u);
    var c := ResetCounter(u);
    var longest := MaxOf(c);
    forall lo, hi | UnderwaterRun(u, lo, hi)
      ensures hi - lo <= longest
    {
      if lo < hi {
        RunWithinCounter(u, lo, hi);
      }
    }
    var i :| 0 <= i < |c| && c[i] == longest;
    CounterIsRunLength(u, i);
    assert UnderwaterRun(u, i + 1 - longest, i + 1);
    if longest == 0 {
      forall k | 0 <= k < |u|
        ensures !u[k]
      {
        assert c[k] <= longest;
      }
    } else {
      assert u[i];
    }
  }

  /** An underwater run that reaches the last point counts in full. */
  lemma OpenRunCounts(u: seq<bool>, lo: int)
    requires UnderwaterRun(u, lo, |u|) && lo < |u|
    ensures MaxOf(DurationSeries(u)) >= |u| - lo
  {
    MaxDurationIsLongestRun(u);
  }
}
