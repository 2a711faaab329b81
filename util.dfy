/** Mode-split statistics of one demand table. */
module Util {
  import opened Records

  /**
   * The result of `get_mode_stats`: `modes` lists the dictionary keys in the
   * order they are inserted, `count` and `ratio` are the two dictionaries.
   */
  datatype ModeStats = ModeStats(modes: seq<Mode>, count: map<Mode, nat>, ratio: map<Mode, real>)

  /** Number of rows whose choice is m. */
  function Occurrences(cs: seq<Mode>, m: Mode): nat {
    multiset(cs)[m]
  }

  predicate StrictlyAscending(ms: seq<Mode>) {
    forall a, b :: 0 <= a < b < |ms| ==> ms[a] < ms[b]
  }

  /**
   * s is the mode split of the choice column cs: one key per chosen mode (and
   * none for modes nobody chose), in ascending order, with the number of rows
   * choosing it and that number divided by the row count.
   */
  ghost predicate Describes(s: ModeStats, cs: seq<Mode>) {
    && (forall m: Mode :: m in s.count <==> Occurrences(cs, m) > 0)
    && s.ratio.Keys == s.count.Keys
    && (forall m :: m in s.count ==> s.count[m] == Occurrences(cs, m))
    && (forall m :: m in s.ratio ==> s.ratio[m] == (Occurrences(cs, m) as real) / (|cs| as real))
    && StrictlyAscending(s.modes)
    && (forall m :: m in s.count <==> m in s.modes)
  }

  /**
   * `get_mode_stats`: counts the rows of each chosen mode, visiting the modes in
   * ascending order, and records count and count / rows for each.
   */
  method GetModeStats(choices: seq<Mode>) returns (s: ModeStats)
    ensures Describes(s, choices)
  {
    var ms := multiset(choices);
    var total := |choices|;
    var modes: seq<Mode> := [];
    var count: map<Mode, nat> := map[];
    var ratio: map<Mode, real> := map[];
    for m := 0 to NumModes
      invariant StrictlyAscending(modes)
      invariant forall j :: 0 <= j < |modes| ==> modes[j] < m
      invariant forall j: Mode :: j in count <==> j < m && Occurrences(choices, j) > 0
      invariant forall j :: j in count <==> j in modes
      invariant ratio.Keys == count.Keys
      invariant forall j :: j in count ==> count[j] == Occurrences(choices, j)
      invariant forall j :: j in ratio ==> ratio[j] == (Occurrences(choices, j) as real) / (total as real)
    {
      if ms[m] > 0 {
        modes := modes + [m];
        count := count[m := ms[m]];
        ratio := ratio[m := (ms[m] as real) / (total as real)];
      }
    }
    s := ModeStats(modes, count, ratio);
  }

  /** Sum of the counts of the modes below n (absent keys count 0). */
  function CountSum(count: map<Mode, nat>, n: nat): nat
    requires n <= NumModes
  {
    if n == 0 then 0 else CountSum(count, n - 1) + (if (n - 1) in count then count[n - 1] else 0)
  }

  /** Sum of the ratios of the modes below n (absent keys count 0). */
  function RatioSum(ratio: map<Mode, real>, n: nat): real
    requires n <= NumModes
  {
    if n == 0 then 0.0 else RatioSum(ratio, n - 1) + (if (n - 1) in ratio then ratio[n - 1] else 0.0)
  }

  /** Sum of the occurrence counts of the modes below n. */
  function OccurrenceSum(cs: seq<Mode>, n: nat): nat
    requires n <= NumModes
  {
    if n == 0 then 0 else OccurrenceSum(cs, n - 1) + Occurrences(cs, n - 1)
  }

  lemma {:induction false} OccurrenceSumSnoc(cs: seq<Mode>, x: Mode, n: nat)
    requires n <= NumModes
    ensures OccurrenceSum(cs + [x], n) == OccurrenceSum(cs, n) + (if x < n then 1 else 0)
  {
    if n > 0 {
      OccurrenceSumSnoc(cs, x, n - 1);
      assert multiset(cs + [x]) == multiset(cs) + multiset{x};
    }
  }

  lemma {:induction false} OccurrenceSumEmpty(n: nat)
    requires n <= NumModes
    ensures OccurrenceSum([], n) == 0
  {
    if n > 0 {
      OccurrenceSumEmpty(n - 1);
    }
  }

  /** Every row is counted exactly once: the counts of all five modes sum to the row count. */
  lemma {:induction false} OccurrencesSumToLength(cs: seq<Mode>)
    ensures OccurrenceSum(cs, NumModes) == |cs|
    decreases |cs|
  {
    if cs == [] {
      OccurrenceSumEmpty(NumModes);
    } else {
      var init := cs[..|cs| - 1];
      OccurrencesSumToLength(init);
      assert cs == init + [cs[|cs| - 1]];
      OccurrenceSumSnoc(init, cs[|cs| - 1], NumModes);
    }
  }

  lemma {:induction false} CountSumIsOccurrenceSum(s: ModeStats, cs: seq<Mode>, n: nat)
    requires Describes(s, cs) && n <= NumModes
    ensures CountSum(s.count, n) == OccurrenceSum(cs, n)
  {
    if n > 0 {
      CountSumIsOccurrenceSum(s, cs, n - 1);
      var m: Mode := n - 1;
      assert m !in s.count ==> Occurrences(cs, m) == 0;
    }
  }

  lemma {:induction false} RatioSumIsScaledCount(s: ModeStats, cs: seq<Mode>, n: nat)
    requires Describes(s, cs) && n <= NumModes && |cs| > 0
    ensures RatioSum(s.ratio, n) == (CountSum(s.count, n) as real) / (|cs| as real)
  {
    if n > 0 {
      RatioSumIsScaledCount(s, cs, n - 1);
      var m: Mode := n - 1;
      var c := if m in s.count then s.count[m] else 0;
      AddQuotients(CountSum(s.count, n - 1) as real, c as real, |cs| as real);
    }
  }

  lemma SelfQuotient(a: nat, b: nat)
    requires a == b && b > 0
    ensures (a as real) / (b as real) == 1.0
  {
  }

  lemma AddQuotients(a: real, b: real, d: real)
    requires d != 0.0
    ensures a / d + b / d == (a + b) / d
  {
  }

  /**
   * The counts of a mode split sum to the row count, and for a non-empty table
   * the ratios sum to 1.
   */
  lemma ModeSplitTotals(s: ModeStats, cs: seq<Mode>)
    requires Describes(s, cs)
    ensures CountSum(s.count, NumModes) == |cs|
    ensures |cs| > 0 ==> RatioSum(s.ratio, NumModes) == 1.0
  {
    CountSumIsOccurrenceSum(s, cs, NumModes);
    OccurrencesSumToLength(cs);
    if |cs| > 0 {
      RatioSumIsScaledCount(s, cs, NumModes);
      SelfQuotient(CountSum(s.count, NumModes), |cs|);
    }
  }

  /** Every ratio lies in (0, 1]: a present key was chosen at least once and at most by every row. */
  lemma RatiosInUnitInterval(s: ModeStats, cs: seq<Mode>, m: Mode)
    requires Describes(s, cs) && m in s.ratio
    ensures 0.0 < s.ratio[m] <= 1.0
  {
    var c := Occurrences(cs, m);
    assert c <= |cs| by {
      OccurrencesBounded(cs, m);
    }
    assert c > 0;
    QuotientInUnit(c as real, |cs| as real);
  }

  lemma OccurrencesBounded(cs: seq<Mode>, m: Mode)
    ensures Occurrences(cs, m) <= |cs|
  {
    OccurrencesSumToLength(cs);
    OccurrenceAtMostSum(cs, m, NumModes);
  }

  lemma {:induction false} OccurrenceAtMostSum(cs: seq<Mode>, m: Mode, n: nat)
    requires m < n <= NumModes
    ensures Occurrences(cs, m) <= OccurrenceSum(cs, n)
  {
    if m < n - 1 {
      OccurrenceAtMostSum(cs, m, n - 1);
    }
  }

  lemma QuotientInUnit(c: real, n: real)
    requires 0.0 < c <= n
    ensures 0.0 < c / n <= 1.0
  {
  }
}
