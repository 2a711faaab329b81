/**
 * The state the feedback loop carries from iteration to iteration: the NSM
 * service tracker, the choice-model tracker, the per-mode split histories,
 * and the stopping flags; how each iteration folds its results into that
 * state, when the loop stops, and the final report.
 */
module Driver {
  import opened Wrappers
  import opened Records
  import opened Statistics
  import opened Setup
  import DcaCalc
  import Util
  import Sample
  import FleetPy
  import InnerLoop

  // ------------------------------------------------------------ appending to a tracker

  /** One `add` call: the statistic, its new raw value and its p-value. */
  datatype Entry = Entry(stat: string, value: real, pval: real)

  function ValueItems(entries: seq<Entry>): (items: seq<(string, real)>)
    ensures |items| == |entries| && forall k :: 0 <= k < |entries| ==> items[k] == (entries[k].stat, entries[k].value)
  {
    seq(|entries|, k requires 0 <= k < |entries| => (entries[k].stat, entries[k].value))
  }

  function PvalItems(entries: seq<Entry>): (items: seq<(string, real)>)
    ensures |items| == |entries| && forall k :: 0 <= k < |entries| ==> items[k] == (entries[k].stat, entries[k].pval)
  {
    seq(|entries|, k requires 0 <= k < |entries| => (entries[k].stat, entries[k].pval))
  }

  /** Every item names a statistic held as a list. */
  predicate ListsFor(m: map<string, Slot>, items: seq<(string, real)>) {
    forall j :: 0 <= j < |items| ==> items[j].0 in m && m[items[j].0].Series?
  }

  /**
   * The histories after appending each item's value to its statistic, in
   * order; an item whose statistic is missing or not a list is skipped.
   */
  function Appended(m: map<string, Slot>, items: seq<(string, real)>): (r: map<string, Slot>)
    ensures r.Keys == m.Keys
    ensures forall s :: s in m ==> (r[s].Series? <==> m[s].Series?)
  {
    if items == [] then m
    else
      var prev := Appended(m, items[..|items| - 1]);
      var last := items[|items| - 1];
      if last.0 in prev && prev[last.0].Series? then prev[last.0 := Series(prev[last.0].xs + [last.1])] else prev
  }

  /** With distinct names, each named history gains exactly its item's value at the end. */
  lemma {:induction false} AppendedAt(m: map<string, Slot>, items: seq<(string, real)>, k: nat)
    requires ListsFor(m, items) && Distinct(Names(items)) && k < |items|
    ensures Appended(m, items)[items[k].0] == Series(m[items[k].0].xs + [items[k].1])
    decreases |items|
  {
    var init := items[..|items| - 1];
    assert Names(init) == Names(items)[..|items| - 1];
    if k < |items| - 1 {
      assert items[k].0 != items[|items| - 1].0;
      AppendedAt(m, init, k);
    } else {
      AppendedOther(m, init, items[k].0);
    }
  }

  /** A history no item names is left as it was. */
  lemma {:induction false} AppendedOther(m: map<string, Slot>, items: seq<(string, real)>, s: string)
    requires s in m && forall j :: 0 <= j < |items| ==> items[j].0 != s
    ensures Appended(m, items)[s] == m[s]
    decreases |items|
  {
    if items != [] {
      AppendedOther(m, items[..|items| - 1], s);
    }
  }

  lemma AppendedSnoc(m: map<string, Slot>, items: seq<(string, real)>, j: nat)
    requires j < |items|
    ensures var prev := Appended(m, items[..j]);
      Appended(m, items[..j + 1]) ==
        if items[j].0 in prev && prev[items[j].0].Series? then prev[items[j].0 := Series(prev[items[j].0].xs + [items[j].1])] else prev
  {
    assert items[..j + 1][..j] == items[..j];
    assert items[..j + 1][j] == items[j];
  }

  /**
   * Lines 146-148 and 299-305 of the loop: `add` for every entry in turn.  It
   * fails at the first statistic the tracker does not hold (KeyError) or that
   * is named "pval"; every earlier entry has then been added.
   */
  method AddEach(g: StatGroup, entries: seq<Entry>) returns (ok: bool)
    requires g.Valid()
    modifies g
    ensures g.Valid() && g.weight == old(g.weight) && g.names == old(g.names) && g.value.Keys == old(g.value.Keys)
    ensures ok <==> forall j :: 0 <= j < |entries| ==> entries[j].stat in old(g.value) && entries[j].stat != Reserved
    ensures ok ==> g.value == Appended(old(g.value), ValueItems(entries))
    ensures ok ==> g.pval == Appended(old(g.pval), PvalItems(entries))
  {
    var j := 0;
    while j < |entries|
      invariant j <= |entries| && g.weight == old(g.weight) && g.names == old(g.names) && g.value.Keys == old(g.value.Keys)
      invariant AddedThrough(g, entries, j, old(g.value), old(g.pval))
    {
      var added := AddNext(g, entries, j, old(g.value), old(g.pval));
      if !added {
        return false;
      }
      j := j + 1;
    }
    AddedAll(g, entries, old(g.value), old(g.pval));
    ok := true;
  }

  /** Entries 0..j-1 have been added to the histories v0 and p0, and all of them were known. */
  ghost predicate AddedThrough(g: StatGroup, entries: seq<Entry>, j: nat, v0: map<string, Slot>, p0: map<string, Slot>)
    reads g
    requires j <= |entries|
  {
    && g.Valid()
    && (forall k :: 0 <= k < j ==> entries[k].stat in v0 && entries[k].stat != Reserved)
    && g.value == Appended(v0, ValueItems(entries)[..j])
    && g.pval == Appended(p0, PvalItems(entries)[..j])
  }

  lemma AddedAll(g: StatGroup, entries: seq<Entry>, v0: map<string, Slot>, p0: map<string, Slot>)
    requires AddedThrough(g, entries, |entries|, v0, p0)
    ensures g.Valid()
    ensures forall j :: 0 <= j < |entries| ==> entries[j].stat in v0 && entries[j].stat != Reserved
    ensures g.value == Appended(v0, ValueItems(entries)) && g.pval == Appended(p0, PvalItems(entries))
  {
    assert ValueItems(entries)[..|entries|] == ValueItems(entries);
    assert PvalItems(entries)[..|entries|] == PvalItems(entries);
  }

  /** One step of AddEach: `add` for entry j, after entries 0..j-1 were added to v0 and p0. */
  method AddNext(g: StatGroup, entries: seq<Entry>, j: nat, ghost v0: map<string, Slot>, ghost p0: map<string, Slot>)
    returns (added: bool)
    requires j < |entries| && AddedThrough(g, entries, j, v0, p0)
    modifies g
    ensures g.weight == old(g.weight) && g.names == old(g.names) && g.value.Keys == old(g.value.Keys)
    ensures !added ==> g.Valid() && !(entries[j].stat in v0 && entries[j].stat != Reserved)
    ensures added ==> AddedThrough(g, entries, j + 1, v0, p0)
  {
    var e := entries[j];
    ListsHeld(g);
    assert g.value.Keys == v0.Keys;
    added := g.Add(e.stat, e.value, e.pval);
    if added {
      AppendedSnoc(v0, ValueItems(entries), j);
      AppendedSnoc(p0, PvalItems(entries), j);
    }
  }

  /** A valid tracker holds every statistic other than "pval" as lists. */
  lemma ListsHeld(g: StatGroup)
    requires g.Valid()
    ensures forall s :: s in g.value && s != Reserved ==> g.value[s].Series? && s in g.pval && g.pval[s].Series?
  {
    forall s | s in g.value && s != Reserved ensures g.value[s].Series? && s in g.pval && g.pval[s].Series? {
      assert Setup.SlotsOk(s, g.value[s], g.smooth[s], g.pval[s], g.weight);
    }
  }

  // ------------------------------------------------------------ mode split histories

  /** The two per-mode tables of `get_mode_stats`. */
  datatype SplitStat = Ratio | Count

  /** Mode m's entry in one replication's table; None where the key is missing. */
  function EntryOf(s: Util.ModeStats, stat: SplitStat, m: Mode): Option<real> {
    match stat
    case Ratio => if m in s.ratio then Some(s.ratio[m]) else None
    case Count => if m in s.count then Some(s.count[m] as real) else None
  }

  /** The modes listed in the first replication's table, which the loop iterates over. */
  predicate Listed(splits: seq<Util.ModeStats>, stat: SplitStat, m: Mode)
    requires |splits| > 0
  {
    EntryOf(splits[0], stat, m).Some?
  }

  /** Every replication has an entry for every mode listed by the first one. */
  predicate Covered(splits: seq<Util.ModeStats>, stat: SplitStat) {
    && |splits| > 0
    && forall m: Mode, j :: 0 <= j < |splits| && Listed(splits, stat, m) ==> EntryOf(splits[j], stat, m).Some?
  }

  /** Mode m's entries over the replications. */
  function ModeColumn(splits: seq<Util.ModeStats>, stat: SplitStat, m: Mode): (c: seq<real>)
    requires forall j :: 0 <= j < |splits| ==> EntryOf(splits[j], stat, m).Some?
    ensures |c| == |splits| && forall j :: 0 <= j < |splits| ==> Some(c[j]) == EntryOf(splits[j], stat, m)
  {
    seq(|splits|, j requires 0 <= j < |splits| => EntryOf(splits[j], stat, m).value)
  }

  /** The histories after the iteration: each listed mode gains the mean of its column. */
  function WithMeans(hist: map<Mode, seq<real>>, splits: seq<Util.ModeStats>, stat: SplitStat): (r: map<Mode, seq<real>>)
    requires Covered(splits, stat)
    ensures r.Keys == hist.Keys
  {
    map m | m in hist :: if Listed(splits, stat, m) then hist[m] + [Mean(ModeColumn(splits, stat, m))] else hist[m]
  }

  /** Lines 135-137: mode m's entries over the replications; None where one of them lacks the key. */
  method CollectColumn(splits: seq<Util.ModeStats>, stat: SplitStat, m: Mode) returns (r: Option<seq<real>>)
    ensures r.Some? <==> forall j :: 0 <= j < |splits| ==> EntryOf(splits[j], stat, m).Some?
    ensures r.Some? ==> r.value == ModeColumn(splits, stat, m)
  {
    var values: seq<real> := [];
    for j := 0 to |splits|
      invariant |values| == j
      invariant forall k :: 0 <= k < j ==> EntryOf(splits[k], stat, m) == Some(values[k])
    {
      var e := EntryOf(splits[j], stat, m);
      if e.None? {
        return None;
      }
      values := values + [e.value];
    }
    return Some(values);
  }

  /**
   * Lines 134-138 for one table: for each mode the first replication lists,
   * in ascending order, the mean over the replications is appended to the
   * mode's history.  None where the list is empty (IndexError) or a
   * replication lacks a listed mode (KeyError).
   */
  method AppendModeMeans(hist: map<Mode, seq<real>>, splits: seq<Util.ModeStats>, stat: SplitStat)
    returns (r: Option<map<Mode, seq<real>>>)
    ensures r.Some? <==> Covered(splits, stat)
    ensures r.Some? ==> r.value == WithMeans(hist, splits, stat)
  {
    if |splits| == 0 {
      return None;
    }
    var h := hist;
    var m := 0;
    while m < NumModes
      invariant 0 <= m <= NumModes
      invariant CoveredBelow(splits, stat, m)
      invariant h == AppendBelow(hist, ColumnMeans(splits, stat), m)
    {
      ghost var before := h;
      if Listed(splits, stat, m) {
        var col := CollectColumn(splits, stat, m);
        if col.None? {
          MissingEntryUncovered(splits, stat, m);
          return None;
        }
        if m in h {
          h := h[m := h[m] + [Mean(col.value)]];
        }
        ColumnMeansStep(hist, splits, stat, m, before, col.value);
      } else {
        ColumnMeansStep(hist, splits, stat, m, before, []);
      }
      CoveredBelowStep(splits, stat, m);
      m := m + 1;
    }
    MeansBelowAll(hist, splits, stat);
    return Some(h);
  }

  /** Every replication has an entry for every mode below n that the first one lists. */
  ghost predicate CoveredBelow(splits: seq<Util.ModeStats>, stat: SplitStat, n: int)
    requires |splits| > 0
  {
    forall m: Mode, j :: m < n && 0 <= j < |splits| && Listed(splits, stat, m) ==> EntryOf(splits[j], stat, m).Some?
  }

  /** The mean of each mode the first replication lists and every replication has an entry for. */
  ghost function ColumnMeans(splits: seq<Util.ModeStats>, stat: SplitStat): map<Mode, real>
    requires |splits| > 0
  {
    map m: Mode | Listed(splits, stat, m) && (forall j :: 0 <= j < |splits| ==> EntryOf(splits[j], stat, m).Some?)
      :: Mean(ModeColumn(splits, stat, m))
  }

  /** The histories once the modes below n have been visited, one mode at a time, each kept mode gaining its value in add. */
  ghost function AppendBelow(hist: map<Mode, seq<real>>, add: map<Mode, real>, n: nat): map<Mode, seq<real>>
    requires n <= NumModes
    decreases n
  {
    if n == 0 then hist
    else
      var h := AppendBelow(hist, add, n - 1);
      var m: Mode := n - 1;
      if m in add && m in h then h[m := h[m] + [add[m]]] else h
  }

  /**
   * After the modes below n are visited, the histories have the same modes,
   * each mode below n with a value has gained it and every other mode is as it was.
   */
  lemma {:induction false} AppendBelowAt(hist: map<Mode, seq<real>>, add: map<Mode, real>, n: nat)
    requires n <= NumModes
    ensures AppendBelow(hist, add, n).Keys == hist.Keys
    ensures forall m :: m in hist ==> (AppendBelow(hist, add, n)[m] ==
      if m < n && m in add then hist[m] + [add[m]] else hist[m])
    decreases n
  {
    if n > 0 {
      AppendBelowAt(hist, add, n - 1);
      var h := AppendBelow(hist, add, n - 1);
      var p: Mode := n - 1;
      forall m | m in hist ensures AppendBelow(hist, add, n)[m] == if m < n && m in add then hist[m] + [add[m]] else hist[m] {
        if m != p {
          assert AppendBelow(hist, add, n)[m] == h[m];
        } else {
          assert h[p] == hist[p];
        }
      }
    }
  }

  /** A listed mode that some replication lacks leaves the tables uncovered. */
  lemma MissingEntryUncovered(splits: seq<Util.ModeStats>, stat: SplitStat, m: Mode)
    requires |splits| > 0 && Listed(splits, stat, m)
    requires !forall j :: 0 <= j < |splits| ==> EntryOf(splits[j], stat, m).Some?
    ensures !Covered(splits, stat)
  {
    var j :| 0 <= j < |splits| && EntryOf(splits[j], stat, m).None?;
  }

  /** Visiting mode m with its column col appends the column's mean when m is listed and kept, and changes nothing else. */
  lemma ColumnMeansStep(hist: map<Mode, seq<real>>, splits: seq<Util.ModeStats>, stat: SplitStat, m: Mode,
                        h: map<Mode, seq<real>>, col: seq<real>)
    requires |splits| > 0 && h == AppendBelow(hist, ColumnMeans(splits, stat), m)
    requires Listed(splits, stat, m) ==>
      (forall j :: 0 <= j < |splits| ==> EntryOf(splits[j], stat, m).Some?) && col == ModeColumn(splits, stat, m)
    ensures AppendBelow(hist, ColumnMeans(splits, stat), m + 1) ==
      if Listed(splits, stat, m) && m in h then h[m := h[m] + [Mean(col)]] else h
  {
    if !Listed(splits, stat, m) {
      assert m !in ColumnMeans(splits, stat);
    }
  }

  /** A mode m whose column is complete extends the coverage to the modes below m + 1. */
  lemma CoveredBelowStep(splits: seq<Util.ModeStats>, stat: SplitStat, m: Mode)
    requires |splits| > 0 && CoveredBelow(splits, stat, m)
    requires Listed(splits, stat, m) ==> forall j :: 0 <= j < |splits| ==> EntryOf(splits[j], stat, m).Some?
    ensures CoveredBelow(splits, stat, m + 1)
  {
    forall n: Mode, j | n < m + 1 && 0 <= j < |splits| && Listed(splits, stat, n)
      ensures EntryOf(splits[j], stat, n).Some?
    {
      if n < m {
        assert CoveredBelow(splits, stat, m);
      }
    }
  }

  /** Once every mode is visited with the column means, the histories are those of WithMeans. */
  lemma MeansBelowAll(hist: map<Mode, seq<real>>, splits: seq<Util.ModeStats>, stat: SplitStat)
    requires |splits| > 0 && CoveredBelow(splits, stat, NumModes)
    ensures Covered(splits, stat)
    ensures AppendBelow(hist, ColumnMeans(splits, stat), NumModes) == WithMeans(hist, splits, stat)
  {
    var add := ColumnMeans(splits, stat);
    AppendBelowAt(hist, add, NumModes);
    var r := AppendBelow(hist, add, NumModes);
    var w := WithMeans(hist, splits, stat);
    forall m | m in hist ensures r[m] == w[m] {
      if Listed(splits, stat, m) {
        assert m in add;
      } else {
        assert m !in add;
      }
    }
  }

  /**
   * A replication's ratio table that describes its choices gives ratios in
   * (0, 1], so every appended mean ratio lies in (0, 1] as well.
   */
  lemma AppendedRatiosInUnitInterval(hist: map<Mode, seq<real>>, splits: seq<Util.ModeStats>,
                                     choices: seq<seq<Mode>>, m: Mode)
    requires Covered(splits, Ratio) && |choices| == |splits|
    requires forall j :: 0 <= j < |splits| ==> Util.Describes(splits[j], choices[j])
    requires m in hist && Listed(splits, Ratio, m)
    ensures var h := WithMeans(hist, splits, Ratio)[m];
      |h| == |hist[m]| + 1 && 0.0 < h[|h| - 1] <= 1.0
  {
    var col := ModeColumn(splits, Ratio, m);
    forall j | 0 <= j < |splits| ensures 0.0 < col[j] <= 1.0 {
      assert EntryOf(splits[j], Ratio, m).Some?;
      Util.RatiosInUnitInterval(splits[j], choices[j], m);
    }
    MeanBounds(col, 0.0, 1.0);
    MeanPositive(col);
  }

  /** The mean of positive values is positive. */
  lemma MeanPositive(xs: seq<real>)
    requires |xs| > 0 && forall k :: 0 <= k < |xs| ==> xs[k] > 0.0
    ensures Mean(xs) > 0.0
  {
    var lo, hi := xs[0], xs[0];
    var k := 1;
    while k < |xs|
      invariant 1 <= k <= |xs| && lo > 0.0 && forall j :: 0 <= j < k ==> lo <= xs[j] <= hi
    {
      if xs[k] < lo { lo := xs[k]; }
      if xs[k] > hi { hi := xs[k]; }
      k := k + 1;
    }
    MeanBounds(xs, lo, hi);
  }

  // ------------------------------------------------------------ convergence

  function Abs(x: real): real { if x < 0.0 then -x else x }

  /**
   * Lines 315-319: from the second iteration on, the loop stops once the NSM
   * share, in percent, moved by at most the threshold since the previous
   * iteration.
   */
  predicate Converged(nsmRatios: seq<real>, i: nat, threshold: real)
    requires i < |nsmRatios|
  {
    i > 0 && Abs(Abs(nsmRatios[i]) * 100.0 - Abs(nsmRatios[i - 1]) * 100.0) <= threshold
  }

  /**
   * For shares between 0 and 1 the threshold is in percentage points: the
   * loop stops exactly when the share moved by at most threshold / 100.
   */
  lemma ConvergedInPercentagePoints(nsmRatios: seq<real>, i: nat, threshold: real)
    requires 0 < i < |nsmRatios| && 0.0 <= nsmRatios[i] && 0.0 <= nsmRatios[i - 1]
    ensures Converged(nsmRatios, i, threshold) <==> Abs(nsmRatios[i] - nsmRatios[i - 1]) * 100.0 <= threshold
  {
    var d := nsmRatios[i] - nsmRatios[i - 1];
    assert nsmRatios[i] * 100.0 - nsmRatios[i - 1] * 100.0 == d * 100.0;
    assert Abs(d * 100.0) == Abs(d) * 100.0;
  }

  /**
   * Shares 1.5% then 1.41% moved by 0.09 percentage points: a threshold of
   * 0.5 stops the loop, one of 0.02 does not; the first iteration never stops.
   */
  lemma ConvergenceExamples()
    ensures Converged([0.015, 0.0141], 1, 0.5)
    ensures !Converged([0.015, 0.0141], 1, 0.02)
    ensures forall h: seq<real>, t: real :: |h| > 0 ==> !Converged(h, 0, t)
  {
    assert Abs(Abs(0.0141) * 100.0 - Abs(0.015) * 100.0) == 0.09;
  }

  // ------------------------------------------------------------ the final report

  /** The result file's rows: NSM KPIs, the stopping flags, and each mode's share in percent. */
  datatype Report = Report(occupancy: real, serviceRate: real, waitTime: real, carTimeRatio: real,
                           triggered: bool, lastIter: int, numIterations: nat, modeSplit: seq<real>)

  /** Entry idx of a tracked raw history; None where the key or the index is missing. */
  function RawAt(values: map<string, Slot>, s: string, idx: nat): Option<real> {
    if s in values && values[s].Series? && idx < |values[s].xs| then Some(values[s].xs[idx]) else None
  }

  /**
   * The report read at raw index `kpiIdx` of the NSM histories and index i
   * of the mode histories; fails where a lookup raises.
   */
  function ReportAt(values: map<string, Slot>, ratios: map<Mode, seq<real>>, kpiIdx: nat, i: nat,
                    triggered: bool, lastIter: int, numIterations: nat): (r: Result<Report>)
    ensures r.Success? <==>
      && KpisReadable(values, kpiIdx)
      && (forall m: Mode :: m in ratios && i < |ratios[m]|)
    ensures r.Success? ==>
      && r.value.occupancy == RawAt(values, "occupancy", kpiIdx).value
      && r.value.serviceRate == RawAt(values, "service_rate", kpiIdx).value * 100.0
      && r.value.waitTime == RawAt(values, "nsm_wait_time", kpiIdx).value
      && r.value.carTimeRatio == RawAt(values, "nsm_car_time_ratio", kpiIdx).value
      && |r.value.modeSplit| == NumModes
      && (forall m: Mode :: r.value.modeSplit[m] == ratios[m][i] * 100.0)
      && r.value.triggered == triggered && r.value.lastIter == lastIter && r.value.numIterations == numIterations
  {
    var occ := RawAt(values, "occupancy", kpiIdx);
    var sr := RawAt(values, "service_rate", kpiIdx);
    var wait := RawAt(values, "nsm_wait_time", kpiIdx);
    var ratio := RawAt(values, "nsm_car_time_ratio", kpiIdx);
    if occ.None? || sr.None? || wait.None? || ratio.None? then Failure("IndexError: list index out of range")
    else if !forall m: Mode :: m in ratios && i < |ratios[m]| then Failure("IndexError: list index out of range")
    else
      Success(Report(occ.value, sr.value * 100.0, wait.value, ratio.value, triggered, lastIter, numIterations,
                     [ratios[0][i] * 100.0, ratios[1][i] * 100.0, ratios[2][i] * 100.0,
                      ratios[3][i] * 100.0, ratios[4][i] * 100.0]))
  }

  /** The four reported KPIs all have an entry at index idx. */
  predicate KpisReadable(values: map<string, Slot>, idx: nat) {
    && RawAt(values, "occupancy", idx).Some? && RawAt(values, "service_rate", idx).Some?
    && RawAt(values, "nsm_wait_time", idx).Some? && RawAt(values, "nsm_car_time_ratio", idx).Some?
  }

  /** History s is a list of n values. */
  predicate HasLength(values: map<string, Slot>, s: string, n: nat) {
    s in values && values[s].Series? && |values[s].xs| == n
  }

  /** The four reported KPI histories each hold n values. */
  predicate KpisHaveLength(values: map<string, Slot>, n: nat) {
    && HasLength(values, "occupancy", n) && HasLength(values, "service_rate", n)
    && HasLength(values, "nsm_wait_time", n) && HasLength(values, "nsm_car_time_ratio", n)
  }

  /** Lines 338-344 as written: the NSM KPIs are read at index i of their raw histories. */
  function ReportAsWritten(values: map<string, Slot>, ratios: map<Mode, seq<real>>, i: nat,
                           triggered: bool, lastIter: int, numIterations: nat): Result<Report>
  {
    ReportAt(values, ratios, i, i, triggered, lastIter, numIterations)
  }

  /**
   * The report as evidently intended: the raw histories start with the seed,
   * so iteration i's measurement sits at index i + 1.
   */
  function ReportCorrected(values: map<string, Slot>, ratios: map<Mode, seq<real>>, i: nat,
                           triggered: bool, lastIter: int, numIterations: nat): Result<Report>
  {
    ReportAt(values, ratios, i + 1, i, triggered, lastIter, numIterations)
  }

  /**
   * After iterations 0..i every reported KPI history holds the seed and i + 1
   * measurements; the corrected report then succeeds exactly when every mode
   * history reaches index i, and carries the last iteration's measurements.
   */
  lemma CorrectedReportsLastMeasurement(values: map<string, Slot>, ratios: map<Mode, seq<real>>, i: nat,
                                        triggered: bool, lastIter: int, numIterations: nat)
    requires KpisHaveLength(values, i + 2)
    requires forall m: Mode :: m in ratios
    ensures var r := ReportCorrected(values, ratios, i, triggered, lastIter, numIterations);
      && (r.Success? <==> forall m: Mode :: i < |ratios[m]|)
      && (r.Success? ==>
        && r.value.occupancy == Last(values["occupancy"].xs)
        && r.value.serviceRate == Last(values["service_rate"].xs) * 100.0
        && r.value.waitTime == Last(values["nsm_wait_time"].xs)
        && r.value.carTimeRatio == Last(values["nsm_car_time_ratio"].xs)
        && |r.value.modeSplit| == NumModes
        && forall m: Mode :: r.value.modeSplit[m] == ratios[m][i] * 100.0)
  {
  }

  /**
   * The as-written report after a single iteration (i = 0) that measured an
   * occupancy of 2.5 reports the seed 1.0 instead; the corrected one reports
   * 2.5.
   */
  lemma ReportIndexCounterexample()
    ensures var values := map["occupancy" := Series([1.0, 2.5]), "service_rate" := Series([0.2, 0.6]),
                              "nsm_wait_time" := Series([150.0, 300.0]), "nsm_car_time_ratio" := Series([1.5, 2.0])];
            var ratios: map<Mode, seq<real>> := map[0 := [0.1], 1 := [0.1], 2 := [0.3], 3 := [0.3], 4 := [0.2]];
            && ReportAsWritten(values, ratios, 0, false, 1, 1).Success?
            && ReportAsWritten(values, ratios, 0, false, 1, 1).value.occupancy == 1.0
            && ReportCorrected(values, ratios, 0, false, 1, 1).Success?
            && ReportCorrected(values, ratios, 0, false, 1, 1).value.occupancy == 2.5
  {
    var values := map["occupancy" := Series([1.0, 2.5]), "service_rate" := Series([0.2, 0.6]),
                       "nsm_wait_time" := Series([150.0, 300.0]), "nsm_car_time_ratio" := Series([1.5, 2.0])];
    assert KpisReadable(values, 1);
  }

  // ------------------------------------------------------------ coefficient means

  /**
   * One replication's estimated choice model: the coefficient names in the
   * order the estimator lists them, their values and their robust p-values.
   */
  datatype ModelFit = ModelFit(names: seq<string>, value: map<string, real>, pval: map<string, real>)

  /** Every replication estimated coefficient s. */
  predicate Estimated(fits: seq<ModelFit>, s: string) {
    forall j :: 0 <= j < |fits| ==> s in fits[j].value && s in fits[j].pval
  }

  /** There is a first replication, and every replication estimated each coefficient it lists. */
  predicate FitsAgree(fits: seq<ModelFit>) {
    |fits| > 0 && forall k :: 0 <= k < |fits[0].names| ==> Estimated(fits, fits[0].names[k])
  }

  function ValueColumn(fits: seq<ModelFit>, s: string): (c: seq<real>)
    requires Estimated(fits, s)
    ensures |c| == |fits| && forall j :: 0 <= j < |fits| ==> c[j] == fits[j].value[s]
  {
    seq(|fits|, j requires 0 <= j < |fits| => fits[j].value[s])
  }

  function PvalColumn(fits: seq<ModelFit>, s: string): (c: seq<real>)
    requires Estimated(fits, s)
    ensures |c| == |fits| && forall j :: 0 <= j < |fits| ==> c[j] == fits[j].pval[s]
  {
    seq(|fits|, j requires 0 <= j < |fits| => fits[j].pval[s])
  }

  /** The `add` call for coefficient s: its mean value and its mean p-value over the replications. */
  function CoefficientEntry(fits: seq<ModelFit>, s: string): Entry
    requires |fits| > 0 && Estimated(fits, s)
  {
    Entry(s, Mean(ValueColumn(fits, s)), Mean(PvalColumn(fits, s)))
  }

  /** The `add` calls of lines 299-305, one per coefficient of the first replication, in its order. */
  function CoefficientEntries(fits: seq<ModelFit>): (es: seq<Entry>)
    requires FitsAgree(fits)
    ensures |es| == |fits[0].names|
    ensures forall k :: 0 <= k < |es| ==> es[k] == CoefficientEntry(fits, fits[0].names[k])
  {
    seq(|fits[0].names|, k requires 0 <= k < |fits[0].names| => CoefficientEntry(fits, fits[0].names[k]))
  }

  /**
   * A coefficient estimated within [lo, hi] by every replication, with
   * p-values in [0, 1], is tracked with a mean in [lo, hi] and a mean p-value
   * in [0, 1]; with a single replication these are that replication's
   * estimate and p-value.
   */
  lemma CoefficientEntryBounds(fits: seq<ModelFit>, s: string, lo: real, hi: real)
    requires |fits| > 0 && Estimated(fits, s)
    requires forall j :: 0 <= j < |fits| ==> lo <= fits[j].value[s] <= hi && 0.0 <= fits[j].pval[s] <= 1.0
    ensures lo <= CoefficientEntry(fits, s).value <= hi
    ensures 0.0 <= CoefficientEntry(fits, s).pval <= 1.0
    ensures |fits| == 1 ==> CoefficientEntry(fits, s) == Entry(s, fits[0].value[s], fits[0].pval[s])
  {
    var vs, ps := ValueColumn(fits, s), PvalColumn(fits, s);
    MeanBounds(vs, lo, hi);
    MeanBounds(ps, 0.0, 1.0);
    if |fits| == 1 {
      MeanConstant(vs, fits[0].value[s]);
      MeanConstant(ps, fits[0].pval[s]);
    }
  }

  /** Lines 300-304: coefficient s's values and p-values over the replications; None where one lacks s (KeyError). */
  method CollectFit(fits: seq<ModelFit>, s: string) returns (r: Option<(seq<real>, seq<real>)>)
    ensures r.Some? <==> Estimated(fits, s)
    ensures r.Some? ==> r.value == (ValueColumn(fits, s), PvalColumn(fits, s))
  {
    var vals, pvals := [], [];
    for j := 0 to |fits|
      invariant |vals| == j && |pvals| == j
      invariant forall q :: 0 <= q < j ==> s in fits[q].value && s in fits[q].pval
      invariant forall q :: 0 <= q < j ==> vals[q] == fits[q].value[s] && pvals[q] == fits[q].pval[s]
    {
      if s !in fits[j].value || s !in fits[j].pval {
        return None;
      }
      vals := vals + [fits[j].value[s]];
      pvals := pvals + [fits[j].pval[s]];
    }
    assert vals == ValueColumn(fits, s) && pvals == PvalColumn(fits, s);
    return Some((vals, pvals));
  }

  /**
   * Lines 299-305 before the `add` calls: one entry per coefficient the first
   * replication lists.  None on an empty list (IndexError) or where a
   * replication lacks one of those coefficients (KeyError).
   */
  method CoefficientMeans(fits: seq<ModelFit>) returns (r: Option<seq<Entry>>)
    ensures r.Some? <==> FitsAgree(fits)
    ensures r.Some? ==> r.value == CoefficientEntries(fits)
  {
    if |fits| == 0 {
      return None;
    }
    var names := fits[0].names;
    var es: seq<Entry> := [];
    for k := 0 to |names|
      invariant |es| == k
      invariant forall q :: 0 <= q < k ==> Estimated(fits, names[q]) && es[q] == CoefficientEntry(fits, names[q])
    {
      var col := CollectFit(fits, names[k]);
      if col.None? {
        return None;
      }
      es := es + [Entry(names[k], Mean(col.value.0), Mean(col.value.1))];
    }
    return Some(es);
  }

  // ------------------------------------------------------------ the loop's state

  /** The p-value `add` records when the caller gives none. */
  const DefaultPval: real := 1.0

  /** v holds each statistic the NSM tracker is seeded with. */
  predicate HoldsNsmStats(v: map<string, Slot>) {
    && "occupancy" in v && "service_rate" in v && "nsm_car_time_ratio" in v
    && "nsm_wait_time" in v && "nsm_travel_time" in v && "car_time" in v
  }

  /** Every statistic the NSM tracker is seeded with is held as a list. */
  predicate ListsNsmStats(v: map<string, Slot>) {
    && HoldsNsmStats(v)
    && v["occupancy"].Series? && v["service_rate"].Series? && v["nsm_car_time_ratio"].Series?
    && v["nsm_wait_time"].Series? && v["nsm_travel_time"].Series? && v["car_time"].Series?
  }

  /** Lines 141-142: the simulator's mean service rate ("modal split") and mean occupancy. */
  function ServiceEntries(simstats: map<string, FleetPy.KpiStat>): seq<Entry>
    requires "modal split" in simstats && simstats["modal split"].mean.Finite?
    requires "occupancy" in simstats && simstats["occupancy"].mean.Finite?
  {
    [Entry("service_rate", simstats["modal split"].mean.x, DefaultPval),
     Entry("occupancy", simstats["occupancy"].mean.x, DefaultPval)]
  }

  /** Lines 146-148: the four user statistics' means, in the order `calc_userstats_allreps` builds them. */
  function UserEntries(us: FleetPy.UserStats): seq<Entry> {
    [Entry("nsm_wait_time", us.nsmWaitTime.mean, DefaultPval),
     Entry("nsm_travel_time", us.nsmTravelTime.mean, DefaultPval),
     Entry("car_time", us.carTime.mean, DefaultPval),
     Entry("nsm_car_time_ratio", us.nsmCarTimeRatio.mean, DefaultPval)]
  }

  /** The two seed tables' names: the NSM statistics, and coefficients none of which is "pval". */
  lemma SeedNames()
    ensures "occupancy" in Names(NsmSeeds) && "service_rate" in Names(NsmSeeds) && "nsm_car_time_ratio" in Names(NsmSeeds)
    ensures "nsm_wait_time" in Names(NsmSeeds) && "nsm_travel_time" in Names(NsmSeeds) && "car_time" in Names(NsmSeeds)
    ensures Reserved !in Names(NsmSeeds) && Reserved !in Names(InitModel)
  {
    assert Names(NsmSeeds) == ["occupancy", "service_rate", "nsm_car_time_ratio", "nsm_wait_time", "nsm_travel_time", "car_time"];
    assert Names(InitModel) == ["ASC_WALK", "ASC_BIKE", "ASC_CAR", "ASC_PT", "ASC_NSM", "B_COST", "B_TIME", "B_RISK"];
  }

  /** Every user statistic is one the NSM tracker holds. */
  lemma UserEntriesKnown(v: map<string, Slot>, us: FleetPy.UserStats)
    requires HoldsNsmStats(v)
    requires Reserved !in v
    ensures forall j :: 0 <= j < |UserEntries(us)| ==> UserEntries(us)[j].stat in v && UserEntries(us)[j].stat != Reserved
  {
  }

  /** Both simulator statistics are ones the NSM tracker holds. */
  lemma ServiceEntriesKnown(v: map<string, Slot>, simstats: map<string, FleetPy.KpiStat>)
    requires HoldsNsmStats(v)
    requires Reserved !in v
    requires "modal split" in simstats && simstats["modal split"].mean.Finite?
    requires "occupancy" in simstats && simstats["occupancy"].mean.Finite?
    ensures forall j :: 0 <= j < |ServiceEntries(simstats)| ==>
      ServiceEntries(simstats)[j].stat in v && ServiceEntries(simstats)[j].stat != Reserved
  {
  }

  /**
   * After the simulator statistics and then the user statistics are added,
   * each reported KPI history has grown by one and ends with this
   * iteration's measurement, and the other statistics keep their histories'
   * kind.
   */
  lemma MeasurementsRecorded(v0: map<string, Slot>, simstats: map<string, FleetPy.KpiStat>, us: FleetPy.UserStats)
    requires "modal split" in simstats && simstats["modal split"].mean.Finite?
    requires "occupancy" in simstats && simstats["occupancy"].mean.Finite?
    requires ListsNsmStats(v0)
    ensures var v := Appended(Appended(v0, ValueItems(ServiceEntries(simstats))), ValueItems(UserEntries(us)));
      && ListsNsmStats(v)
      && |v["service_rate"].xs| > 0 && |v["occupancy"].xs| > 0
      && |v["nsm_wait_time"].xs| > 0 && |v["nsm_car_time_ratio"].xs| > 0
    ensures var v := Appended(Appended(v0, ValueItems(ServiceEntries(simstats))), ValueItems(UserEntries(us)));
      && (forall n: nat :: KpisHaveLength(v0, n) ==> KpisHaveLength(v, n + 1))
      && Last(v["service_rate"].xs) == simstats["modal split"].mean.x
      && Last(v["occupancy"].xs) == simstats["occupancy"].mean.x
      && Last(v["nsm_wait_time"].xs) == us.nsmWaitTime.mean
      && Last(v["nsm_car_time_ratio"].xs) == us.nsmCarTimeRatio.mean
  {
    ServiceRecorded(v0, simstats);
    UserRecorded(Appended(v0, ValueItems(ServiceEntries(simstats))), us);
  }

  /** Lines 141-142: the service rate and occupancy histories each gain this iteration's mean. */
  lemma ServiceRecorded(v0: map<string, Slot>, simstats: map<string, FleetPy.KpiStat>)
    requires "modal split" in simstats && simstats["modal split"].mean.Finite?
    requires "occupancy" in simstats && simstats["occupancy"].mean.Finite?
    requires ListsNsmStats(v0)
    ensures var v := Appended(v0, ValueItems(ServiceEntries(simstats)));
      && ListsNsmStats(v)
      && v["service_rate"] == Series(v0["service_rate"].xs + [simstats["modal split"].mean.x])
      && v["occupancy"] == Series(v0["occupancy"].xs + [simstats["occupancy"].mean.x])
      && v["nsm_wait_time"] == v0["nsm_wait_time"] && v["nsm_car_time_ratio"] == v0["nsm_car_time_ratio"]
  {
    var a := ValueItems(ServiceEntries(simstats));
    assert Names(a) == ["service_rate", "occupancy"];
    AppendedAt(v0, a, 0);
    AppendedAt(v0, a, 1);
    AppendedOther(v0, a, "nsm_wait_time");
    AppendedOther(v0, a, "nsm_car_time_ratio");
  }

  /** Lines 146-148: the wait-time and car-time-ratio histories each gain this iteration's mean. */
  lemma UserRecorded(v0: map<string, Slot>, us: FleetPy.UserStats)
    requires ListsNsmStats(v0)
    ensures var v := Appended(v0, ValueItems(UserEntries(us)));
      && ListsNsmStats(v)
      && v["nsm_wait_time"] == Series(v0["nsm_wait_time"].xs + [us.nsmWaitTime.mean])
      && v["nsm_car_time_ratio"] == Series(v0["nsm_car_time_ratio"].xs + [us.nsmCarTimeRatio.mean])
      && v["service_rate"] == v0["service_rate"] && v["occupancy"] == v0["occupancy"]
  {
    var b := ValueItems(UserEntries(us));
    assert Names(b) == ["nsm_wait_time", "nsm_travel_time", "car_time", "nsm_car_time_ratio"];
    AppendedAt(v0, b, 0);
    AppendedAt(v0, b, 3);
    AppendedOther(v0, b, "service_rate");
    AppendedOther(v0, b, "occupancy");
  }

  // ------------------------------------------------------------ one iteration

  /** The two simulator statistics lines 141-142 read are present and finite. */
  predicate ServiceReadable(simstats: map<string, FleetPy.KpiStat>) {
    && "modal split" in simstats && simstats["modal split"].mean.Finite?
    && "occupancy" in simstats && simstats["occupancy"].mean.Finite?
  }

  /** Lines 133-138: each mode the splits list gains the mean of its column in history h1 and nothing else changes. */
  ghost predicate SplitsRecorded(h0: map<Mode, seq<real>>, h1: map<Mode, seq<real>>, splits: seq<Util.ModeStats>, stat: SplitStat) {
    Covered(splits, stat) && h1 == WithMeans(h0, splits, stat)
  }

  /** Lines 141-148: the NSM histories gain the mean service rate and occupancy, then the travellers' means. */
  ghost predicate NsmRecorded(v0: map<string, Slot>, v1: map<string, Slot>, m: InnerLoop.Measurement) {
    && ServiceReadable(m.simstats)
    && v1 == Appended(Appended(v0, ValueItems(ServiceEntries(m.simstats))), ValueItems(UserEntries(m.us)))
  }

  /** Two distinct valid trackers; the NSM one holds every NSM statistic, neither holds "pval". */
  ghost predicate TrackersHold(n: StatGroup, c: StatGroup)
    reads n, c
  {
    && n != c
    && n.Valid() && c.Valid()
    && HoldsNsmStats(n.value)
    && Reserved !in n.value && Reserved !in c.value
  }

  /** Freshly seeded trackers hold what the loop's steps rely on, and each reported KPI holds just its seed. */
  lemma SeededTrackers(n: StatGroup, c: StatGroup)
    requires n != c && n.Valid() && c.Valid() && n.names == Names(NsmSeeds) && c.names == Names(InitModel)
    requires forall k :: 0 <= k < |NsmSeeds| ==> n.Seeded(NsmSeeds[k].0, NsmSeeds[k].1)
    ensures TrackersHold(n, c)
    ensures KpisHaveLength(n.value, 1)
  {
    SeedNames();
    assert n.Seeded(NsmSeeds[0].0, NsmSeeds[0].1) && n.Seeded(NsmSeeds[1].0, NsmSeeds[1].1);
    assert n.Seeded(NsmSeeds[2].0, NsmSeeds[2].1) && n.Seeded(NsmSeeds[3].0, NsmSeeds[3].1);
  }

  /**
   * Lines 141-153 of the setup: the NSM tracker seeded from NsmSeeds and the
   * choice tracker from InitModel, both with the smoothing weight 0.25.
   */
  method NewTrackers() returns (n: StatGroup, c: StatGroup)
    ensures fresh(n) && fresh(c) && TrackersHold(n, c)
    ensures n.weight == WeightAlpha && c.weight == WeightAlpha
    ensures KpisHaveLength(n.value, 1)
  {
    SeedTablesDistinct();
    n := new StatGroup(NsmSeeds, WeightAlpha);
    c := new StatGroup(InitModel, WeightAlpha);
    SeededTrackers(n, c);
  }

  /** The seed table has a history for every mode. */
  lemma ModeStatsSeedComplete()
    ensures forall m: Mode :: m in ModeStatsSeed
  {
    forall m: Mode ensures m in ModeStatsSeed {
      assert m == 0 || m == 1 || m == 2 || m == 3 || m == 4;
    }
  }

  /**
   * The feedback loop's state (lines 37, 50 and 141-163 of the setup): the
   * NSM and choice-model trackers, the per-mode split histories, and the
   * stopping flags.
   */
  class Framework {
    /** `nsmstats`: the NSM service-quality tracker. */
    const nsmstats: StatGroup
    /** `choicestats`: the choice-model coefficient tracker. */
    const choicestats: StatGroup
    /** `num_iterations`: the iteration cap. */
    const numIterations: nat
    /** `modestats["ratio"]` and `modestats["count"]`: one history per mode. */
    var modeRatio: map<Mode, seq<real>>
    var modeCount: map<Mode, seq<real>>
    /** `last_iter` and `stop_loop_threshold_triggered`. */
    var lastIter: int
    var triggered: bool
    /** The iterations whose results have been recorded in full; the report reads iteration recorded - 1. */
    var recorded: nat

    ghost predicate Valid()
      reads this`modeRatio, this`modeCount, nsmstats, choicestats
    {
      TrackersOk() && HistoriesOk()
    }

    ghost predicate TrackersOk()
      reads nsmstats, choicestats
    {
      TrackersHold(nsmstats, choicestats)
    }

    /** One split history per mode in both tables. */
    ghost predicate HistoriesOk()
      reads this`modeRatio, this`modeCount
    {
      forall m: Mode :: m in modeRatio && m in modeCount
    }

    /** Each reported KPI holds its seed and one measurement per recorded iteration. */
    ghost predicate Measured()
      reads this`recorded, nsmstats
    {
      KpisHaveLength(nsmstats.value, recorded + 1)
    }

    /**
     * Both trackers seeded with the smoothing weight 0.25, empty mode
     * histories, the flag cleared and the last iteration set to the cap.
     */
    constructor (n: StatGroup, c: StatGroup, numIterations: nat)
      requires TrackersHold(n, c) && KpisHaveLength(n.value, 1)
      ensures Valid() && Measured() && recorded == 0
      ensures nsmstats == n && choicestats == c
      ensures this.numIterations == numIterations && modeRatio == ModeStatsSeed && modeCount == ModeStatsSeed
      ensures lastIter == numIterations && !triggered
    {
      nsmstats, choicestats := n, c;
      this.numIterations := numIterations;
      modeRatio, modeCount := ModeStatsSeed, ModeStatsSeed;
      lastIter, triggered := numIterations, false;
      recorded := 0;
      ModeStatsSeedComplete();
    }

    /** Every NSM statistic is held as a list. */
    lemma NsmListsHeld()
      requires TrackersOk()
      ensures ListsNsmStats(nsmstats.value)
    {
      ListsHeld(nsmstats);
    }

    /**
     * Lines 133-138: the ratio table, then the count table; each mode the
     * first replication lists gains the mean over the replications.  False
     * where the list is empty or a replication lacks a listed mode; the
     * histories then stay as they were.
     */
    method RecordModeSplit(splits: seq<Util.ModeStats>) returns (ok: bool)
      requires HistoriesOk()
      modifies this
      ensures HistoriesOk() && recorded == old(recorded) && lastIter == old(lastIter) && triggered == old(triggered)
      ensures ok <==> Covered(splits, Ratio) && Covered(splits, Count)
      ensures ok ==> modeRatio == WithMeans(old(modeRatio), splits, Ratio) && modeCount == WithMeans(old(modeCount), splits, Count)
      ensures !ok ==> modeRatio == old(modeRatio) && modeCount == old(modeCount)
    {
      var ratio := AppendModeMeans(modeRatio, splits, Ratio);
      if ratio.None? {
        return false;
      }
      var count := AppendModeMeans(modeCount, splits, Count);
      if count.None? {
        return false;
      }
      modeRatio, modeCount := ratio.value, count.value;
      ok := true;
    }

    /**
     * Lines 141-142: the simulator's mean service rate and mean occupancy
     * are added to the NSM tracker with the default p-value.  False (KeyError)
     * where the simulator statistics lack either key.
     */
    method RecordServiceStats(simstats: map<string, FleetPy.KpiStat>) returns (ok: bool)
      requires TrackersOk()
      requires "modal split" in simstats ==> simstats["modal split"].mean.Finite?
      requires "occupancy" in simstats ==> simstats["occupancy"].mean.Finite?
      modifies nsmstats
      ensures TrackersOk()
      ensures ok <==> "modal split" in simstats && "occupancy" in simstats
      ensures ok ==> nsmstats.value == Appended(old(nsmstats.value), ValueItems(ServiceEntries(simstats)))
      ensures ok ==> nsmstats.pval == Appended(old(nsmstats.pval), PvalItems(ServiceEntries(simstats)))
      ensures !ok ==> nsmstats.value == old(nsmstats.value) && nsmstats.pval == old(nsmstats.pval)
    {
      if "modal split" !in simstats || "occupancy" !in simstats {
        return false;
      }
      ServiceEntriesKnown(nsmstats.value, simstats);
      ok := AddEach(nsmstats, ServiceEntries(simstats));
    }

    /** Lines 146-148: each user statistic's mean is added to the NSM tracker; every one is seeded. */
    method RecordUserStats(us: FleetPy.UserStats)
      requires TrackersOk()
      modifies nsmstats
      ensures TrackersOk()
      ensures nsmstats.value == Appended(old(nsmstats.value), ValueItems(UserEntries(us)))
      ensures nsmstats.pval == Appended(old(nsmstats.pval), PvalItems(UserEntries(us)))
    {
      UserEntriesKnown(nsmstats.value, us);
      var ok := AddEach(nsmstats, UserEntries(us));
      assert ok;
    }

    /**
     * Lines 299-305: each coefficient's mean value and mean p-value over the
     * replications is added to the choice tracker.  False on an empty list,
     * a replication missing a coefficient, or a coefficient that was never
     * seeded (KeyError).
     */
    method RecordCoefficients(fits: seq<ModelFit>) returns (ok: bool)
      requires TrackersOk()
      modifies choicestats
      ensures TrackersOk()
      ensures ok <==> FitsAgree(fits) && forall k :: 0 <= k < |fits[0].names| ==> fits[0].names[k] in old(choicestats.value)
      ensures ok ==> choicestats.value == Appended(old(choicestats.value), ValueItems(CoefficientEntries(fits)))
      ensures ok ==> choicestats.pval == Appended(old(choicestats.pval), PvalItems(CoefficientEntries(fits)))
    {
      var es := CoefficientMeans(fits);
      if es.None? {
        return false;
      }
      ok := AddEach(choicestats, es.value);
    }

    /**
     * Lines 315-324: from the second iteration on, when the NSM share moved
     * by at most the threshold since the previous iteration, the flag is set,
     * the last iteration recorded and the loop stops (Success(true)).  Fails
     * (IndexError) where the NSM history does not reach index i.
     */
    method CheckConvergence(i: nat, threshold: real) returns (r: Result<bool>)
      requires Nsm in modeRatio
      modifies this
      ensures modeRatio == old(modeRatio) && modeCount == old(modeCount) && recorded == old(recorded)
      ensures r.Failure? <==> 0 < i && |modeRatio[Nsm]| <= i
      ensures r.Success? ==> (r.value <==> 0 < i && i < |modeRatio[Nsm]| && Converged(modeRatio[Nsm], i, threshold))
      ensures r == Success(true) ==> triggered && lastIter == i
      ensures r != Success(true) ==> triggered == old(triggered) && lastIter == old(lastIter)
    {
      if i == 0 {
        return Success(false);
      }
      if |modeRatio[Nsm]| <= i {
        return Failure("IndexError: list index out of range");
      }
      if Converged(modeRatio[Nsm], i, threshold) {
        triggered, lastIter := true, i;
        return Success(true);
      }
      return Success(false);
    }

    /**
     * Lines 130-142 of one iteration: the simulator's statistics over the
     * evaluation files that were read, the mode split histories, then the
     * mean service rate and occupancy.
     */
    method RecordSimulatorStats(splits: seq<Util.ModeStats>, evals: seq<Option<FleetPy.EvalTable>>)
      returns (r: Result<map<string, FleetPy.KpiStat>>)
      requires Valid()
      modifies this, nsmstats
      ensures Valid() && recorded == old(recorded) && lastIter == old(lastIter) && triggered == old(triggered)
      ensures r.Success? ==> !FleetPy.TooManyMissing(FleetPy.Missing(evals), |evals|)
      ensures r.Success? ==> |FleetPy.Present(evals)| > 0 && FleetPy.KeysKnown(FleetPy.Present(evals))
      ensures r.Success? ==> r.value == FleetPy.Simstats(FleetPy.Present(evals)) && ServiceReadable(r.value)
      ensures r.Success? ==> Covered(splits, Ratio) && Covered(splits, Count)
      ensures r.Success? ==> modeRatio == WithMeans(old(modeRatio), splits, Ratio) && modeCount == WithMeans(old(modeCount), splits, Count)
      ensures r.Success? ==> nsmstats.value == Appended(old(nsmstats.value), ValueItems(ServiceEntries(r.value)))
      ensures r.Success? ==> nsmstats.pval == Appended(old(nsmstats.pval), PvalItems(ServiceEntries(r.value)))
    {
      var simdata := FleetPy.GetFleetpySimdataAllreps(evals);
      if simdata.Failure? {
        return Failure(simdata.error);
      }
      var simstats := FleetPy.CalcFleetpySimstats(simdata.value);
      if simstats.Failure? {
        return Failure(simstats.error);
      }
      var ok := RecordModeSplit(splits);
      if !ok {
        return Failure("IndexError");
      }
      var s := simstats.value;
      if ("modal split" in s && !s["modal split"].mean.Finite?) || ("occupancy" in s && !s["occupancy"].mean.Finite?) {
        return Failure("non-finite simulator mean");
      }
      NsmListsHeld();
      ok := RecordServiceStats(s);
      if !ok {
        return Failure("KeyError");
      }
      r := Success(s);
    }

    /**
     * Lines 143-148 of one iteration: the kept presimulation tables
     * reconciled with the simulator's outcomes, the travellers' statistics
     * over them, and the mean wait time and NSM-to-car time ratio recorded.
     */
    method RecordTravellerStats(demand: seq<seq<Traveler>>, outcomes: seq<Option<seq<FleetPy.Outcome>>>)
      returns (r: Result<(seq<Option<seq<Traveler>>>, FleetPy.UserStats)>)
      requires Valid()
      requires forall j :: 0 <= j < |outcomes| && outcomes[j].Some? ==> FleetPy.UniqueServedIds(outcomes[j].value)
      modifies nsmstats
      ensures Valid()
      ensures r.Success? ==> |r.value.0| == |outcomes| && forall j :: 0 <= j < |outcomes| ==>
        r.value.0[j] == FleetPy.UpdateRequestsUsersServed(InnerLoop.PresimFile(demand, j), outcomes[j])
      ensures r.Success? ==> |r.value.0| > 0 && FleetPy.AllMeasurable(r.value.0) && r.value.1 == FleetPy.UserStatsOf(r.value.0)
      ensures r.Success? ==> nsmstats.value == Appended(old(nsmstats.value), ValueItems(UserEntries(r.value.1)))
      ensures r.Success? ==> nsmstats.pval == Appended(old(nsmstats.pval), PvalItems(UserEntries(r.value.1)))
    {
      var userdata := FleetPy.GetFleetpyUserdataAllreps(InnerLoop.PresimFiles(demand, |outcomes|), outcomes);
      var us := FleetPy.CalcUserstatsAllreps(userdata);
      if us.Failure? {
        return Failure(us.error);
      }
      NsmListsHeld();
      RecordUserStats(us.value);
      r := Success((userdata, us.value));
    }

    /**
     * Lines 130-148 of one iteration: the simulator's statistics and the mode
     * splits, then the travellers' statistics, recorded in that order.
     */
    method RecordMeasurements(demand: seq<seq<Traveler>>, splits: seq<Util.ModeStats>,
                              evals: seq<Option<FleetPy.EvalTable>>, outcomes: seq<Option<seq<FleetPy.Outcome>>>)
      returns (r: Result<InnerLoop.Measurement>)
      requires Valid() && Measured()
      requires forall j :: 0 <= j < |outcomes| && outcomes[j].Some? ==> FleetPy.UniqueServedIds(outcomes[j].value)
      modifies this, nsmstats
      ensures Valid() && recorded == old(recorded) && lastIter == old(lastIter) && triggered == old(triggered)
      ensures r.Success? ==> InnerLoop.MeasuredFrom(r.value, demand, evals, outcomes)
      ensures r.Success? ==> SplitsRecorded(old(modeRatio), modeRatio, splits, Ratio)
      ensures r.Success? ==> SplitsRecorded(old(modeCount), modeCount, splits, Count)
      ensures r.Success? ==> NsmRecorded(old(nsmstats.value), nsmstats.value, r.value)
      ensures r.Success? ==> KpisHaveLength(nsmstats.value, recorded + 2)
    {
      ghost var v0 := nsmstats.value;
      NsmListsHeld();
      var simstats := RecordSimulatorStats(splits, evals);
      if simstats.Failure? {
        return Failure(simstats.error);
      }
      var users := RecordTravellerStats(demand, outcomes);
      if users.Failure? {
        return Failure(users.error);
      }
      r := Success(InnerLoop.Measurement(simstats.value, users.value.0, users.value.1));
      MeasurementsRecorded(v0, simstats.value, users.value.1);
    }

    /**
     * Lines 299-324 of iteration i: the coefficient means recorded, the
     * iteration counted, then the stopping test; Success(true) means the
     * loop stops here.
     */
    method CloseIteration(i: nat, fits: seq<ModelFit>, threshold: real) returns (r: Result<bool>)
      requires Valid() && i == recorded && KpisHaveLength(nsmstats.value, recorded + 2)
      modifies this, choicestats
      ensures unchanged(nsmstats)
      ensures Valid() && modeRatio == old(modeRatio) && modeCount == old(modeCount)
      ensures !FitsAgree(fits) ==> r.Failure?
      ensures r.Success? ==> Measured() && recorded == old(recorded) + 1
      ensures r.Success? ==> FitsAgree(fits) && forall k :: 0 <= k < |fits[0].names| ==> fits[0].names[k] in old(choicestats.value)
      ensures r.Success? ==> choicestats.value == Appended(old(choicestats.value), ValueItems(CoefficientEntries(fits)))
      ensures r.Success? ==> choicestats.pval == Appended(old(choicestats.pval), PvalItems(CoefficientEntries(fits)))
      ensures r.Success? ==> (r.value <==> 0 < i && i < |modeRatio[Nsm]| && Converged(modeRatio[Nsm], i, threshold))
      ensures r == Success(true) ==> triggered && lastIter == i
      ensures r != Success(true) ==> triggered == old(triggered) && lastIter == old(lastIter)
    {
      var ok := RecordCoefficients(fits);
      if !ok {
        return Failure("KeyError");
      }
      recorded := recorded + 1;
      r := CheckConvergence(i, threshold);
    }

    /**
     * Lines 53-148 of one iteration: demand realised from the smoothed values
     * the trackers hold at its start, then the simulator's and the
     * travellers' statistics recorded.
     */
    method Measure(pool: seq<Traveler>, x: InnerLoop.Outside, nsmCost: real, exp: DcaCalc.PositiveFn)
      returns (r: Result<InnerLoop.Simulated>)
      requires Valid() && Measured()
      requires InnerLoop.OutsideFits(pool, x)
      modifies this, nsmstats
      ensures Valid() && recorded == old(recorded) && lastIter == old(lastIter) && triggered == old(triggered)
      ensures r.Success? ==> r.value.nsm0 == old(nsmstats.Current()) && r.value.model0 == old(choicestats.Current())
      ensures r.Success? ==> InnerLoop.SimulatedFrom(pool, x, nsmCost, exp, r.value)
      ensures r.Success? ==> NsmRecorded(old(nsmstats.value), nsmstats.value, r.value.measured)
      ensures r.Success? ==> SplitsRecorded(old(modeRatio), modeRatio, r.value.splits, Ratio)
      ensures r.Success? ==> SplitsRecorded(old(modeCount), modeCount, r.value.splits, Count)
      ensures r.Success? ==> KpisHaveLength(nsmstats.value, recorded + 2)
    {
      var nsm0, model0 := nsmstats.Current(), choicestats.Current();
      var demand, splits := InnerLoop.Presimulation(nsm0, model0, pool, x.draws, nsmCost, exp);
      if demand.Failure? {
        return Failure(demand.error);
      }
      var m := RecordMeasurements(demand.value, splits, x.evals, x.outcomes);
      if m.Failure? {
        return Failure(m.error);
      }
      r := Success(InnerLoop.Simulated(nsm0, model0, InnerLoop.EstimatesOf(nsm0, model0).value, demand.value, splits, m.value));
    }

    /**
     * Lines 53-324, iteration i: the stages of Measure, the re-choice with the
     * NSM values just recorded, then the estimator's coefficients `fits` on
     * the re-chosen tables recorded and the stopping test.  Success(true)
     * means the loop stops here; t names the values each stage used.
     */
    method Iteration(i: nat, pool: seq<Traveler>, x: InnerLoop.Outside, fits: seq<ModelFit>,
                     nsmCost: real, exp: DcaCalc.PositiveFn, threshold: real)
      returns (r: Result<bool>, ghost t: InnerLoop.Trace)
      requires Valid() && Measured() && i == recorded
      requires InnerLoop.OutsideFits(pool, x)
      modifies this, nsmstats, choicestats
      ensures Valid()
      ensures r.Success? ==> Measured() && recorded == old(recorded) + 1
      ensures r.Success? ==> t.run.nsm0 == old(nsmstats.Current()) && t.run.model0 == old(choicestats.Current())
      ensures r.Success? ==> t.nsm1 == nsmstats.Current() && InnerLoop.StagesFrom(pool, x, nsmCost, exp, t)
      ensures r.Success? ==>
        FitsAgree(fits) && choicestats.value == Appended(old(choicestats.value), ValueItems(CoefficientEntries(fits)))
      ensures r.Success? ==> (r.value <==> 0 < i && i < |modeRatio[Nsm]| && Converged(modeRatio[Nsm], i, threshold))
      ensures r == Success(true) ==> triggered && lastIter == i
      ensures r != Success(true) ==> triggered == old(triggered) && lastIter == old(lastIter)
    {
      t :| true;
      var s := Measure(pool, x, nsmCost, exp);
      if s.Failure? {
        return Failure(s.error), t;
      }
      var post := InnerLoop.Postsimulation(pool, x, nsmCost, exp, s.value, nsmstats.Current());
      if post.Failure? {
        return Failure(post.error), t;
      }
      t := post.value;
      r := CloseIteration(i, fits, threshold);
    }

    /**
     * Lines 42-43 and 50-324: the simulated period of the pool, then one
     * iteration after another until the NSM share settles or the cap is
     * reached, then the report of the last recorded iteration.
     */
    method Run(pool: seq<Traveler>, xs: seq<InnerLoop.Outside>, fits: seq<seq<ModelFit>>,
               nsmCost: real, exp: DcaCalc.PositiveFn, threshold: real)
      returns (r: Result<Report>)
      requires Valid() && Measured() && recorded == 0 && lastIter == numIterations && !triggered
      requires |xs| == numIterations && |fits| == numIterations
      requires forall i :: 0 <= i < |xs| ==> InnerLoop.OutsideFits(pool, xs[i])
      modifies this, nsmstats, choicestats
      ensures Valid()
      ensures pool == [] ==> r.Failure?
      ensures r.Success? ==> Measured() && 0 < recorded <= numIterations && r == FinalReport()
      ensures r.Success? ==> lastIter == if triggered then recorded - 1 else numIterations
      ensures r.Success? && !triggered ==> recorded == numIterations
    {
      var window := InnerLoop.SimWindow(pool);
      if window.Failure? {
        return Failure(window.error);
      }
      var i := 0;
      var stop := false;
      while i < numIterations && !stop
        invariant 0 <= i <= numIterations
        invariant Valid() && Measured() && recorded == i
        invariant stop == triggered
        invariant lastIter == if triggered then i - 1 else numIterations
        decreases numIterations - i
      {
        var s, t := Iteration(i, pool, xs[i], fits[i], nsmCost, exp, threshold);
        if s.Failure? {
          return Failure(s.error);
        }
        stop := s.value;
        i := i + 1;
      }
      r := FinalReport();
    }

    /**
     * Lines 338-344 as evidently intended, after the last recorded iteration:
     * the KPIs are the last measurements and the mode split is that
     * iteration's share in percent.  Fails where no iteration ran (the loop
     * variable is unbound) or a mode history does not reach it.
     */
    function FinalReport(): (r: Result<Report>)
      reads this, nsmstats
      requires HistoriesOk() && Measured()
      ensures recorded == 0 ==> r.Failure?
      ensures r.Success? <==> 0 < recorded && forall m: Mode :: recorded <= |modeRatio[m]|
      ensures r.Success? ==>
        && r.value.occupancy == Last(nsmstats.value["occupancy"].xs)
        && r.value.serviceRate == Last(nsmstats.value["service_rate"].xs) * 100.0
        && r.value.waitTime == Last(nsmstats.value["nsm_wait_time"].xs)
        && r.value.carTimeRatio == Last(nsmstats.value["nsm_car_time_ratio"].xs)
        && |r.value.modeSplit| == NumModes
        && forall m: Mode :: recorded - 1 < |modeRatio[m]| && r.value.modeSplit[m] == modeRatio[m][recorded - 1] * 100.0
    {
      if recorded == 0 then Failure("NameError: name 'i' is not defined")
      else
        CorrectedReportsLastMeasurement(nsmstats.value, modeRatio, recorded - 1, triggered, lastIter, numIterations);
        ReportCorrected(nsmstats.value, modeRatio, recorded - 1, triggered, lastIter, numIterations)
    }
  }
}
