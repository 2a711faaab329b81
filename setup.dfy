/**
 * The statistics tracker of the feedback loop (class StatGroup) and the seed
 * tables and constants the loop starts from.
 */
module Setup {
  import opened Wrappers
  import opened Records

  /**
   * One entry `data[kind][stat]` of a tracker: a history list, or the bare 1.0
   * the constructor stores instead of a list for a statistic named "pval".
   */
  datatype Slot = Series(xs: seq<real>) | Scalar(x: real)

  /** The statistic name the constructor treats specially. */
  const Reserved: string := "pval"

  /** One row of the long-format export: statistic `stat` at iteration `iter`. */
  datatype PlotRow = PlotRow(iter: nat, stat: string, value: real, smoothed: real, pval: real)

  function Min(a: real, b: real): real { if a <= b then a else b }
  function Max(a: real, b: real): real { if a <= b then b else a }

  function Last(xs: seq<real>): real
    requires |xs| > 0
  {
    xs[|xs| - 1]
  }

  predicate Distinct(ns: seq<string>) {
    forall a, b :: 0 <= a < b < |ns| ==> ns[a] != ns[b]
  }

  /** The names of a dictionary given as its (name, value) items in insertion order. */
  function Names(items: seq<(string, real)>): (ns: seq<string>)
    ensures |ns| == |items|
    ensures forall k :: 0 <= k < |items| ==> ns[k] == items[k].0
  {
    seq(|items|, k requires 0 <= k < |items| => items[k].0)
  }

  lemma DistinctItems(items: seq<(string, real)>, j: nat, k: nat)
    requires Distinct(Names(items)) && j < k < |items|
    ensures items[j].0 != items[k].0
  {
    assert Names(items)[j] != Names(items)[k];
  }

  /**
   * The exponential-smoothing step: the previous smoothed value weighted by
   * 1 - w plus the new raw value weighted by w.
   */
  function NextSmooth(prev: real, v: real, w: real): real {
    prev * (1.0 - w) + v * w
  }

  /**
   * For w in [0,1] the step is a convex combination: it lies between the
   * previous smoothed value and the raw value; w = 0 keeps the previous value
   * and w = 1 takes the raw value.
   */
  lemma NextSmoothBetween(prev: real, v: real, w: real)
    ensures 0.0 <= w <= 1.0 ==> Min(prev, v) <= NextSmooth(prev, v, w) <= Max(prev, v)
    ensures w == 0.0 ==> NextSmooth(prev, v, w) == prev
    ensures w == 1.0 ==> NextSmooth(prev, v, w) == v
  {
    var r := NextSmooth(prev, v, w);
    assert r - prev == w * (v - prev);
    assert v - r == (1.0 - w) * (v - prev);
    if 0.0 <= w <= 1.0 {
      MulNonneg(w, if prev <= v then v - prev else prev - v);
      MulNonneg(1.0 - w, if prev <= v then v - prev else prev - v);
    }
  }

  lemma MulNonneg(a: real, b: real)
    requires 0.0 <= a && 0.0 <= b
    ensures 0.0 <= a * b
  {
  }

  /**
   * The smoothed history of a raw history xs: the first smoothed value is the
   * seed xs[0], each later one smooths the next raw value into its predecessor.
   */
  function Smoothed(xs: seq<real>, w: real): (sm: seq<real>)
    requires |xs| >= 1
    ensures |sm| == |xs| && sm[0] == xs[0]
    decreases |xs|
  {
    if |xs| == 1 then [xs[0]]
    else
      var p := Smoothed(xs[..|xs| - 1], w);
      p + [NextSmooth(p[|p| - 1], xs[|xs| - 1], w)]
  }

  /** Appending a raw value appends exactly one smoothed value to the history. */
  lemma SmoothedAppend(xs: seq<real>, v: real, w: real)
    requires |xs| >= 1
    ensures Smoothed(xs + [v], w) == Smoothed(xs, w) + [NextSmooth(Last(Smoothed(xs, w)), v, w)]
  {
    assert (xs + [v])[..|xs|] == xs;
  }

  /** Every prefix of a smoothed history is the smoothed history of the prefix. */
  lemma {:induction false} SmoothedPrefix(xs: seq<real>, w: real, n: nat)
    requires 1 <= n <= |xs|
    ensures Smoothed(xs, w)[..n] == Smoothed(xs[..n], w)
    decreases |xs|
  {
    if n < |xs| {
      var init := xs[..|xs| - 1];
      var p := Smoothed(init, w);
      SmoothedPrefix(init, w, n);
      assert init[..n] == xs[..n];
      assert Smoothed(xs, w) == p + [NextSmooth(p[|p| - 1], xs[|xs| - 1], w)];
      assert (p + [NextSmooth(p[|p| - 1], xs[|xs| - 1], w)])[..n] == p[..n];
    } else {
      assert xs[..n] == xs;
    }
  }

  /**
   * The recurrence stated pointwise: smoothed[t] = smoothed[t-1]*(1-w) + raw[t]*w,
   * so for w in [0,1] smoothed[t] lies between smoothed[t-1] and raw[t].
   */
  lemma SmoothedRecurrence(xs: seq<real>, w: real, t: nat)
    requires 1 <= t < |xs|
    ensures Smoothed(xs, w)[t] == NextSmooth(Smoothed(xs, w)[t - 1], xs[t], w)
    ensures 0.0 <= w <= 1.0 ==>
      Min(Smoothed(xs, w)[t - 1], xs[t]) <= Smoothed(xs, w)[t] <= Max(Smoothed(xs, w)[t - 1], xs[t])
  {
    SmoothedPrefix(xs, w, t + 1);
    var p := Smoothed(xs[..t + 1], w);
    NextSmoothBetween(p[t - 1], xs[t], w);
    assert xs[..t + 1][..t] == xs[..t];
    assert Smoothed(xs, w)[t] == p[t];
    assert Smoothed(xs, w)[t - 1] == p[t - 1];
  }

  /** If every raw value lies in [lo, hi] and w is in [0,1], every smoothed value does too. */
  lemma {:induction false} SmoothedWithin(xs: seq<real>, w: real, lo: real, hi: real)
    requires |xs| >= 1 && 0.0 <= w <= 1.0
    requires forall t :: 0 <= t < |xs| ==> lo <= xs[t] <= hi
    ensures forall t :: 0 <= t < |xs| ==> lo <= Smoothed(xs, w)[t] <= hi
    decreases |xs|
  {
    if |xs| > 1 {
      var init := xs[..|xs| - 1];
      SmoothedWithin(init, w, lo, hi);
      var p := Smoothed(init, w);
      NextSmoothBetween(p[|p| - 1], xs[|xs| - 1], w);
      assert lo <= p[|p| - 1] <= hi;
      assert lo <= xs[|xs| - 1] <= hi;
    }
  }

  /** The three slots of one statistic agree with what the tracker promises. */
  ghost predicate SlotsOk(s: string, v: Slot, sm: Slot, p: Slot, w: real) {
    if s == Reserved then v == Scalar(1.0) && sm == Scalar(1.0) && p == Scalar(1.0)
    else
      && v.Series? && sm.Series? && p.Series?
      && |v.xs| >= 1 && |p.xs| == |v.xs|
      && sm.xs == Smoothed(v.xs, w)
  }

  /** The three dictionaries share their keys and agree on every statistic. */
  ghost predicate AllSlotsOk(value: map<string, Slot>, smooth: map<string, Slot>, pval: map<string, Slot>, w: real) {
    && smooth.Keys == value.Keys && pval.Keys == value.Keys
    && (forall s {:trigger SlotsOk(s, value[s], smooth[s], pval[s], w)} :: s in value ==> SlotsOk(s, value[s], smooth[s], pval[s], w))
  }

  /** The tracker invariant: distinct names, which are the keys, and slots in agreement. */
  ghost predicate GroupOk(names: seq<string>, value: map<string, Slot>, smooth: map<string, Slot>,
                          pval: map<string, Slot>, w: real) {
    && Distinct(names)
    && (forall s :: s in value <==> s in names)
    && AllSlotsOk(value, smooth, pval, w)
  }

  /** Appending one raw value, its p-value and the next smoothed value keeps the tracker invariant. */
  lemma AppendKeepsSlots(names: seq<string>, value: map<string, Slot>, smooth: map<string, Slot>,
                         pval: map<string, Slot>, w: real, stat: string, v: real, p: real)
    requires GroupOk(names, value, smooth, pval, w) && stat in value && stat != Reserved
    ensures value[stat].Series? && smooth[stat].Series? && pval[stat].Series? && |smooth[stat].xs| > 0
    ensures GroupOk(names, value[stat := Series(value[stat].xs + [v])],
                    smooth[stat := Series(smooth[stat].xs + [NextSmooth(Last(smooth[stat].xs), v, w)])],
                    pval[stat := Series(pval[stat].xs + [p])], w)
  {
    assert SlotsOk(stat, value[stat], smooth[stat], pval[stat], w);
    var raw := value[stat].xs;
    SmoothedAppend(raw, v, w);
    var value', smooth', pval' := value[stat := Series(raw + [v])],
      smooth[stat := Series(smooth[stat].xs + [NextSmooth(Last(smooth[stat].xs), v, w)])],
      pval[stat := Series(pval[stat].xs + [p])];
    forall s | s in value' ensures SlotsOk(s, value'[s], smooth'[s], pval'[s], w) {
      if s != stat {
        assert value'[s] == value[s] && smooth'[s] == smooth[s] && pval'[s] == pval[s];
      }
    }
  }

  /** The slot the constructor stores for a seeded statistic. */
  function SeedSlot(s: string, x: real): Slot {
    if s != Reserved then Series([x]) else Scalar(1.0)
  }

  /** A dictionary of seed slots, one per statistic, each a one-element list or the "pval" scalar. */
  ghost predicate SeedSlots(d: map<string, Slot>) {
    forall s :: s in d ==> if s == Reserved then d[s] == Scalar(1.0) else d[s].Series? && |d[s].xs| == 1
  }

  /**
   * One of the three dictionaries the constructor builds: every statistic of
   * `initstats` maps to its seed slot.
   */
  method SeedDict(initstats: seq<(string, real)>) returns (d: map<string, Slot>)
    requires Distinct(Names(initstats))
    ensures forall s :: s in d <==> s in Names(initstats)
    ensures forall k :: 0 <= k < |initstats| ==> d[initstats[k].0] == SeedSlot(initstats[k].0, initstats[k].1)
    ensures SeedSlots(d)
  {
    d := map[];
    for k := 0 to |initstats|
      invariant forall s :: s in d <==> s in Names(initstats)[..k]
      invariant forall j :: 0 <= j < k ==> d[initstats[j].0] == SeedSlot(initstats[j].0, initstats[j].1)
      invariant SeedSlots(d)
    {
      forall j | 0 <= j < k ensures initstats[j].0 != initstats[k].0 {
        DistinctItems(initstats, j, k);
      }
      assert Names(initstats)[..k + 1] == Names(initstats)[..k] + [initstats[k].0];
      d := d[initstats[k].0 := SeedSlot(initstats[k].0, initstats[k].1)];
    }
    assert Names(initstats)[..|initstats|] == Names(initstats);
  }

  /** Seed slots agree with themselves as raw, smoothed and p-value histories. */
  lemma SeedSlotsOk(d: map<string, Slot>, w: real)
    requires SeedSlots(d)
    ensures AllSlotsOk(d, d, d, w)
  {
    forall s | s in d && s != Reserved ensures d[s].xs == Smoothed(d[s].xs, w) {
      assert |d[s].xs| == 1;
    }
  }

  /** The last entry of every statistic in d that holds a non-empty list. */
  function LastSmoothed(d: map<string, Slot>): map<string, real> {
    map s | s in d && d[s].Series? && |d[s].xs| > 0 :: Last(d[s].xs)
  }

  /**
   * The last entry of every list in d, visiting the keys in the order ns;
   * None once the visit reaches the "pval" scalar, which has no last entry.
   */
  method LastOfEach(ns: seq<string>, d: map<string, Slot>) returns (r: Option<map<string, real>>)
    requires forall s :: s in d <==> s in ns
    requires forall s :: s in d && s != Reserved ==> d[s].Series? && |d[s].xs| > 0
    ensures r.Some? <==> Reserved !in d
    ensures r.Some? ==> r.value.Keys == d.Keys
    ensures r.Some? ==> forall s :: s in r.value ==> r.value[s] == Last(d[s].xs)
    ensures r.Some? ==> r.value == LastSmoothed(d)
  {
    var result: map<string, real> := map[];
    for k := 0 to |ns|
      invariant forall j :: 0 <= j < k ==> ns[j] != Reserved && ns[j] in result
      invariant forall s :: s in result ==> s in d && s != Reserved && result[s] == Last(d[s].xs)
    {
      if ns[k] == Reserved {
        return None;
      }
      result := result[ns[k] := Last(d[ns[k]].xs)];
    }
    assert result.Keys == d.Keys by {
      forall s | s in d ensures s in result {
        assert s in ns;
      }
    }
    return Some(result);
  }

  /** The export rows of statistic s from its raw, smoothed and p-value histories, one per index. */
  function ZippedRows(s: string, v: seq<real>, m: seq<real>, p: seq<real>): (rows: seq<PlotRow>)
    requires |v| == |m| == |p|
    ensures |rows| == |m|
    ensures forall i :: 0 <= i < |rows| ==> rows[i] == PlotRow(i, s, v[i], m[i], p[i])
  {
    seq(|m|, i requires 0 <= i < |m| => PlotRow(i, s, v[i], m[i], p[i]))
  }

  /** The inner loop of the export: the rows of one statistic, index by index. */
  method ZipRows(s: string, v: seq<real>, m: seq<real>, p: seq<real>) returns (rows: seq<PlotRow>)
    requires |v| == |m| == |p|
    ensures rows == ZippedRows(s, v, m, p)
  {
    rows := [];
    for i := 0 to |m|
      invariant rows == ZippedRows(s, v, m, p)[..i]
    {
      rows := rows + [PlotRow(i, s, v[i], m[i], p[i])];
    }
  }

  /**
   * Running statistics with exponential smoothing: for each statistic a raw
   * history (`value`), a smoothed history (`smooth`) and a p-value history
   * (`pval`); `names` is the dictionaries' key order.
   */
  class StatGroup {
    var weight: real
    var names: seq<string>
    var value: map<string, Slot>
    var smooth: map<string, Slot>
    var pval: map<string, Slot>

    ghost predicate Valid()
      reads this
    {
      GroupOk(names, value, smooth, pval, weight)
    }

    /** Statistic s holds the seed x in all three histories. */
    ghost predicate Seeded(s: string, x: real)
      reads this
    {
      s in value && s in smooth && s in pval &&
      value[s] == SeedSlot(s, x) && smooth[s] == SeedSlot(s, x) && pval[s] == SeedSlot(s, x)
    }

    /**
     * Seeds every statistic of `initstats` (a dictionary, given as its items in
     * order): raw, smoothed and p-value histories all start as [seed].
     */
    constructor (initstats: seq<(string, real)>, weight: real)
      requires Distinct(Names(initstats))
      ensures Valid()
      ensures this.weight == weight && names == Names(initstats)
      ensures forall k :: 0 <= k < |initstats| ==> Seeded(initstats[k].0, initstats[k].1)
    {
      var d := SeedDict(initstats);
      SeedSlotsOk(d, weight);
      this.weight := weight;
      names := Names(initstats);
      value, smooth, pval := d, d, d;
    }

    /**
     * Appends raw value v and p-value p to statistic `stat` and the smoothed
     * value prev*(1-weight) + v*weight.  Fails, changing nothing, for a name that
     * was never seeded (KeyError) or for "pval", whose slot is not a list.
     */
    method Add(stat: string, v: real, p: real) returns (ok: bool)
      requires Valid()
      modifies this
      ensures Valid()
      ensures weight == old(weight) && names == old(names)
      ensures ok <==> stat in old(value) && stat != Reserved
      ensures ok ==> SlotsOk(stat, old(value)[stat], old(smooth)[stat], old(pval)[stat], weight)
      ensures ok ==>
        && value == old(value)[stat := Series(old(value)[stat].xs + [v])]
        && pval == old(pval)[stat := Series(old(pval)[stat].xs + [p])]
        && smooth == old(smooth)[stat := Series(old(smooth)[stat].xs + [NextSmooth(Last(old(smooth)[stat].xs), v, weight)])]
      ensures !ok ==> value == old(value) && pval == old(pval) && smooth == old(smooth)
    {
      if stat !in value || stat == Reserved {
        return false;
      }
      AppendKeepsSlots(names, value, smooth, pval, weight, stat, v, p);
      var prev := Last(smooth[stat].xs);
      value := value[stat := Series(value[stat].xs + [v])];
      pval := pval[stat := Series(pval[stat].xs + [p])];
      smooth := smooth[stat := Series(smooth[stat].xs + [NextSmooth(prev, v, weight)])];
      ok := true;
    }

    /** The most recent smoothed value of `stat`; None where the source raises. */
    function GetSmooth(stat: string): (r: Option<real>)
      reads this
      requires Valid()
      ensures r.Some? <==> stat in smooth && stat != Reserved
      ensures r.Some? ==> SlotsOk(stat, value[stat], smooth[stat], pval[stat], weight)
      ensures r.Some? ==> r.value == Last(smooth[stat].xs) && r.value == Last(Smoothed(value[stat].xs, weight))
    {
      if stat in smooth && stat != Reserved then
        assert SlotsOk(stat, value[stat], smooth[stat], pval[stat], weight);
        Some(Last(smooth[stat].xs))
      else None
    }

    /** Every statistic's most recent smoothed value (the specification of GetAllCurrentSmooth). */
    function Current(): map<string, real>
      reads this
    {
      LastSmoothed(smooth)
    }

    /**
     * Snapshot of every statistic's current smoothed value, keyed exactly by
     * the tracked names; None when a "pval" statistic makes the source raise.
     */
    method GetAllCurrentSmooth() returns (r: Option<map<string, real>>)
      requires Valid()
      ensures r.Some? <==> Reserved !in smooth
      ensures forall s :: s in smooth && s != Reserved ==> smooth[s].Series? && |smooth[s].xs| > 0
      ensures r.Some? ==> r.value.Keys == smooth.Keys
      ensures r.Some? ==> forall s :: s in r.value ==> r.value[s] == Last(smooth[s].xs)
      ensures r.Some? ==> r.value == Current()
    {
      SmoothHeld();
      r := LastOfEach(names, smooth);
    }

    /** A valid tracker holds every smoothed history other than "pval" as a non-empty list. */
    lemma SmoothHeld()
      requires Valid()
      ensures forall s :: s in smooth <==> s in names
      ensures forall s :: s in smooth && s != Reserved ==> smooth[s].Series? && |smooth[s].xs| > 0
    {
      forall s | s in smooth && s != Reserved ensures smooth[s].Series? && |smooth[s].xs| > 0 {
        assert SlotsOk(s, value[s], smooth[s], pval[s], weight);
      }
    }

    /** A valid tracker holds every statistic other than "pval" as three lists of equal length. */
    lemma ExportHeld()
      requires Valid()
      ensures forall k :: 0 <= k < |names| && names[k] != Reserved ==> ListsAt(names[k], value, smooth, pval)
    {
      forall k | 0 <= k < |names| && names[k] != Reserved ensures ListsAt(names[k], value, smooth, pval) {
        assert names[k] in value;
        assert SlotsOk(names[k], value[names[k]], smooth[names[k]], pval[names[k]], weight);
      }
    }

    /**
     * The long-format export: one row per statistic and history index, with the
     * raw, smoothed and p-value at that index; None when a "pval" statistic
     * makes the source raise.
     */
    method ToGgplot() returns (r: Option<seq<PlotRow>>)
      requires Valid()
      ensures r.Some? <==> Reserved !in names
      ensures r.Some? ==> ExportableAll(names, value, smooth, pval)
      ensures r.Some? ==>
        r.value == ExportRows(names, value, smooth, pval) && |r.value| == ExportLength(names, value, smooth, pval)
    {
      ExportHeld();
      r := Export(names, value, smooth, pval);
    }
  }

  /** Statistic s is held as three lists of equal length. */
  predicate ListsAt(s: string, value: map<string, Slot>, smooth: map<string, Slot>, pval: map<string, Slot>) {
    && s in value && s in smooth && s in pval
    && value[s].Series? && smooth[s].Series? && pval[s].Series?
    && |value[s].xs| == |smooth[s].xs| == |pval[s].xs|
  }

  predicate ExportableAll(ns: seq<string>, value: map<string, Slot>, smooth: map<string, Slot>, pval: map<string, Slot>) {
    forall k :: 0 <= k < |ns| ==> ListsAt(ns[k], value, smooth, pval)
  }

  /** The export of the statistics ns, statistic after statistic. */
  function ExportRows(ns: seq<string>, value: map<string, Slot>, smooth: map<string, Slot>, pval: map<string, Slot>): seq<PlotRow>
    requires ExportableAll(ns, value, smooth, pval)
  {
    if ns == [] then []
    else
      var s := ns[|ns| - 1];
      ExportRows(ns[..|ns| - 1], value, smooth, pval) + ZippedRows(s, value[s].xs, smooth[s].xs, pval[s].xs)
  }

  /** Total length of the smoothed histories of ns. */
  function ExportLength(ns: seq<string>, value: map<string, Slot>, smooth: map<string, Slot>, pval: map<string, Slot>): nat
    requires ExportableAll(ns, value, smooth, pval)
  {
    if ns == [] then 0 else ExportLength(ns[..|ns| - 1], value, smooth, pval) + |smooth[ns[|ns| - 1]].xs|
  }

  /**
   * The export has one row per (statistic, index): the row count is the sum of
   * the smoothed-history lengths, and the rows of the last statistic carry
   * iteration numbers 0, 1, ... with that statistic's values at each index.
   */
  lemma {:induction false} ExportShape(ns: seq<string>, value: map<string, Slot>, smooth: map<string, Slot>, pval: map<string, Slot>)
    requires ExportableAll(ns, value, smooth, pval)
    ensures |ExportRows(ns, value, smooth, pval)| == ExportLength(ns, value, smooth, pval)
    ensures ns != [] ==>
      var s := ns[|ns| - 1];
      ExportRows(ns, value, smooth, pval)[ExportLength(ns[..|ns| - 1], value, smooth, pval)..] ==
        ZippedRows(s, value[s].xs, smooth[s].xs, pval[s].xs)
    decreases |ns|
  {
    if ns != [] {
      ExportShape(ns[..|ns| - 1], value, smooth, pval);
    }
  }

  /** The outer loop of the export: statistic after statistic in the order ns, failing at "pval". */
  method Export(ns: seq<string>, value: map<string, Slot>, smooth: map<string, Slot>, pval: map<string, Slot>)
    returns (r: Option<seq<PlotRow>>)
    requires forall k :: 0 <= k < |ns| && ns[k] != Reserved ==> ListsAt(ns[k], value, smooth, pval)
    ensures r.Some? <==> Reserved !in ns
    ensures r.Some? ==> ExportableAll(ns, value, smooth, pval)
    ensures r.Some? ==>
      r.value == ExportRows(ns, value, smooth, pval) && |r.value| == ExportLength(ns, value, smooth, pval)
  {
    var temp: seq<PlotRow> := [];
    for k := 0 to |ns|
      invariant forall j :: 0 <= j < k ==> ns[j] != Reserved
      invariant ExportableAll(ns[..k], value, smooth, pval)
      invariant temp == ExportRows(ns[..k], value, smooth, pval)
    {
      var s := ns[k];
      if s == Reserved {
        return None;
      }
      var rows := ZipRows(s, value[s].xs, smooth[s].xs, pval[s].xs);
      assert ns[..k + 1][..k] == ns[..k];
      temp := temp + rows;
    }
    assert ns[..|ns|] == ns;
    ExportShape(ns, value, smooth, pval);
    return Some(temp);
  }

  /** Both seed tables name each statistic once, as the dictionaries they model do. */
  lemma SeedTablesDistinct()
    ensures Distinct(Names(NsmSeeds)) && Distinct(Names(InitModel))
  {
  }

  /**
   * A fresh NSM tracker seeded with service rate 0.2 and weight 0.25 that
   * records a service rate of 0.8 reports a smoothed service rate of 0.35.
   */
  method ServiceRateScenario() returns (r: Option<real>)
    ensures r == Some(0.35)
  {
    SeedTablesDistinct();
    var g := new StatGroup(NsmSeeds, WeightAlpha);
    assert g.Seeded(NsmSeeds[1].0, NsmSeeds[1].1);
    var ok := g.Add("service_rate", 0.8, 1.0);
    r := g.GetSmooth("service_rate");
  }

  // Configuration constants and seed tables of the feedback loop.

  /** Scale of the request pool relative to the base demand volume. */
  const RequestfileRatio: real := 15.10924
  /** Target demand relative to the base demand volume. */
  const DemandRatio: real := 1.252
  /** Smoothing weight of both trackers. */
  const WeightAlpha: real := 0.25
  const CarFuelLitersPerKm: real := 1.0 / 10.0
  const FuelCostPerLiter: real := 7.78
  const PtCostFare: real := 6.0

  /** Initial choice-model coefficients. */
  const InitModel: seq<(string, real)> := [
    ("ASC_WALK", 4.1), ("ASC_BIKE", -0.5), ("ASC_CAR", 4.5), ("ASC_PT", 5.5),
    ("ASC_NSM", 5.0), ("B_COST", -0.35), ("B_TIME", -0.0020), ("B_RISK", 0.0)]

  /** Initial NSM service-quality estimates. */
  const NsmSeeds: seq<(string, real)> := [
    ("occupancy", 1.0), ("service_rate", 0.2), ("nsm_car_time_ratio", 1.5),
    ("nsm_wait_time", 150.0), ("nsm_travel_time", 375.0), ("car_time", 250.0)]

  /** Availability rules, in mode order walk, bike, car, pt, nsm (car: ownership rate). */
  const Avails: seq<AvailRule> := [Rate(1.0), Rate(1.0), Rate(0.67), Rate(1.0), Rate(1.0)]

  /** The empty per-mode history lists the mode-split tracker starts from. */
  const ModeStatsSeed: map<Mode, seq<real>> := map[0 := [], 1 := [], 2 := [], 3 := [], 4 := []]
}
