/**
 * The interface to the fleet simulator: the parameters and scenario rows it is
 * given, the evaluation and per-request outputs it returns, and how those
 * outputs are merged back onto the travellers and aggregated.
 */
module FleetPy {
  import opened Wrappers
  import opened Records
  import opened Statistics
  import DcaCalc
  import opened PyDict

  // ------------------------------------------------------------ configuration

  /** The keys passed through to the simulator. */
  const FleetpyKeys: seq<string> := ["op_max_wait_time", "op_max_detour_time_factor", "op_fleet_composition"]

  /** The keys among ks that are listed in `wanted`, in the order of ks. */
  function Selected(ks: seq<string>, wanted: seq<string>): seq<string> {
    if ks == [] then []
    else Selected(ks[..|ks| - 1], wanted) + (if ks[|ks| - 1] in wanted then [ks[|ks| - 1]] else [])
  }

  /** The simulator keys among ks, in the order of ks. */
  function SimulatorKeys(ks: seq<string>): seq<string> {
    Selected(ks, FleetpyKeys)
  }

  /**
   * `get_fleetpy_params`: keeps exactly the items of the configuration whose
   * key is a simulator key, with their values, in configuration order.
   */
  method GetFleetpyParams(config: Dict) returns (r: Dict)
    requires WellFormed(config)
    ensures WellFormed(r)
    ensures forall k :: k in r.vals <==> k in config.vals && k in FleetpyKeys
    ensures forall k :: k in r.vals ==> r.vals[k] == config.vals[k]
    ensures r.keys == SimulatorKeys(config.keys)
  {
    r := Dict([], map[]);
    for j := 0 to |config.keys|
      invariant FilteredThrough(r, config, FleetpyKeys, j)
    {
      var key := config.keys[j];
      FilterStep(r, config, FleetpyKeys, j);
      if key in FleetpyKeys {
        r := Put(r, key, config.vals[key]);
      }
    }
    assert config.keys[..|config.keys|] == config.keys;
  }

  /** r holds the wanted items among the first j configuration keys. */
  ghost predicate FilteredThrough(r: Dict, config: Dict, wanted: seq<string>, j: nat)
    requires j <= |config.keys|
  {
    && WellFormed(r)
    && r.keys == Selected(config.keys[..j], wanted)
    && (forall k :: k in r.vals <==> k in config.keys[..j] && k in wanted)
    && (forall k :: k in r.vals ==> k in config.vals && r.vals[k] == config.vals[k])
  }

  lemma FilterStep(r: Dict, config: Dict, wanted: seq<string>, j: nat)
    requires WellFormed(config) && j < |config.keys| && FilteredThrough(r, config, wanted, j)
    ensures var key := config.keys[j];
      FilteredThrough(if key in wanted then Put(r, key, config.vals[key]) else r, config, wanted, j + 1)
  {
    var key := config.keys[j];
    var before := config.keys[..j];
    assert config.keys[..j + 1] == before + [key];
    assert Selected(before + [key], wanted) == Selected(before, wanted) + (if key in wanted then [key] else []) by {
      assert (before + [key])[..|before|] == before;
    }
    if key in wanted {
      assert key !in before by {
        forall a | 0 <= a < j ensures config.keys[a] != key {
        }
      }
      FilterKeep(r, config, wanted, before, key);
    } else {
      FilterSkip(r, config, wanted, before, key);
    }
  }

  lemma FilterKeep(r: Dict, config: Dict, wanted: seq<string>, before: seq<string>, key: string)
    requires key in config.vals && key in wanted && key !in before
    requires WellFormed(r) && r.keys == Selected(before, wanted)
    requires forall k :: k in r.vals <==> k in before && k in wanted
    requires forall k :: k in r.vals ==> k in config.vals && r.vals[k] == config.vals[k]
    ensures var r' := Put(r, key, config.vals[key]);
      && WellFormed(r')
      && r'.keys == Selected(before, wanted) + [key]
      && (forall k :: k in r'.vals <==> k in before + [key] && k in wanted)
      && (forall k :: k in r'.vals ==> k in config.vals && r'.vals[k] == config.vals[k])
  {
  }

  lemma FilterSkip(r: Dict, config: Dict, wanted: seq<string>, before: seq<string>, key: string)
    requires key !in wanted
    requires forall k :: k in r.vals <==> k in before && k in wanted
    ensures forall k :: k in r.vals <==> k in before + [key] && k in wanted
  {
  }

  /** The default scenario row. */
  const ScenarioDefaults: Dict := Dict(
    ["scenario_name", "op_fleet_composition", "rq_type", "rq_file", "op_max_wait_time", "op_max_detour_time_factor"],
    map["scenario_name" := StrV("SUM_test_000"),
        "op_fleet_composition" := StrV("jerusalem_petrol_van_vehtype:20"),
        "rq_type" := StrV("BasicRequest"),
        "rq_file" := StrV("demand_osm_000"),
        "op_max_wait_time" := IntV(240),
        "op_max_detour_time_factor" := IntV(100)])

  lemma DefaultsWellFormed()
    ensures WellFormed(ScenarioDefaults)
  {
  }

  /** The header of the scenario file: the default columns, then any new supplied keys. */
  function Header(params: Dict): seq<string> {
    ScenarioDefaults.keys + Added(params.keys, ScenarioDefaults.vals.Keys)
  }

  // ------------------------------------------------------------ scenario names

  function DigitChar(d: nat): char
    requires d < 10
  {
    "0123456789"[d]
  }

  function DigitValue(c: char): nat {
    if '0' <= c <= '9' then (c as int) - ('0' as int) else 0
  }

  /** The decimal digits of n, most significant first. */
  function Decimal(n: nat): (s: string)
    ensures |s| >= 1
    decreases n
  {
    if n < 10 then [DigitChar(n)] else Decimal(n / 10) + [DigitChar(n % 10)]
  }

  /** Reads a digit string back as a number. */
  function ParseDecimal(s: string): nat
    decreases |s|
  {
    if s == [] then 0 else ParseDecimal(s[..|s| - 1]) * 10 + DigitValue(s[|s| - 1])
  }

  lemma {:induction false} ParseDecimalOfDecimal(n: nat)
    ensures ParseDecimal(Decimal(n)) == n
    decreases n
  {
    if n >= 10 {
      ParseDecimalOfDecimal(n / 10);
      var s := Decimal(n);
      assert s[..|s| - 1] == Decimal(n / 10);
      assert DigitValue(DigitChar(n % 10)) == n % 10;
    } else {
      assert DigitValue(DigitChar(n)) == n;
    }
  }

  function Zeros(k: nat): string
    ensures |Zeros(k)| == k
  {
    if k == 0 then "" else "0" + Zeros(k - 1)
  }

  lemma {:induction false} ParseZeros(k: nat, s: string)
    ensures ParseDecimal(Zeros(k) + s) == ParseDecimal(s)
    decreases |s|
  {
    if s == [] {
      ParseZerosOnly(k);
      assert Zeros(k) + s == Zeros(k);
    } else {
      var init := s[..|s| - 1];
      ParseZeros(k, init);
      assert (Zeros(k) + s)[..|Zeros(k) + s| - 1] == Zeros(k) + init;
    }
  }

  lemma {:induction false} ParseZerosOnly(k: nat)
    ensures ParseDecimal(Zeros(k)) == 0
  {
    if k > 0 {
      var z := Zeros(k);
      assert z == Zeros(k - 1) + "0" by {
        ZerosSnoc(k - 1);
      }
      assert z[..|z| - 1] == Zeros(k - 1);
      ParseZerosOnly(k - 1);
    }
  }

  lemma {:induction false} ZerosSnoc(k: nat)
    ensures Zeros(k + 1) == Zeros(k) + "0"
  {
    if k > 0 {
      ZerosSnoc(k - 1);
    }
  }

  /** The `{n:03}` format: the decimal digits, left-padded with zeros to at least three characters. */
  function Pad3(n: nat): (s: string)
    ensures |s| >= 3
  {
    var d := Decimal(n);
    if |d| >= 3 then d else Zeros(3 - |d|) + d
  }

  /** The padded number reads back as the number, so distinct numbers give distinct strings. */
  lemma Pad3RoundTrip(n: nat)
    ensures ParseDecimal(Pad3(n)) == n
  {
    ParseDecimalOfDecimal(n);
    var d := Decimal(n);
    if |d| < 3 {
      ParseZeros(3 - |d|, d);
    }
  }

  lemma Pad3Examples()
    ensures Pad3(7) == "007" && Pad3(42) == "042" && Pad3(1234) == "1234"
  {
    DecimalExamples();
    assert Zeros(2) == "00" && Zeros(1) == "0";
  }

  lemma DecimalExamples()
    ensures Decimal(7) == "7" && Decimal(42) == "42" && Decimal(1234) == "1234"
  {
    assert Decimal(4) == "4" && Decimal(2) == "2" && Decimal(1) == "1";
    assert Decimal(12) == Decimal(1) + "2";
    assert Decimal(123) == Decimal(12) + "3";
    assert Decimal(1234) == Decimal(123) + "4";
  }

  /** `{basename}_i{i:03}_r{r:03}`: the scenario name of replication r of iteration i. */
  function ScenarioName(basename: string, i: nat, r: nat): string {
    basename + "_i" + Pad3(i) + "_r" + Pad3(r)
  }

  /** `i{i:03}_r{r:03}_nsm.csv`: the demand file of replication r of iteration i. */
  function RequestFile(i: nat, r: nat): string {
    "i" + Pad3(i) + "_r" + Pad3(r) + "_nsm.csv"
  }

  /** Different replications get different scenario names and different demand files. */
  lemma ScenarioNamesDistinct(basename: string, i: nat, r1: nat, r2: nat)
    requires r1 != r2
    ensures ScenarioName(basename, i, r1) != ScenarioName(basename, i, r2)
    ensures RequestFile(i, r1) != RequestFile(i, r2)
  {
    Pad3RoundTrip(r1);
    Pad3RoundTrip(r2);
    var p := basename + "_i" + Pad3(i) + "_r";
    assert ScenarioName(basename, i, r1)[|p|..] == Pad3(r1);
    assert ScenarioName(basename, i, r2)[|p|..] == Pad3(r2);
    var q := "i" + Pad3(i) + "_r";
    var f1, f2 := RequestFile(i, r1), RequestFile(i, r2);
    assert f1[|q|..|f1| - 8] == Pad3(r1);
    assert f2[|q|..|f2| - 8] == Pad3(r2);
  }

  /** The values of the scenario after the overrides: the defaults, replaced by any supplied parameter. */
  function Overridden(params: Dict): (r: map<string, Value>)
    ensures forall k :: k in r <==> k in ScenarioDefaults.vals || k in params.vals
    ensures forall k :: k in params.vals ==> r[k] == params.vals[k]
    ensures forall k :: k in ScenarioDefaults.vals && k !in params.vals ==> r[k] == ScenarioDefaults.vals[k]
  {
    ScenarioDefaults.vals + params.vals
  }

  /** Row r of the scenario file: the overridden scenario with that replication's name and demand file. */
  function RowOf(base: Dict, basename: string, i: nat, r: nat): Dict {
    Dict(base.keys, base.vals["scenario_name" := StrV(ScenarioName(basename, i, r))]["rq_file" := StrV(RequestFile(i, r))])
  }

  lemma RowWellFormed(base: Dict, basename: string, i: nat, r: nat)
    requires WellFormed(base) && "scenario_name" in base.vals && "rq_file" in base.vals
    ensures WellFormed(RowOf(base, basename, i, r))
  {
    var named := Put(base, "scenario_name", StrV(ScenarioName(basename, i, r)));
    assert Put(named, "rq_file", StrV(RequestFile(i, r))) == RowOf(base, basename, i, r);
  }

  /** Rows 0 .. n-1 of the scenario file. */
  function RowsOf(base: Dict, basename: string, i: nat, n: nat): seq<Dict> {
    if n == 0 then [] else RowsOf(base, basename, i, n - 1) + [RowOf(base, basename, i, n - 1)]
  }

  lemma {:induction false} RowsOfRows(base: Dict, basename: string, i: nat, n: nat)
    ensures |RowsOf(base, basename, i, n)| == n
    ensures forall r :: 0 <= r < n ==> RowsOf(base, basename, i, n)[r] == RowOf(base, basename, i, r)
  {
    if n > 0 {
      RowsOfRows(base, basename, i, n - 1);
      var prev := RowsOf(base, basename, i, n - 1);
      var last := RowOf(base, basename, i, n - 1);
      assert RowsOf(base, basename, i, n) == prev + [last];
      forall r | 0 <= r < n ensures RowsOf(base, basename, i, n)[r] == RowOf(base, basename, i, r) {
        if r < n - 1 {
          assert (prev + [last])[r] == prev[r];
        }
      }
    }
  }

  /** The row loop: the scenario name and demand file are stored, then the row is written. */
  method EmitRows(base: Dict, basename: string, i: nat, numReps: nat) returns (rows: seq<Dict>)
    requires WellFormed(base) && "scenario_name" in base.vals && "rq_file" in base.vals
    ensures rows == RowsOf(base, basename, i, numReps)
  {
    var scenario := base;
    ghost var name, file := base.vals["scenario_name"], base.vals["rq_file"];
    UpdateSame(base.vals, "scenario_name", "rq_file");
    rows := [];
    for r := 0 to numReps
      invariant scenario.keys == base.keys && WellFormed(scenario)
      invariant scenario.vals == base.vals["scenario_name" := name]["rq_file" := file]
      invariant rows == RowsOf(base, basename, i, r)
    {
      var newName, newFile := StrV(ScenarioName(basename, i, r)), StrV(RequestFile(i, r));
      UpdateTwice(base.vals, "scenario_name", "rq_file", name, file, newName, newFile);
      scenario := Put(scenario, "scenario_name", newName);
      scenario := Put(scenario, "rq_file", newFile);
      name, file := newName, newFile;
      assert scenario == RowOf(base, basename, i, r);
      rows := rows + [scenario];
    }
  }

  /**
   * `write_fleetpy_scenario_config_file` without the file: the defaults are
   * overridden by `params` key by key, then one row is emitted per replication
   * r = 0 .. numReps-1, after the row's scenario name and demand file are set.
   * Every row has the same header; apart from those two fields every value is
   * the supplied parameter, or else the default.
   */
  method ScenarioRows(i: nat, numReps: nat, basename: string, params: Dict) returns (rows: seq<Dict>)
    requires WellFormed(params)
    ensures |rows| == numReps
    ensures forall r :: 0 <= r < numReps ==> WellFormed(rows[r]) && rows[r].keys == Header(params)
    ensures forall r :: 0 <= r < numReps ==>
      rows[r].vals == Overridden(params)["scenario_name" := StrV(ScenarioName(basename, i, r))]["rq_file" := StrV(RequestFile(i, r))]
  {
    DefaultsWellFormed();
    var base := ApplyOverrides(ScenarioDefaults, params);
    rows := EmitRows(base, basename, i, numReps);
    RowsOfRows(base, basename, i, numReps);
    forall r | 0 <= r < numReps
      ensures WellFormed(rows[r])
    {
      RowWellFormed(base, basename, i, r);
    }
  }

  // ------------------------------------------------------------ evaluation files

  /** The evaluation file of one replication: its (key, value) rows. */
  type EvalTable = seq<(string, Num)>

  /** Number of replications whose evaluation file is missing or empty. */
  function Missing(files: seq<Option<EvalTable>>): nat {
    if files == [] then 0 else Missing(files[..|files| - 1]) + (if files[|files| - 1].None? then 1 else 0)
  }

  /** The evaluation files that were read, in replication order. */
  function Present(files: seq<Option<EvalTable>>): seq<EvalTable> {
    if files == [] then []
    else Present(files[..|files| - 1]) + (if files[|files| - 1].Some? then [files[|files| - 1].value] else [])
  }

  /** Every replication is either read or counted as missing. */
  lemma {:induction false} PresentCount(files: seq<Option<EvalTable>>)
    ensures |Present(files)| + Missing(files) == |files|
    decreases |files|
  {
    if files != [] {
      PresentCount(files[..|files| - 1]);
    }
  }

  /** The tolerance rule: more than a quarter of the replications missing is fatal. */
  predicate TooManyMissing(missing: nat, numReps: nat) {
    (missing as real) > (numReps as real) / 4.0
  }

  /** With 10 replications 3 missing files are fatal and 2 are not; exactly a quarter is tolerated. */
  lemma MissingThresholdExamples()
    ensures TooManyMissing(3, 10) && !TooManyMissing(2, 10)
    ensures !TooManyMissing(2, 8) && TooManyMissing(3, 8)
    ensures forall n: nat :: !TooManyMissing(0, n)
  {
  }

  /**
   * `get_fleetpy_simdata_allreps`: reads every replication's evaluation file
   * (`files[r]` is None when the file is missing or empty), counting the
   * missing ones, and fails when more than a quarter are missing; otherwise
   * returns the files that were read, in replication order.
   */
  method GetFleetpySimdataAllreps(files: seq<Option<EvalTable>>) returns (r: Result<seq<EvalTable>>)
    ensures r.Failure? <==> TooManyMissing(Missing(files), |files|)
    ensures r.Success? ==> r.value == Present(files)
    ensures r.Success? ==> |r.value| == |files| - Missing(files)
  {
    var result: seq<EvalTable> := [];
    var missing: nat := 0;
    for j := 0 to |files|
      invariant result == Present(files[..j]) && missing == Missing(files[..j])
    {
      assert files[..j + 1][..j] == files[..j];
      if files[j].Some? {
        result := result + [files[j].value];
      } else {
        missing := missing + 1;
      }
    }
    assert files[..|files|] == files;
    if TooManyMissing(missing, |files|) {
      return Failure("Too many missing/empty evaluation files");
    }
    PresentCount(files);
    return Success(result);
  }

  /** The values in the rows of t whose key is k, in row order. */
  function ValuesIn(t: EvalTable, k: string): seq<Num> {
    if t == [] then [] else ValuesIn(t[..|t| - 1], k) + (if t[|t| - 1].0 == k then [t[|t| - 1].1] else [])
  }

  /** The keys of t. */
  function KeysOf(t: EvalTable): set<string> {
    set j | 0 <= j < |t| :: t[j].0
  }

  /** The values of key k across the tables ts, table after table. */
  function ConcatValues(ts: seq<EvalTable>, k: string): seq<Num> {
    if ts == [] then [] else ConcatValues(ts[..|ts| - 1], k) + ValuesIn(ts[|ts| - 1], k)
  }

  /** A key that occurs in t has at least one value in t. */
  lemma {:induction false} ValuesInNonEmpty(t: EvalTable, k: string)
    requires k in KeysOf(t)
    ensures |ValuesIn(t, k)| > 0
    decreases |t|
  {
    if t[|t| - 1].0 != k {
      var j :| 0 <= j < |t| && t[j].0 == k;
      assert k in KeysOf(t[..|t| - 1]) by {
        assert t[..|t| - 1][j].0 == k;
      }
      ValuesInNonEmpty(t[..|t| - 1], k);
    }
  }

  /**
   * The value list of key k: the first table gives one value (its last row with
   * key k, as the dictionary comprehension keeps), every later table appends
   * each of its values for k.
   */
  function Series(tables: seq<EvalTable>, k: string): (s: seq<Num>)
    requires |tables| > 0 && k in KeysOf(tables[0])
    ensures |s| > 0
  {
    ValuesInNonEmpty(tables[0], k);
    var v := ValuesIn(tables[0], k);
    [v[|v| - 1]] + ConcatValues(tables[1..], k)
  }

  /** Every key of a later table occurs in the first one (otherwise the append raises KeyError). */
  predicate KeysKnown(tables: seq<EvalTable>)
    requires |tables| > 0
  {
    forall j, q :: 1 <= j < |tables| && 0 <= q < |tables[j]| ==> tables[j][q].0 in KeysOf(tables[0])
  }

  /** Mean and spread of one key. */
  datatype KpiStat = KpiStat(mean: Num, stdev: Spread)

  /** The mean, and the sample deviation only for two or more values that are all finite. */
  function Aggregate(xs: seq<Num>): (a: KpiStat)
    requires |xs| > 0
    ensures a.stdev.SampleStdev? <==> |xs| >= 2 && AllFinite(xs)
    ensures a.mean.Finite? <==> AllFinite(xs)
  {
    KpiStat(MeanNum(xs), if |xs| >= 2 && AllFinite(xs) then SampleStdev(Reals(xs)) else ZeroSpread)
  }

  /** Each key of the first replication with the mean and spread of its values over the replications. */
  function Simstats(tables: seq<EvalTable>): map<string, KpiStat>
    requires |tables| > 0 && KeysKnown(tables)
  {
    map k | k in KeysOf(tables[0]) :: Aggregate(Series(tables, k))
  }

  /**
   * `calc_fleetpy_simstats`: collects each key's values over the replications
   * (keys taken from the first replication) and gives each key its mean and
   * spread.  Fails on an empty list (IndexError) or on a key the first
   * replication lacks (KeyError).
   */
  method CalcFleetpySimstats(tables: seq<EvalTable>) returns (r: Result<map<string, KpiStat>>)
    ensures r.Success? <==> |tables| > 0 && KeysKnown(tables)
    ensures r.Success? ==> r.value.Keys == KeysOf(tables[0])
    ensures r.Success? ==> forall k :: k in r.value ==> r.value[k] == Aggregate(Series(tables, k))
    ensures r.Success? ==> r.value == Simstats(tables)
  {
    if |tables| == 0 {
      return Failure("list index out of range");
    }
    var data := FirstValues(tables[0]);
    for j := 1 to |tables|
      invariant data.Keys == KeysOf(tables[0])
      invariant KeysKnown(tables[..j])
      invariant forall k :: k in data ==> data[k] == Series(tables[..j], k)
    {
      var next := AppendValues(data, tables[j]);
      KeysKnownStep(tables, j);
      if next.None? {
        KeysKnownPrefix(tables, j + 1);
        return Failure("KeyError");
      }
      SeriesStep(tables, j, data, next.value);
      data := next.value;
    }
    assert tables[..|tables|] == tables;
    return Success(map k | k in data :: Aggregate(data[k]));
  }

  /** Appending table j's values extends every series by that table's values. */
  lemma SeriesStep(tables: seq<EvalTable>, j: nat, data: map<string, seq<Num>>, next: map<string, seq<Num>>)
    requires 1 <= j < |tables| && data.Keys == KeysOf(tables[0])
    requires forall k :: k in data ==> data[k] == Series(tables[..j], k)
    requires next.Keys == data.Keys && forall k :: k in data ==> next[k] == data[k] + ValuesIn(tables[j], k)
    ensures forall k :: k in next ==> next[k] == Series(tables[..j + 1], k)
  {
    assert tables[..j + 1][1..] == tables[..j][1..] + [tables[j]];
    assert tables[..j + 1][1..][..j - 1] == tables[..j][1..];
  }

  /** The first j + 1 tables have known keys when the first j have and table j does. */
  lemma KeysKnownStep(tables: seq<EvalTable>, j: nat)
    requires 1 <= j < |tables|
    ensures KeysKnown(tables[..j + 1]) <==>
      KeysKnown(tables[..j]) && forall q :: 0 <= q < |tables[j]| ==> tables[j][q].0 in KeysOf(tables[0])
  {
    if KeysKnown(tables[..j + 1]) {
      forall q | 0 <= q < |tables[j]| ensures tables[j][q].0 in KeysOf(tables[0]) {
        assert tables[..j + 1][j][q].0 in KeysOf(tables[..j + 1][0]);
      }
    }
  }

  lemma KeysKnownPrefix(tables: seq<EvalTable>, j: nat)
    requires 1 <= j <= |tables|
    ensures KeysKnown(tables) ==> KeysKnown(tables[..j])
  {
  }

  /** The dictionary comprehension over the first replication: each key with its last value, as a one-element list. */
  method FirstValues(first: EvalTable) returns (data: map<string, seq<Num>>)
    ensures data.Keys == KeysOf(first)
    ensures forall k :: k in data ==> |ValuesIn(first, k)| > 0 && data[k] == [ValuesIn(first, k)[|ValuesIn(first, k)| - 1]]
  {
    data := map[];
    for q := 0 to |first|
      invariant FirstThrough(data, first[..q])
    {
      FirstStep(data, first, q);
      data := data[first[q].0 := [first[q].1]];
    }
    assert first[..|first|] == first;
  }

  /** data maps every key of t to the one-element list of its last value in t. */
  ghost predicate FirstThrough(data: map<string, seq<Num>>, t: EvalTable) {
    && data.Keys == KeysOf(t)
    && forall k :: k in data ==> |ValuesIn(t, k)| > 0 && data[k] == [ValuesIn(t, k)[|ValuesIn(t, k)| - 1]]
  }

  lemma FirstStep(data: map<string, seq<Num>>, first: EvalTable, q: nat)
    requires q < |first| && FirstThrough(data, first[..q])
    ensures FirstThrough(data[first[q].0 := [first[q].1]], first[..q + 1])
  {
    var t, t' := first[..q], first[..q + 1];
    assert t' == t + [first[q]];
    KeysOfSnoc(t, first[q]);
    forall k ensures ValuesIn(t', k) == ValuesIn(t, k) + (if first[q].0 == k then [first[q].1] else []) {
      ValuesInSnoc(t, first[q], k);
    }
  }

  lemma KeysOfSnoc(t: EvalTable, e: (string, Num))
    ensures KeysOf(t + [e]) == KeysOf(t) + {e.0}
  {
    var t' := t + [e];
    forall key | key in KeysOf(t') ensures key in KeysOf(t) + {e.0} {
      var a :| 0 <= a < |t'| && t'[a].0 == key;
      if a < |t| { assert t[a].0 == key; }
    }
    assert t'[|t|].0 == e.0;
    forall key | key in KeysOf(t) ensures key in KeysOf(t') {
      var a :| 0 <= a < |t| && t[a].0 == key;
      assert t'[a].0 == key;
    }
  }

  lemma ValuesInSnoc(t: EvalTable, e: (string, Num), k: string)
    ensures ValuesIn(t + [e], k) == ValuesIn(t, k) + (if e.0 == k then [e.1] else [])
  {
    assert (t + [e])[..|t|] == t;
  }

  /** Appends every value of one later replication to its key's list; None at a key the dictionary lacks (KeyError). */
  method AppendValues(data: map<string, seq<Num>>, t: EvalTable) returns (r: Option<map<string, seq<Num>>>)
    ensures r.Some? <==> forall q :: 0 <= q < |t| ==> t[q].0 in data
    ensures r.Some? ==> r.value.Keys == data.Keys && forall k :: k in data ==> r.value[k] == data[k] + ValuesIn(t, k)
  {
    var cur := data;
    for q := 0 to |t|
      invariant AppendedThrough(cur, data, t, q)
    {
      if t[q].0 !in cur {
        return None;
      }
      AppendStep(cur, data, t, q);
      cur := cur[t[q].0 := cur[t[q].0] + [t[q].1]];
    }
    assert t[..|t|] == t;
    return Some(cur);
  }

  /** cur is data with the values of the first q entries of t appended, all of whose keys data has. */
  ghost predicate AppendedThrough(cur: map<string, seq<Num>>, data: map<string, seq<Num>>, t: EvalTable, q: nat)
    requires q <= |t|
  {
    && cur.Keys == data.Keys
    && (forall q' :: 0 <= q' < q ==> t[q'].0 in data)
    && (forall k :: k in data ==> cur[k] == data[k] + ValuesIn(t[..q], k))
  }

  lemma AppendStep(cur: map<string, seq<Num>>, data: map<string, seq<Num>>, t: EvalTable, q: nat)
    requires q < |t| && AppendedThrough(cur, data, t, q) && t[q].0 in cur
    ensures AppendedThrough(cur[t[q].0 := cur[t[q].0] + [t[q].1]], data, t, q + 1)
  {
    assert t[..q + 1] == t[..q] + [t[q]];
    forall k ensures ValuesIn(t[..q + 1], k) == ValuesIn(t[..q], k) + (if t[q].0 == k then [t[q].1] else []) {
      ValuesInSnoc(t[..q], t[q], k);
    }
  }

  /**
   * When every replication reports key k exactly once, the value list of k has
   * one entry per replication, in replication order.
   */
  lemma {:induction false} ConcatOnePerTable(ts: seq<EvalTable>, k: string)
    requires forall j :: 0 <= j < |ts| ==> |ValuesIn(ts[j], k)| == 1
    ensures |ConcatValues(ts, k)| == |ts|
    ensures forall j :: 0 <= j < |ts| ==> ConcatValues(ts, k)[j] == ValuesIn(ts[j], k)[0]
    decreases |ts|
  {
    if ts != [] {
      ConcatOnePerTable(ts[..|ts| - 1], k);
    }
  }

  /**
   * With one value of k per replication, the mean over the replications is the
   * plain mean of those values, and a single replication gets the zero spread.
   */
  lemma SeriesOnePerReplication(tables: seq<EvalTable>, k: string)
    requires |tables| > 0 && k in KeysOf(tables[0])
    requires forall j :: 0 <= j < |tables| ==> |ValuesIn(tables[j], k)| == 1
    ensures |Series(tables, k)| == |tables|
    ensures forall j :: 0 <= j < |tables| ==> Series(tables, k)[j] == ValuesIn(tables[j], k)[0]
    ensures |tables| == 1 ==> Aggregate(Series(tables, k)).stdev == ZeroSpread
  {
    ConcatOnePerTable(tables[1..], k);
  }

  // ------------------------------------------------------------ reconciliation

  /** One row of the simulator's per-request output; `pickup` is None when the request was never picked up. */
  datatype Outcome = Outcome(requestId: int, rqTime: real, pickup: Option<real>, dropoff: real)

  /** The picked-up requests (the rows left after dropping a missing pickup time), in file order. */
  function ServedOutcomes(os: seq<Outcome>): (r: seq<Outcome>)
    ensures forall o :: o in r <==> o in os && o.pickup.Some?
  {
    if os == [] then []
    else
      var init := os[..|os| - 1];
      assert os == init + [os[|os| - 1]];
      ServedOutcomes(init) + (if os[|os| - 1].pickup.Some? then [os[|os| - 1]] else [])
  }

  /** The simulator reports each picked-up request once. */
  predicate UniqueServedIds(os: seq<Outcome>) {
    forall a, b :: a in os && b in os && a.pickup.Some? && b.pickup.Some? && a.requestId == b.requestId ==> a == b
  }

  /** The served outcome of request `id`, if there is one. */
  function MatchOf(served: seq<Outcome>, id: int): (r: Option<Outcome>)
    ensures r.Some? ==> r.value in served && r.value.requestId == id
    ensures r.None? <==> forall o :: o in served ==> o.requestId != id
  {
    if served == [] then None
    else if served[0].requestId == id then Some(served[0])
    else
      assert forall o :: o in served ==> o == served[0] || o in served[1..];
      MatchOf(served[1..], id)
  }

  /**
   * The merge and the two masks applied to one traveller: a traveller with a
   * served outcome gets served = 1 and the realised wait (pickup - request
   * time), travel (dropoff - pickup) and their total; an NSM chooser without
   * one and not already served gets served = 0; every other field, and every
   * other traveller, is left as it was.
   */
  function ReconcileRow(t: Traveler, served: seq<Outcome>): (r: Traveler)
    requires forall o :: o in served ==> o.pickup.Some?
    ensures r.choice == t.choice
    ensures MatchOf(served, t.requestId).Some? ==>
      var o := MatchOf(served, t.requestId).value;
      && r.served == Served
      && r.nsmWaitTime == o.pickup.value - o.rqTime
      && r.nsmTravelTime == o.dropoff - o.pickup.value
      && r.nsmTotalTime == r.nsmWaitTime + r.nsmTravelTime
      && r == t.(served := r.served, nsmWaitTime := r.nsmWaitTime, nsmTravelTime := r.nsmTravelTime, nsmTotalTime := r.nsmTotalTime)
    ensures MatchOf(served, t.requestId).None? ==>
      r == t.(served := if t.choice == Nsm && t.served != Served then Unserved else t.served)
  {
    match MatchOf(served, t.requestId)
    case Some(o) =>
      var wait := o.pickup.value - o.rqTime;
      var travel := o.dropoff - o.pickup.value;
      t.(served := Served, nsmWaitTime := wait, nsmTravelTime := travel, nsmTotalTime := wait + travel)
    case None =>
      if t.choice == Nsm && t.served != Served then t.(served := Unserved) else t
  }

  /**
   * On a traveller not yet reconciled (served = -1) the three states mean what
   * they say: 1 exactly when the simulator picked the request up, 0 exactly for
   * an NSM chooser it did not pick up, -1 exactly for everyone else.
   */
  lemma ReconcileTriState(t: Traveler, served: seq<Outcome>)
    requires forall o :: o in served ==> o.pickup.Some?
    requires t.served == NotRequested
    ensures ReconcileRow(t, served).served == Served <==> (exists o :: o in served && o.requestId == t.requestId)
    ensures ReconcileRow(t, served).served == Unserved <==>
      t.choice == Nsm && forall o :: o in served ==> o.requestId != t.requestId
    ensures ReconcileRow(t, served).served == NotRequested <==>
      t.choice != Nsm && forall o :: o in served ==> o.requestId != t.requestId
  {
    var m := MatchOf(served, t.requestId);
  }

  /** Reconciling a reconciled traveller again with the same outcomes changes nothing. */
  lemma ReconcileIdempotent(t: Traveler, served: seq<Outcome>)
    requires forall o :: o in served ==> o.pickup.Some?
    ensures ReconcileRow(ReconcileRow(t, served), served) == ReconcileRow(t, served)
  {
    var r := ReconcileRow(t, served);
    assert r.requestId == t.requestId;
  }

  /**
   * `update_requests_fleetpy_users_served`: None when either file is missing or
   * empty; the traveller table untouched when nobody was picked up; otherwise
   * every traveller reconciled against the picked-up requests, in table order.
   */
  function UpdateRequestsUsersServed(alltrav: Option<seq<Traveler>>, outcomes: Option<seq<Outcome>>)
    : (r: Option<seq<Traveler>>)
    requires outcomes.Some? ==> UniqueServedIds(outcomes.value)
    ensures r.Some? <==> alltrav.Some? && outcomes.Some?
    ensures r.Some? ==> |r.value| == |alltrav.value|
    ensures r.Some? && ServedOutcomes(outcomes.value) == [] ==> r.value == alltrav.value
    ensures r.Some? && ServedOutcomes(outcomes.value) != [] ==>
      forall k :: 0 <= k < |r.value| ==> r.value[k] == ReconcileRow(alltrav.value[k], ServedOutcomes(outcomes.value))
  {
    if alltrav.None? || outcomes.None? then None
    else
      var served := ServedOutcomes(outcomes.value);
      if served == [] then alltrav
      else
        var rows := alltrav.value;
        Some(seq(|rows|, k requires 0 <= k < |rows| => ReconcileRow(rows[k], served)))
  }

  /**
   * When the simulator picked nobody up the table comes back as it was, so an
   * NSM chooser keeps served = -1 instead of being marked unserved.
   */
  lemma NoPickupLeavesNsmUnmarked(alltrav: seq<Traveler>, outcomes: seq<Outcome>, k: nat)
    requires forall o :: o in outcomes ==> o.pickup.None?
    requires k < |alltrav| && alltrav[k].choice == Nsm && alltrav[k].served == NotRequested
    ensures UpdateRequestsUsersServed(Some(alltrav), Some(outcomes)).Some?
    ensures UpdateRequestsUsersServed(Some(alltrav), Some(outcomes)).value[k].served == NotRequested
  {
    NothingServed(outcomes);
  }

  lemma {:induction false} NothingServed(os: seq<Outcome>)
    requires forall o :: o in os ==> o.pickup.None?
    ensures ServedOutcomes(os) == []
    decreases |os|
  {
    if os != [] {
      var init := os[..|os| - 1];
      assert forall o :: o in init ==> o in os;
      NothingServed(init);
    }
  }

  /**
   * `get_fleetpy_userdata_allreps`: one entry per replication, None where a
   * file was missing or empty, the reconciled table otherwise.
   */
  method GetFleetpyUserdataAllreps(presim: seq<Option<seq<Traveler>>>, outcomes: seq<Option<seq<Outcome>>>)
    returns (r: seq<Option<seq<Traveler>>>)
    requires |presim| == |outcomes|
    requires forall j :: 0 <= j < |outcomes| && outcomes[j].Some? ==> UniqueServedIds(outcomes[j].value)
    ensures |r| == |presim|
    ensures forall j :: 0 <= j < |r| ==> (r[j].None? <==> presim[j].None? || outcomes[j].None?)
    ensures forall j :: 0 <= j < |r| ==> r[j] == UpdateRequestsUsersServed(presim[j], outcomes[j])
  {
    r := [];
    for j := 0 to |presim|
      invariant |r| == j
      invariant forall j' :: 0 <= j' < j ==> r[j'] == UpdateRequestsUsersServed(presim[j'], outcomes[j'])
    {
      r := r + [UpdateRequestsUsersServed(presim[j], outcomes[j])];
    }
  }

  /**
   * `update_fleetpy_unservedchoose`: every row gets modified = 0 and prevchoice
   * = choice; every row with served = 0 is redrawn among the non-NSM modes (its
   * uniform number is draws[k]) and gets modified = 1; finally unserved =
   * modified.  When one redraw fails the sampler raises before the choice
   * column is written, so only the first two columns have changed.
   */
  method UpdateFleetpyUnservedchoose(df: array<Traveler>, draws: seq<real>) returns (ok: bool)
    requires |draws| == df.Length && forall k :: 0 <= k < |draws| ==> DcaCalc.UnitInterval(draws[k])
    modifies df
    ensures ok <==> forall k :: 0 <= k < df.Length && old(df[k]).served == Unserved ==>
      DcaCalc.ReassignUnserved(old(df[k]).prc, draws[k]).Success?
    ensures !ok ==> forall k :: 0 <= k < df.Length ==> df[k] == old(df[k]).(modified := 0, prevChoice := old(df[k]).choice)
    ensures ok ==> forall k :: 0 <= k < df.Length && old(df[k]).served == Unserved ==>
      df[k] == old(df[k]).(choice := DcaCalc.ReassignUnserved(old(df[k]).prc, draws[k]).value,
                           modified := 1, prevChoice := old(df[k]).choice, unserved := 1)
    ensures ok ==> forall k :: 0 <= k < df.Length && old(df[k]).served != Unserved ==>
      df[k] == old(df[k]).(modified := 0, prevChoice := old(df[k]).choice, unserved := 0)
    ensures ok ==> forall k :: 0 <= k < df.Length && df[k].served == Unserved ==> df[k].choice != Nsm
  {
    forall k | 0 <= k < df.Length {
      df[k] := df[k].(modified := 0, prevChoice := df[k].choice);
    }
    ok := forall k :: 0 <= k < df.Length && df[k].served == Unserved ==> DcaCalc.ReassignUnserved(df[k].prc, draws[k]).Success?;
    if !ok {
      return;
    }
    forall k | 0 <= k < df.Length {
      df[k] := if df[k].served == Unserved
        then df[k].(choice := DcaCalc.ReassignUnserved(df[k].prc, draws[k]).value, modified := 1)
        else df[k];
    }
    forall k | 0 <= k < df.Length {
      df[k] := df[k].(unserved := df[k].modified);
    }
  }

  // ------------------------------------------------------------ traveller statistics

  /** The rows with served = 1, in order. */
  function ServedRows(rows: seq<Traveler>): (s: seq<Traveler>)
    ensures forall k :: 0 <= k < |s| ==> s[k].served == Served
  {
    if rows == [] then []
    else ServedRows(rows[..|rows| - 1]) + (if rows[|rows| - 1].served == Served then [rows[|rows| - 1]] else [])
  }

  function Waits(rows: seq<Traveler>): seq<real> { seq(|rows|, k requires 0 <= k < |rows| => rows[k].nsmWaitTime) }
  function Travels(rows: seq<Traveler>): seq<real> { seq(|rows|, k requires 0 <= k < |rows| => rows[k].nsmTravelTime) }
  function CarTimes(rows: seq<Traveler>): seq<real> { seq(|rows|, k requires 0 <= k < |rows| => rows[k].carTime) }

  /** One replication's means over its served travellers, and their NSM-to-car time ratio. */
  datatype RepMeans = RepMeans(wait: real, travel: real, car: real, ratio: real)

  /**
   * The per-replication means of `calc_userstats_allreps`: fails when nobody
   * was served (the mean of no data).  A mean car time of 0 fails too: the
   * numpy division there yields an infinite or NaN ratio, which the real-valued
   * trackers cannot hold.
   */
  function RepMeansOf(rows: seq<Traveler>): (r: Result<RepMeans>)
    ensures r.Success? <==> |ServedRows(rows)| > 0 && Mean(CarTimes(ServedRows(rows))) != 0.0
    ensures r.Success? ==>
      && r.value.wait == Mean(Waits(ServedRows(rows)))
      && r.value.travel == Mean(Travels(ServedRows(rows)))
      && r.value.car == Mean(CarTimes(ServedRows(rows)))
      && r.value.ratio * r.value.car == r.value.wait + r.value.travel
  {
    var s := ServedRows(rows);
    if |s| == 0 then Failure("mean requires at least one data point")
    else
      var w, t, c := Mean(Waits(s)), Mean(Travels(s)), Mean(CarTimes(s));
      if c == 0.0 then Failure("non-finite time ratio")
      else Success(RepMeans(w, t, c, (w + t) / c))
  }

  /** Mean and spread over the replications; the spread is zero for a single replication. */
  datatype Agg = Agg(mean: real, stdev: Spread)

  function AggOf(xs: seq<real>): (a: Agg)
    requires |xs| > 0
    ensures a.stdev == ZeroSpread <==> |xs| == 1
  {
    Agg(Mean(xs), if |xs| > 1 then SampleStdev(xs) else ZeroSpread)
  }

  /** The four aggregated traveller statistics. */
  datatype UserStats = UserStats(nsmWaitTime: Agg, nsmTravelTime: Agg, carTime: Agg, nsmCarTimeRatio: Agg)

  /** Every replication's table is present and has well-defined means. */
  predicate AllMeasurable(dflist: seq<Option<seq<Traveler>>>) {
    forall j :: 0 <= j < |dflist| ==> dflist[j].Some? && RepMeansOf(dflist[j].value).Success?
  }

  function MeansOf(dflist: seq<Option<seq<Traveler>>>): (ms: seq<RepMeans>)
    requires AllMeasurable(dflist)
    ensures |ms| == |dflist|
  {
    seq(|dflist|, j requires 0 <= j < |dflist| => RepMeansOf(dflist[j].value).value)
  }

  function WaitMeans(ms: seq<RepMeans>): seq<real> { seq(|ms|, j requires 0 <= j < |ms| => ms[j].wait) }
  function TravelMeans(ms: seq<RepMeans>): seq<real> { seq(|ms|, j requires 0 <= j < |ms| => ms[j].travel) }
  function CarMeans(ms: seq<RepMeans>): seq<real> { seq(|ms|, j requires 0 <= j < |ms| => ms[j].car) }
  function RatioMeans(ms: seq<RepMeans>): seq<real> { seq(|ms|, j requires 0 <= j < |ms| => ms[j].ratio) }

  /** Each statistic's mean and spread over the per-replication means. */
  function UserStatsOf(dflist: seq<Option<seq<Traveler>>>): UserStats
    requires AllMeasurable(dflist) && |dflist| > 0
  {
    var ms := MeansOf(dflist);
    UserStats(AggOf(WaitMeans(ms)), AggOf(TravelMeans(ms)), AggOf(CarMeans(ms)), AggOf(RatioMeans(ms)))
  }

  /**
   * `calc_userstats_allreps`: the per-replication means collected in
   * replication order, then their mean and spread for each statistic.  Fails
   * on an empty list, a missing table or a replication without means.
   */
  method CalcUserstatsAllreps(dflist: seq<Option<seq<Traveler>>>) returns (r: Result<UserStats>)
    ensures r.Success? <==> |dflist| > 0 && AllMeasurable(dflist)
    ensures r.Success? ==> r.value == UserStats(
      AggOf(WaitMeans(MeansOf(dflist))), AggOf(TravelMeans(MeansOf(dflist))),
      AggOf(CarMeans(MeansOf(dflist))), AggOf(RatioMeans(MeansOf(dflist))))
  {
    var ms: seq<RepMeans> := [];
    for j := 0 to |dflist|
      invariant |ms| == j
      invariant AllMeasurable(dflist[..j]) && ms == MeansOf(dflist[..j])
    {
      if dflist[j].None? {
        return Failure("'NoneType' object has no attribute 'loc'");
      }
      var m := RepMeansOf(dflist[j].value);
      if m.Failure? {
        return Failure(m.error);
      }
      ms := ms + [m.value];
      assert dflist[..j + 1][..j] == dflist[..j];
    }
    assert dflist[..|dflist|] == dflist;
    if |ms| == 0 {
      return Failure("mean requires at least one data point");
    }
    r := Success(UserStats(AggOf(WaitMeans(ms)), AggOf(TravelMeans(ms)), AggOf(CarMeans(ms)), AggOf(RatioMeans(ms))));
  }

  /**
   * The aggregated ratio lies between the smallest and largest per-replication
   * ratio, and with a single replication it is that replication's ratio
   * (wait + travel) / car time, with zero spread.
   */
  lemma UserStatsRatioBounds(dflist: seq<Option<seq<Traveler>>>, lo: real, hi: real)
    requires |dflist| > 0 && AllMeasurable(dflist)
    requires forall j :: 0 <= j < |dflist| ==> lo <= RepMeansOf(dflist[j].value).value.ratio <= hi
    ensures lo <= AggOf(RatioMeans(MeansOf(dflist))).mean <= hi
    ensures |dflist| == 1 ==>
      var m := RepMeansOf(dflist[0].value).value;
      AggOf(RatioMeans(MeansOf(dflist))) == Agg(m.ratio, ZeroSpread) && m.ratio * m.car == m.wait + m.travel
  {
    var xs := RatioMeans(MeansOf(dflist));
    MeanBounds(xs, lo, hi);
    if |dflist| == 1 {
      MeanConstant(xs, xs[0]);
    }
  }
}
