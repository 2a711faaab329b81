/**
 * The multinomial-logit choice engine: availability flags, linear utilities,
 * exp(u)*av weights, probabilities and the random draw of a mode, with the
 * draw's uniform number passed in explicitly.
 */
module DcaCalc {
  import opened Wrappers
  import opened Records

  /** The exponential function, known only to be positive. */
  type PositiveFn = f: real -> real | forall x :: f(x) > 0.0 witness (x: real) => 1.0

  /** Uniform numbers in [0,1), as the random generator supplies them. */
  predicate UnitInterval(x: real) { 0.0 <= x < 1.0 }

  // ---------------------------------------------------------------- availability

  /**
   * The availability of one mode for one traveller under `rule`, with `draw` the
   * traveller's uniform number for that mode.  A column rule fails when the
   * column does not exist (KeyError); a number that is neither 0, 1 nor strictly
   * between them fails (ValueError).
   */
  function Availability(rule: AvailRule, t: Traveler, draw: real): (r: Result<real>)
    ensures rule.Column? ==> (r.Success? <==> rule.name in t.extra)
    ensures rule.Column? && r.Success? ==> r.value == t.extra[rule.name]
    ensures rule.Rate? ==> (r.Success? <==> 0.0 <= rule.v <= 1.0)
    ensures rule.Rate? && r.Success? ==> (r.value == 0.0 || r.value == 1.0)
    ensures rule.Rate? && (rule.v == 0.0 || rule.v == 1.0) ==> r == Success(rule.v)
    ensures rule.Rate? && 0.0 < rule.v < 1.0 ==> r.Success? && (r.value == 1.0 <==> draw < rule.v)
  {
    match rule
    case Column(name) =>
      if name in t.extra then Success(t.extra[name]) else Failure("KeyError: " + name)
    case Rate(v) =>
      if v == 0.0 || v == 1.0 then Success(v)
      else if 0.0 < v < 1.0 then Success(if draw < v then 1.0 else 0.0)
      else Failure("cannot calculate availability")
  }

  /** Rule `rule` can be applied to every row (draws: one per row). */
  predicate RuleApplies(rule: AvailRule, rows: seq<Traveler>, draws: seq<real>)
    requires |draws| == |rows|
  {
    forall k :: 0 <= k < |rows| ==> Availability(rule, rows[k], draws[k]).Success?
  }

  predicate WellShapedDraws(draws: seq<seq<real>>, n: nat) {
    |draws| == NumModes && forall m :: 0 <= m < NumModes ==> |draws[m]| == n
  }

  /** The first mode (from m on) whose rule cannot be applied, or 5 if there is none. */
  function FirstFailingRule(rules: seq<AvailRule>, rows: seq<Traveler>, draws: seq<seq<real>>, m: nat): (f: nat)
    requires |rules| == NumModes && WellShapedDraws(draws, |rows|) && m <= NumModes
    ensures m <= f <= NumModes
    ensures forall j :: m <= j < f ==> RuleApplies(rules[j], rows, draws[j])
    ensures f < NumModes ==> !RuleApplies(rules[f], rows, draws[f])
    decreases NumModes - m
  {
    if m == NumModes then NumModes
    else if !RuleApplies(rules[m], rows, draws[m]) then m
    else FirstFailingRule(rules, rows, draws, m + 1)
  }

  /** The availability vector of row t after the first n rules have been applied. */
  function AvailsThrough(rules: seq<AvailRule>, t: Traveler, draws: seq<seq<real>>, k: nat, n: nat): (av: PerMode)
    requires |rules| == NumModes && |draws| == NumModes && n <= NumModes
    requires forall m :: 0 <= m < NumModes ==> k < |draws[m]|
    requires forall m :: 0 <= m < n ==> Availability(rules[m], t, draws[m][k]).Success?
    ensures forall m :: 0 <= m < n ==> av[m] == Availability(rules[m], t, draws[m][k]).value
    ensures forall m :: n <= m < NumModes ==> av[m] == t.av[m]
  {
    seq(5, m requires 0 <= m < 5 => if m < n then Availability(rules[m], t, draws[m][k]).value else t.av[m])
  }

  /**
   * Writes the availability columns mode by mode.  At the first rule that cannot
   * be applied it stops with ok == false; the columns of the earlier modes are
   * then already written, which is the state the exception leaves behind.
   */
  method CalcAllAvailabilities(df: array<Traveler>, rules: seq<AvailRule>, draws: seq<seq<real>>) returns (ok: bool)
    requires |rules| == NumModes && WellShapedDraws(draws, df.Length)
    modifies df
    ensures ok <==> FirstFailingRule(rules, old(df[..]), draws, 0) == NumModes
    ensures ok <==> forall m :: 0 <= m < NumModes ==> RuleApplies(rules[m], old(df[..]), draws[m])
    ensures forall k :: 0 <= k < df.Length ==>
      df[k] == old(df[k]).(av := AvailsThrough(rules, old(df[k]), draws, k, FirstFailingRule(rules, old(df[..]), draws, 0)))
  {
    ghost var rows := df[..];
    ghost var f := FirstFailingRule(rules, rows, draws, 0);
    var m := 0;
    while m < NumModes
      invariant 0 <= m <= f
      invariant forall k :: 0 <= k < df.Length ==> df[k] == rows[k].(av := AvailsThrough(rules, rows[k], draws, k, m))
    {
      var applies := RuleAppliesToAll(df, rules[m], draws[m], rows);
      if !applies {
        return false;
      }
      WriteColumn(df, rules[m], draws[m], m);
      forall k | 0 <= k < df.Length
        ensures df[k] == rows[k].(av := AvailsThrough(rules, rows[k], draws, k, m + 1))
      {
        AvailsThroughStep(rules, rows[k], draws, k, m);
      }
      m := m + 1;
    }
    return true;
  }

  /** Whether the rule applies to every row; rows with the same extra columns as the array's. */
  method RuleAppliesToAll(df: array<Traveler>, rule: AvailRule, col: seq<real>, ghost rows: seq<Traveler>) returns (applies: bool)
    requires |col| == df.Length == |rows|
    requires forall k :: 0 <= k < df.Length ==> df[k].extra == rows[k].extra
    ensures applies <==> RuleApplies(rule, rows, col)
  {
    applies := forall k :: 0 <= k < df.Length ==> Availability(rule, df[k], col[k]).Success?;
    assert forall k :: 0 <= k < df.Length ==> Availability(rule, df[k], col[k]) == Availability(rule, rows[k], col[k]);
  }

  /** Writes the availability column of mode m under `rule`. */
  method WriteColumn(df: array<Traveler>, rule: AvailRule, col: seq<real>, m: Mode)
    requires |col| == df.Length
    requires forall k :: 0 <= k < df.Length ==> Availability(rule, df[k], col[k]).Success?
    modifies df
    ensures forall k :: 0 <= k < df.Length ==>
      df[k] == old(df[k]).(av := old(df[k]).av[m := Availability(rule, old(df[k]), col[k]).value])
  {
    forall k | 0 <= k < df.Length {
      df[k] := df[k].(av := df[k].av[m := Availability(rule, df[k], col[k]).value]);
    }
  }

  /** Applying rule m to a row that has the first m columns written gives the first m+1 columns. */
  lemma AvailsThroughStep(rules: seq<AvailRule>, t: Traveler, draws: seq<seq<real>>, k: nat, m: Mode)
    requires |rules| == NumModes && |draws| == NumModes
    requires forall j :: 0 <= j < NumModes ==> k < |draws[j]|
    requires forall j :: 0 <= j <= m ==> Availability(rules[j], t, draws[j][k]).Success?
    ensures var w := t.(av := AvailsThrough(rules, t, draws, k, m));
      Availability(rules[m], w, draws[m][k]) == Availability(rules[m], t, draws[m][k]) &&
      w.(av := w.av[m := Availability(rules[m], w, draws[m][k]).value]) == t.(av := AvailsThrough(rules, t, draws, k, m + 1))
  {
    var w := t.(av := AvailsThrough(rules, t, draws, k, m));
    assert w.extra == t.extra;
    assert w.av[m := Availability(rules[m], t, draws[m][k]).value] == AvailsThrough(rules, t, draws, k, m + 1);
  }

  // ---------------------------------------------------------------- utilities

  /** The choice-model coefficients. */
  datatype Coefs = Coefs(ascWalk: real, ascBike: real, ascCar: real, ascPt: real, ascNsm: real,
                         bCost: real, bTime: real, bRisk: real)

  /** The coefficient names, in the order of the fields of Coefs. */
  const CoefNames: seq<string> := ["ASC_WALK", "ASC_BIKE", "ASC_CAR", "ASC_PT", "ASC_NSM", "B_COST", "B_TIME", "B_RISK"]

  /** Reads the coefficients out of a dictionary; None where a lookup raises KeyError. */
  function CoefsOf(m: map<string, real>): (r: Option<Coefs>)
    ensures r.Some? <==> forall n :: n in CoefNames ==> n in m
  {
    if forall n :: n in CoefNames ==> n in m then
      Some(Coefs(m["ASC_WALK"], m["ASC_BIKE"], m["ASC_CAR"], m["ASC_PT"], m["ASC_NSM"],
                 m["B_COST"], m["B_TIME"], m["B_RISK"]))
    else None
  }

  /** The contribution coef * x of one attribute to a utility. */
  function Term(coef: real, x: real): real {
    coef * x
  }

  /** The five utilities of traveller t; the NSM risk is 1 - serviceRate. */
  function Utilities(t: Traveler, c: Coefs, serviceRate: real): (u: PerMode)
  {
    [c.ascWalk + Term(c.bTime, t.walkTime),
     c.ascBike + Term(c.bTime, t.bikeTime),
     c.ascCar + Term(c.bTime, t.carTime) + Term(c.bCost, t.carCost),
     c.ascPt + Term(c.bTime, t.ptTime) + Term(c.bCost, t.ptCost),
     c.ascNsm + Term(c.bTime, t.nsmTotalTime) + Term(c.bCost, t.nsmCost) + Term(c.bRisk, 1.0 - serviceRate)]
  }

  /** Reference form: the constant of mode m. */
  function Asc(c: Coefs, m: Mode): real {
    [c.ascWalk, c.ascBike, c.ascCar, c.ascPt, c.ascNsm][m]
  }

  /** Reference form: the travel time of mode m. */
  function TimeOf(t: Traveler, m: Mode): real {
    [t.walkTime, t.bikeTime, t.carTime, t.ptTime, t.nsmTotalTime][m]
  }

  /** Reference form: the cost of mode m; walking and cycling cost nothing. */
  function CostOf(t: Traveler, m: Mode): real {
    if m == Walk || m == Bike then 0.0 else [0.0, 0.0, t.carCost, t.ptCost, t.nsmCost][m]
  }

  /**
   * Every utility is the linear form ASC + B_TIME*time + B_COST*cost, plus
   * B_RISK*(1 - service rate) for NSM only.
   */
  lemma UtilitiesLinear(t: Traveler, c: Coefs, serviceRate: real, m: Mode)
    ensures Utilities(t, c, serviceRate)[m] ==
      Asc(c, m) + c.bTime * TimeOf(t, m) + c.bCost * CostOf(t, m) + (if m == Nsm then c.bRisk * (1.0 - serviceRate) else 0.0)
  {
  }

  /** The service rate changes the NSM utility only; the other four do not depend on it or on NSM times and cost. */
  lemma UtilitiesServiceRateOnlyNsm(t: Traveler, t': Traveler, c: Coefs, sr: real, sr': real, m: Mode)
    requires m != Nsm
    requires t'.walkTime == t.walkTime && t'.bikeTime == t.bikeTime && t'.carTime == t.carTime
    requires t'.carCost == t.carCost && t'.ptTime == t.ptTime && t'.ptCost == t.ptCost
    ensures Utilities(t', c, sr')[m] == Utilities(t, c, sr)[m]
  {
    var u, u' := Utilities(t, c, sr), Utilities(t', c, sr');
    assert u'[Walk] == u[Walk] && u'[Bike] == u[Bike] && u'[Car] == u[Car] && u'[Pt] == u[Pt];
  }

  /** Walk and bike utilities do not depend on the cost coefficient. */
  lemma UtilitiesNoCostForActiveModes(t: Traveler, c: Coefs, sr: real, bCost': real)
    ensures Utilities(t, c.(bCost := bCost'), sr)[Walk] == Utilities(t, c, sr)[Walk]
    ensures Utilities(t, c.(bCost := bCost'), sr)[Bike] == Utilities(t, c, sr)[Bike]
  {
  }

  /** With a negative risk coefficient a higher service rate raises the NSM utility. */
  lemma UtilityNsmMonotone(t: Traveler, c: Coefs, sr: real, sr': real)
    requires c.bRisk < 0.0 && sr < sr'
    ensures Utilities(t, c, sr)[Nsm] < Utilities(t, c, sr')[Nsm]
  {
    assert Term(c.bRisk, 1.0 - sr') - Term(c.bRisk, 1.0 - sr) == (-c.bRisk) * (sr' - sr);
    MulPos(-c.bRisk, sr' - sr);
  }

  /** Writes the five utility columns of every row. */
  method CalcAllUtilities(df: array<Traveler>, c: Coefs, serviceRate: real)
    modifies df
    ensures forall k :: 0 <= k < df.Length ==> df[k] == old(df[k]).(u := Utilities(old(df[k]), c, serviceRate))
  {
    forall k | 0 <= k < df.Length {
      df[k] := df[k].(u := Utilities(df[k], c, serviceRate));
    }
  }

  // ---------------------------------------------------------------- exps and probabilities

  /** The weight exp(u_m) * av_m of mode m. */
  function Weight(u: PerMode, av: PerMode, m: Mode, exp: PositiveFn): real {
    exp(u[m]) * av[m]
  }

  /** The weight of mode m depends on the utility of m only. */
  lemma WeightUses(u: PerMode, u': PerMode, av: PerMode, m: Mode, exp: PositiveFn)
    requires u[m] == u'[m]
    ensures Weight(u, av, m, exp) == Weight(u', av, m, exp)
  {
  }

  /** The weights of the five modes. */
  function ExpsOf(u: PerMode, av: PerMode, exp: PositiveFn): PerMode {
    seq(5, m requires 0 <= m < 5 => Weight(u, av, m, exp))
  }

  /** An unavailable mode has weight 0, an available one a positive weight. */
  lemma ExpsZeroIffUnavailable(u: PerMode, av: PerMode, exp: PositiveFn, m: Mode)
    ensures ExpsOf(u, av, exp)[m] == 0.0 <==> av[m] == 0.0
    ensures av[m] > 0.0 ==> ExpsOf(u, av, exp)[m] > 0.0
    ensures av[m] >= 0.0 ==> ExpsOf(u, av, exp)[m] >= 0.0
  {
    var e := exp(u[m]);
    assert e > 0.0;
    if av[m] > 0.0 { MulPos(e, av[m]); }
    if av[m] < 0.0 { MulPos(e, -av[m]); }
  }

  lemma MulPos(a: real, b: real)
    requires a > 0.0 && b > 0.0
    ensures a * b > 0.0
  {
  }

  /** The weight total is positive when all flags are non-negative and some mode is available. */
  lemma ExpTotalPositive(u: PerMode, av: PerMode, exp: PositiveFn, m: Mode)
    requires forall j :: 0 <= j < 5 ==> av[j] >= 0.0
    requires av[m] > 0.0
    ensures Total(ExpsOf(u, av, exp)) > 0.0
  {
    ExpsNonNegative(u, av, exp, m);
    TotalPositive(ExpsOf(u, av, exp), m);
  }

  /** With non-negative flags every weight is non-negative, and an available mode's weight is positive. */
  lemma ExpsNonNegative(u: PerMode, av: PerMode, exp: PositiveFn, a: Mode)
    requires forall j :: 0 <= j < 5 ==> av[j] >= 0.0
    requires av[a] > 0.0
    ensures forall j :: 0 <= j < 5 ==> ExpsOf(u, av, exp)[j] >= 0.0
    ensures ExpsOf(u, av, exp)[a] > 0.0
  {
    forall j: Mode ensures ExpsOf(u, av, exp)[j] >= 0.0 {
      ExpsZeroIffUnavailable(u, av, exp, j);
    }
    ExpsZeroIffUnavailable(u, av, exp, a);
  }

  /** Non-negative weights with one positive weight have a positive total. */
  lemma TotalPositive(ex: PerMode, a: Mode)
    requires forall j :: 0 <= j < 5 ==> ex[j] >= 0.0
    requires ex[a] > 0.0
    ensures Total(ex) > 0.0
  {
  }

  lemma PrefixTotal(s: PerMode)
    ensures Prefix(s, 4) == s[0] + s[1] + s[2] + s[3]
    ensures Prefix(s, 5) == Total(s)
  {
    assert Prefix(s, 1) == s[0];
    assert Prefix(s, 2) == s[0] + s[1];
  }

  /** The weights of row t after the first n modes have been written. */
  function ExpsThrough(t: Traveler, n: nat, exp: PositiveFn): (ex: PerMode)
    requires n <= 5
    ensures forall j :: 0 <= j < n ==> ex[j] == ExpsOf(t.u, t.av, exp)[j]
    ensures forall j :: n <= j < 5 ==> ex[j] == t.ex[j]
  {
    seq(5, j requires 0 <= j < 5 => if j < n then Weight(t.u, t.av, j, exp) else t.ex[j])
  }

  lemma ExpsThroughStep(t: Traveler, n: nat, exp: PositiveFn)
    requires n < 5
    ensures ExpsThrough(t, n + 1, exp) == ExpsThrough(t, n, exp)[n := Weight(t.u, t.av, n, exp)]
  {
    var a := ExpsThrough(t, n + 1, exp);
    var b := ExpsThrough(t, n, exp)[n := Weight(t.u, t.av, n, exp)];
    forall j | 0 <= j < 5 ensures a[j] == b[j] {
    }
  }

  lemma ExpsThroughAll(t: Traveler, exp: PositiveFn)
    ensures ExpsThrough(t, 5, exp) == ExpsOf(t.u, t.av, exp)
  {
    var a := ExpsThrough(t, 5, exp);
    forall j | 0 <= j < 5 ensures a[j] == ExpsOf(t.u, t.av, exp)[j] {
    }
  }

  /** Writes the weight of mode m in every row. */
  method WriteWeight(df: array<Traveler>, m: Mode, exp: PositiveFn)
    modifies df
    ensures forall k :: 0 <= k < df.Length ==>
      df[k] == old(df[k]).(ex := old(df[k]).ex[m := Weight(old(df[k]).u, old(df[k]).av, m, exp)])
  {
    forall k | 0 <= k < df.Length {
      df[k] := df[k].(ex := df[k].ex[m := Weight(df[k].u, df[k].av, m, exp)]);
    }
  }

  /** Adds every row's weight of mode m to its running total. */
  method AddWeights(df: array<Traveler>, total: seq<real>, m: Mode) returns (r: seq<real>)
    requires |total| == df.Length
    ensures |r| == df.Length && forall k :: 0 <= k < df.Length ==> r[k] == total[k] + df[k].ex[m]
  {
    r := seq(df.Length, k requires 0 <= k < df.Length reads df => total[k] + df[k].ex[m]);
  }

  /**
   * Writes exp_m = exp(u_m) * av_m mode by mode while accumulating the running
   * total, then writes exp_total.
   */
  method CalcAllExps(df: array<Traveler>, exp: PositiveFn)
    modifies df
    ensures forall k :: 0 <= k < df.Length ==>
      df[k] == old(df[k]).(ex := ExpsOf(old(df[k]).u, old(df[k]).av, exp),
                           expTotal := Total(ExpsOf(old(df[k]).u, old(df[k]).av, exp)))
  {
    ghost var rows := df[..];
    var total: seq<real> := seq(df.Length, k => 0.0);
    for m := 0 to 5
      invariant |total| == df.Length
      invariant forall k :: 0 <= k < df.Length ==> df[k] == rows[k].(ex := ExpsThrough(rows[k], m, exp))
      invariant forall k :: 0 <= k < df.Length ==> total[k] == Prefix(ExpsOf(rows[k].u, rows[k].av, exp), m)
    {
      WriteWeight(df, m, exp);
      forall k | 0 <= k < df.Length
        ensures df[k] == rows[k].(ex := ExpsThrough(rows[k], m + 1, exp))
      {
        ExpsThroughStep(rows[k], m, exp);
      }
      total := AddWeights(df, total, m);
    }
    forall k | 0 <= k < df.Length {
      df[k] := df[k].(expTotal := total[k]);
    }
    forall k | 0 <= k < df.Length
      ensures df[k] == rows[k].(ex := ExpsOf(rows[k].u, rows[k].av, exp),
                                expTotal := Total(ExpsOf(rows[k].u, rows[k].av, exp)))
    {
      PrefixTotal(ExpsOf(rows[k].u, rows[k].av, exp));
      ExpsThroughAll(rows[k], exp);
    }
  }

  /**
   * Recomputes only the NSM utility, the NSM weight and the weight total of one
   * row, from the current NSM time and cost and a new service rate.
   */
  function RecalcNsmRow(t: Traveler, c: Coefs, serviceRate: real, exp: PositiveFn): (r: Traveler)
    ensures r.u[Nsm] == Utilities(t, c, serviceRate)[Nsm]
    ensures r.ex[Nsm] == Weight(r.u, t.av, Nsm, exp)
    ensures forall m :: 0 <= m < Nsm ==> r.u[m] == t.u[m] && r.ex[m] == t.ex[m]
    ensures r.expTotal == Total(r.ex)
    ensures r == t.(u := r.u, ex := r.ex, expTotal := r.expTotal)
  {
    var un := c.ascNsm + Term(c.bTime, t.nsmTotalTime) + Term(c.bCost, t.nsmCost) + Term(c.bRisk, 1.0 - serviceRate);
    var u := t.u[Nsm := un];
    var en := Weight(u, t.av, Nsm, exp);
    t.(u := u, ex := t.ex[Nsm := en], expTotal := t.ex[0] + t.ex[1] + t.ex[2] + t.ex[3] + en)
  }

  /**
   * On a row whose non-NSM utilities and all weights came from a full
   * computation, the partial NSM recomputation gives exactly what a full
   * recomputation with the new service rate and NSM attributes would give.
   */
  lemma RecalcNsmMatchesFullRecompute(t: Traveler, c: Coefs, sr0: real, sr: real, exp: PositiveFn)
    requires forall m :: 0 <= m < Nsm ==> t.u[m] == Utilities(t, c, sr0)[m]
    requires t.ex == ExpsOf(t.u, t.av, exp)
    ensures RecalcNsmRow(t, c, sr, exp).u == Utilities(t, c, sr)
    ensures RecalcNsmRow(t, c, sr, exp).ex == ExpsOf(Utilities(t, c, sr), t.av, exp)
    ensures RecalcNsmRow(t, c, sr, exp).expTotal == Total(ExpsOf(Utilities(t, c, sr), t.av, exp))
  {
    var r := RecalcNsmRow(t, c, sr, exp);
    var u := Utilities(t, c, sr);
    var u0 := Utilities(t, c, sr0);
    forall m | 0 <= m < 5 ensures r.u[m] == u[m] {
      if m < 4 {
        UtilitiesServiceRateOnlyNsm(t, t, c, sr0, sr, m);
      }
    }
    assert r.u == u;
    var e := ExpsOf(u, t.av, exp);
    forall m: Mode ensures r.ex[m] == e[m] {
      WeightUses(u, r.u, t.av, m, exp);
      if m < 4 {
        WeightUses(t.u, u, t.av, m, exp);
      }
    }
    assert r.ex == e;
  }

  /** Applies RecalcNsmRow to every row. */
  method RecalcNsmUtilAndExp(df: array<Traveler>, c: Coefs, serviceRate: real, exp: PositiveFn)
    modifies df
    ensures forall k :: 0 <= k < df.Length ==> df[k] == RecalcNsmRow(old(df[k]), c, serviceRate, exp)
  {
    forall k | 0 <= k < df.Length {
      df[k] := RecalcNsmRow(df[k], c, serviceRate, exp);
    }
  }

  /**
   * prc_m = exp_m / exp_total.  A zero total makes every quotient NaN or
   * infinite, which is `NotFinite`.
   */
  function ProbsOf(ex: PerMode, total: real): (p: Probs)
    ensures p.NotFinite? <==> total == 0.0
  {
    if total == 0.0 then NotFinite
    else Defined([ex[0] / total, ex[1] / total, ex[2] / total, ex[3] / total, ex[4] / total])
  }

  /**
   * When the total is the sum of the weights and non-zero, the probabilities are
   * a distribution: they sum to 1, are zero exactly for zero-weight modes, and
   * are non-negative when the weights are and the total is positive.
   */
  lemma ProbsDistribution(ex: PerMode, total: real)
    requires total == Total(ex) && total != 0.0
    ensures Total(ProbsOf(ex, total).p) == 1.0
    ensures forall m :: 0 <= m < 5 ==> (ProbsOf(ex, total).p[m] == 0.0 <==> ex[m] == 0.0)
    ensures total > 0.0 && (forall m :: 0 <= m < 5 ==> ex[m] >= 0.0) ==>
      forall m :: 0 <= m < 5 ==> ProbsOf(ex, total).p[m] >= 0.0
  {
    var p := ProbsOf(ex, total).p;
    DivSum5(ex[0], ex[1], ex[2], ex[3], ex[4], total);
    DivSelf(total);
    forall m | 0 <= m < 5 ensures p[m] == 0.0 <==> ex[m] == 0.0 {
      DivZero(ex[m], total);
    }
    if total > 0.0 && (forall m :: 0 <= m < 5 ==> ex[m] >= 0.0) {
      forall m | 0 <= m < 5 ensures p[m] >= 0.0 {
        DivSign(ex[m], total);
      }
    }
  }

  /** Dividing each term by t divides the sum by t. */
  lemma DivSum5(e0: real, e1: real, e2: real, e3: real, e4: real, t: real)
    requires t != 0.0
    ensures e0 / t + e1 / t + e2 / t + e3 / t + e4 / t == (e0 + e1 + e2 + e3 + e4) / t
  {
  }

  lemma DivSum4(e0: real, e1: real, e2: real, e3: real, t: real)
    requires t != 0.0
    ensures e0 / t + e1 / t + e2 / t + e3 / t == (e0 + e1 + e2 + e3) / t
  {
  }

  lemma DivSelf(t: real)
    requires t != 0.0
    ensures t / t == 1.0
  {
  }

  lemma DivZero(e: real, t: real)
    requires t != 0.0
    ensures e / t == 0.0 <==> e == 0.0
  {
  }

  lemma DivSign(e: real, t: real)
    requires t > 0.0 && e >= 0.0
    ensures e / t >= 0.0
    ensures e > 0.0 ==> e / t > 0.0
  {
  }

  /** From availability flags to probabilities: an unavailable mode has probability 0 and the probabilities sum to 1. */
  lemma UnavailableNeverLikely(u: PerMode, av: PerMode, exp: PositiveFn, m: Mode, a: Mode)
    requires forall j :: 0 <= j < 5 ==> av[j] >= 0.0
    requires av[a] > 0.0 && av[m] == 0.0
    ensures ProbsOf(ExpsOf(u, av, exp), Total(ExpsOf(u, av, exp))).Defined?
    ensures ProbsOf(ExpsOf(u, av, exp), Total(ExpsOf(u, av, exp))).p[m] == 0.0
    ensures Total(ProbsOf(ExpsOf(u, av, exp), Total(ExpsOf(u, av, exp))).p) == 1.0
  {
    ExpTotalPositive(u, av, exp, a);
    ExpsZeroIffUnavailable(u, av, exp, m);
    ProbsDistribution(ExpsOf(u, av, exp), Total(ExpsOf(u, av, exp)));
  }

  /** Writes the five probability columns of every row. */
  method CalcAllProbs(df: array<Traveler>)
    modifies df
    ensures forall k :: 0 <= k < df.Length ==> df[k] == old(df[k]).(prc := ProbsOf(old(df[k]).ex, old(df[k]).expTotal))
  {
    forall k | 0 <= k < df.Length {
      df[k] := df[k].(prc := ProbsOf(df[k].ex, df[k].expTotal));
    }
  }

  // ---------------------------------------------------------------- drawing a mode

  /** All entries are non-negative. */
  predicate NonNegative(p: seq<real>) {
    forall m :: 0 <= m < |p| ==> p[m] >= 0.0
  }

  lemma {:induction false} PrefixMonotone(p: seq<real>, i: nat, j: nat)
    requires NonNegative(p) && i <= j <= |p|
    ensures Prefix(p, i) <= Prefix(p, j)
    decreases j - i
  {
    if i < j {
      PrefixMonotone(p, i, j - 1);
    }
  }

  /**
   * The draw with uniform number u: the first index m (from `from` on) whose
   * cumulative probability exceeds u, as the inverse-CDF sampler computes it.
   */
  function Pick(p: seq<real>, u: real, from: nat): (m: nat)
    requires from < |p| && Prefix(p, from) <= u < Prefix(p, |p|)
    ensures from <= m < |p|
    ensures Prefix(p, m) <= u < Prefix(p, m + 1)
    ensures p[m] > 0.0
    decreases |p| - from
  {
    if u < Prefix(p, from + 1) then from else Pick(p, u, from + 1)
  }

  /**
   * For non-negative probabilities the drawn index is the only one whose
   * cumulative interval [Prefix(m), Prefix(m+1)) contains u, so each mode m is
   * drawn for a set of u of length p[m].
   */
  lemma PickUnique(p: seq<real>, u: real, m: nat)
    requires NonNegative(p) && 0.0 <= u < Prefix(p, |p|)
    requires m < |p| && Prefix(p, m) <= u < Prefix(p, m + 1)
    ensures Pick(p, u, 0) == m
  {
    var r := Pick(p, u, 0);
    if r < m { PrefixMonotone(p, r + 1, m); }
    if m < r { PrefixMonotone(p, m + 1, r); }
  }

  /**
   * `select_choice`: draws a mode from the row's probabilities.  The sampler
   * refuses NaN, negative probabilities and probabilities that do not sum to 1.
   */
  function SelectChoice(prc: Probs, u: real): (r: Result<Mode>)
    requires UnitInterval(u)
    ensures r.Success? <==> prc.Defined? && NonNegative(prc.p) && Total(prc.p) == 1.0
    ensures r.Success? ==> prc.p[r.value] > 0.0
    ensures r.Success? ==> Prefix(prc.p, r.value) <= u < Prefix(prc.p, r.value + 1)
  {
    match prc
    case NotFinite => Failure("probabilities contain NaN")
    case Defined(p) =>
      if !NonNegative(p) then Failure("probabilities are not non-negative")
      else if Total(p) != 1.0 then Failure("probabilities do not sum to 1")
      else
        PrefixTotal(p);
        Success(Pick(p, u, 0))
  }

  /** After the probability step, a row with non-negative flags and some available mode always gets a choice, and never an unavailable one. */
  lemma SelectChoiceAfterProbs(u: PerMode, av: PerMode, exp: PositiveFn, a: Mode, draw: real)
    requires forall j :: 0 <= j < 5 ==> av[j] >= 0.0
    requires av[a] > 0.0 && UnitInterval(draw)
    ensures SelectChoice(ProbsOf(ExpsOf(u, av, exp), Total(ExpsOf(u, av, exp))), draw).Success?
    ensures av[SelectChoice(ProbsOf(ExpsOf(u, av, exp), Total(ExpsOf(u, av, exp))), draw).value] > 0.0
  {
    ExpsNonNegative(u, av, exp, a);
    SelectFromWeights(ExpsOf(u, av, exp), a, draw);
    ExpsZeroIffUnavailable(u, av, exp, SelectChoice(ProbsOf(ExpsOf(u, av, exp), Total(ExpsOf(u, av, exp))), draw).value);
  }

  /** Drawing from the probabilities of non-negative weights, one of them positive, succeeds on a positive-weight mode. */
  lemma SelectFromWeights(ex: PerMode, a: Mode, draw: real)
    requires forall j :: 0 <= j < 5 ==> ex[j] >= 0.0
    requires ex[a] > 0.0 && UnitInterval(draw)
    ensures SelectChoice(ProbsOf(ex, Total(ex)), draw).Success?
    ensures ex[SelectChoice(ProbsOf(ex, Total(ex)), draw).value] > 0.0
  {
    TotalPositive(ex, a);
    ProbsDistribution(ex, Total(ex));
  }

  /** The four non-NSM probabilities rescaled by their sum. */
  function Rescaled(p: PerMode): (q: seq<real>)
    ensures |q| == 4
  {
    var rem := p[0] + p[1] + p[2] + p[3];
    if rem == 0.0 then [0.0, 0.0, 0.0, 0.0]
    else [p[0] / rem, p[1] / rem, p[2] / rem, p[3] / rem]
  }

  /** With a non-zero remainder the rescaled probabilities sum to 1. */
  lemma RescaledSumsToOne(p: PerMode)
    requires p[0] + p[1] + p[2] + p[3] != 0.0
    ensures Prefix(Rescaled(p), 4) == 1.0
  {
    var rem := p[0] + p[1] + p[2] + p[3];
    var q := Rescaled(p);
    assert Prefix(q, 1) == q[0];
    assert Prefix(q, 2) == q[0] + q[1];
    assert Prefix(q, 4) == q[0] + q[1] + q[2] + q[3];
    DivSum4(p[0], p[1], p[2], p[3], rem);
    DivSelf(rem);
  }

  lemma RescaledNonZero(p: PerMode, m: nat)
    requires p[0] + p[1] + p[2] + p[3] != 0.0 && m < 4 && Rescaled(p)[m] != 0.0
    ensures p[m] != 0.0
  {
    DivZero(p[m], p[0] + p[1] + p[2] + p[3]);
  }

  /**
   * `reasign_unserved_requests`: redraws among walk, bike, car and transit with
   * their probabilities rescaled to sum to 1.  A zero remainder gives NaN
   * weights and the sampler fails, as it does for negative rescaled weights.
   */
  function ReassignUnserved(prc: Probs, u: real): (r: Result<Mode>)
    requires UnitInterval(u)
    ensures r.Success? <==> prc.Defined? && prc.p[0] + prc.p[1] + prc.p[2] + prc.p[3] != 0.0 && NonNegative(Rescaled(prc.p))
    ensures r.Success? ==> r.value < Nsm && r.value != Nsm
    ensures r.Success? ==> Rescaled(prc.p)[r.value] > 0.0 && prc.p[r.value] != 0.0
    ensures r.Success? ==>
      Prefix(Rescaled(prc.p), r.value) <= u < Prefix(Rescaled(prc.p), r.value + 1)
  {
    match prc
    case NotFinite => Failure("probabilities contain NaN")
    case Defined(p) =>
      var rem := p[0] + p[1] + p[2] + p[3];
      var q := Rescaled(p);
      if rem == 0.0 then Failure("probabilities contain NaN")
      else if !NonNegative(q) then Failure("probabilities are not non-negative")
      else
        RescaledSumsToOne(p);
        var m := Pick(q, u, 0);
        RescaledNonZero(p, m);
        Success(m)
  }

  /** After the probability step, a row whose non-NSM modes are not all unavailable can always be reassigned. */
  lemma ReassignAfterProbs(u: PerMode, av: PerMode, exp: PositiveFn, a: Mode, draw: real)
    requires forall j :: 0 <= j < 5 ==> av[j] >= 0.0
    requires a < Nsm && av[a] > 0.0 && UnitInterval(draw)
    ensures ReassignUnserved(ProbsOf(ExpsOf(u, av, exp), Total(ExpsOf(u, av, exp))), draw).Success?
  {
    ExpsNonNegative(u, av, exp, a);
    ReassignFromWeights(ExpsOf(u, av, exp), a, draw);
  }

  /** Reassigning from the probabilities of non-negative weights, a non-NSM one positive, succeeds. */
  lemma ReassignFromWeights(ex: PerMode, a: Mode, draw: real)
    requires forall j :: 0 <= j < 5 ==> ex[j] >= 0.0
    requires a < Nsm && ex[a] > 0.0 && UnitInterval(draw)
    ensures ReassignUnserved(ProbsOf(ex, Total(ex)), draw).Success?
  {
    TotalPositive(ex, a);
    ProbsDistribution(ex, Total(ex));
    var p := ProbsOf(ex, Total(ex)).p;
    DivSign(ex[a], Total(ex));
    var rem := p[0] + p[1] + p[2] + p[3];
    assert rem > 0.0;
    forall j | 0 <= j < 4 ensures Rescaled(p)[j] >= 0.0 {
      DivSign(p[j], rem);
    }
  }
}
