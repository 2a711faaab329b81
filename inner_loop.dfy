/**
 * The feedback loop of the framework.  Every iteration realises demand for each
 * replication from the current smoothed estimates, hands the NSM requests to
 * the fleet simulator, folds the simulator's outputs into the trackers, lets
 * travellers re-choose after seeing the service they got, re-estimates the
 * choice model, and stops once the NSM mode share settles.  The simulator and
 * the estimator are outside the model: what they return is an input.
 */
module InnerLoop {
  import opened Wrappers
  import opened Records
  import opened Statistics
  import opened Setup
  import DcaCalc
  import Util
  import Sample
  import FleetPy

  // ------------------------------------------------------------ simulation window

  /** The earliest of a non-empty list of request times. */
  function MinTime(ts: seq<real>): (m: real)
    requires |ts| > 0
    ensures m in ts
    ensures forall k :: 0 <= k < |ts| ==> m <= ts[k]
  {
    if |ts| == 1 then ts[0]
    else
      var rest := MinTime(ts[1..]);
      if ts[0] <= rest then ts[0] else rest
  }

  /** The latest of a non-empty list of request times. */
  function MaxTime(ts: seq<real>): (m: real)
    requires |ts| > 0
    ensures m in ts
    ensures forall k :: 0 <= k < |ts| ==> ts[k] <= m
  {
    if |ts| == 1 then ts[0]
    else
      var rest := MaxTime(ts[1..]);
      if ts[0] >= rest then ts[0] else rest
  }

  /** `math.ceil`: the least integer at or above x. */
  function Ceil(x: real): (c: int)
    ensures x <= c as real < x + 1.0
  {
    -((-x).Floor)
  }

  /** The `rq_time` column of a table. */
  function RqTimes(rows: seq<Traveler>): (ts: seq<real>)
    ensures |ts| == |rows| && forall k :: 0 <= k < |rows| ==> ts[k] == rows[k].rqTime
  {
    seq(|rows|, k requires 0 <= k < |rows| => rows[k].rqTime)
  }

  /**
   * The simulated period of the request pool: the whole seconds from the floor
   * of the earliest request time to the ceiling of the latest.  `min` of an
   * empty column raises.
   */
  function SimWindow(pool: seq<Traveler>): (r: Result<(int, int)>)
    ensures r.Failure? <==> pool == []
    ensures r.Success? ==> r.value.0 as real <= MinTime(RqTimes(pool)) < r.value.0 as real + 1.0
    ensures r.Success? ==> r.value.1 as real - 1.0 < MaxTime(RqTimes(pool)) <= r.value.1 as real
    ensures r.Success? ==> forall k :: 0 <= k < |pool| ==> r.value.0 as real <= pool[k].rqTime <= r.value.1 as real
  {
    var times := RqTimes(pool);
    if times == [] then Failure("min() arg is an empty sequence")
    else Success((MinTime(times).Floor, Ceil(MaxTime(times))))
  }

  // ------------------------------------------------------------ demand realisation

  /** The smoothed estimates demand is realised from. */
  datatype Estimates = Estimates(wait: real, ratio: real, serviceRate: real, coefs: DcaCalc.Coefs)

  /** Reads the estimates from the current smoothed values; None where a lookup raises KeyError. */
  function EstimatesOf(nsm: map<string, real>, model: map<string, real>): (r: Option<Estimates>)
    ensures r.Some? <==> "nsm_wait_time" in nsm && "nsm_car_time_ratio" in nsm && "service_rate" in nsm
                         && DcaCalc.CoefsOf(model).Some?
    ensures r.Some? ==> r.value.wait == nsm["nsm_wait_time"] && r.value.ratio == nsm["nsm_car_time_ratio"]
    ensures r.Some? ==> r.value.serviceRate == nsm["service_rate"] && Some(r.value.coefs) == DcaCalc.CoefsOf(model)
  {
    if "nsm_wait_time" in nsm && "nsm_car_time_ratio" in nsm && "service_rate" in nsm && DcaCalc.CoefsOf(model).Some? then
      Some(Estimates(nsm["nsm_wait_time"], nsm["nsm_car_time_ratio"], nsm["service_rate"], DcaCalc.CoefsOf(model).value))
    else None
  }

  /**
   * The NSM times of a traveller from the smoothed wait time and NSM-to-car
   * time ratio: the ride takes the car time scaled by the ratio, and the total
   * adds the wait.
   */
  function WithNsmTimes(t: Traveler, wait: real, ratio: real): (r: Traveler)
    ensures r.nsmWaitTime == wait && r.nsmTravelTime == RideTime(t.carTime, ratio)
    ensures r.nsmTotalTime == r.nsmTravelTime + r.nsmWaitTime
    ensures r.(nsmTravelTime := t.nsmTravelTime, nsmWaitTime := t.nsmWaitTime, nsmTotalTime := t.nsmTotalTime) == t
  {
    t.(nsmTravelTime := RideTime(t.carTime, ratio), nsmWaitTime := wait, nsmTotalTime := RideTime(t.carTime, ratio) + wait)
  }

  /** The NSM ride time: the car time scaled by the NSM-to-car time ratio. */
  function RideTime(carTime: real, ratio: real): real {
    carTime * ratio
  }

  /** The trip costs: fuel for the car distance at 0.1 l/km and 7.78 per litre, the flat fare, and the NSM price. */
  function WithCosts(t: Traveler, nsmCost: real): (r: Traveler)
    ensures r.carCost == 0.778 * t.carDist && r.ptCost == 6.0 && r.nsmCost == nsmCost
    ensures r.(carCost := t.carCost, ptCost := t.ptCost, nsmCost := t.nsmCost) == t
  {
    t.(carCost := t.carDist * CarFuelLitersPerKm * FuelCostPerLiter, ptCost := PtCostFare, nsmCost := nsmCost)
  }

  /** A sampled traveller with the current NSM times and the trip costs. */
  function Prepared(t: Traveler, est: Estimates, nsmCost: real): Traveler {
    WithCosts(WithNsmTimes(t, est.wait, est.ratio), nsmCost)
  }

  /** A row whose availabilities are set, with its utilities, weights and choice probabilities. */
  function Scored(t: Traveler, est: Estimates, exp: DcaCalc.PositiveFn): (r: Traveler) {
    var u := DcaCalc.Utilities(t, est.coefs, est.serviceRate);
    var ex := DcaCalc.ExpsOf(u, t.av, exp);
    t.(u := u, ex := ex, expTotal := Total(ex), prc := DcaCalc.ProbsOf(ex, Total(ex)))
  }

  /** Every configured availability rule can be applied to row k. */
  predicate AvailsOk(t: Traveler, draws: seq<seq<real>>, k: nat)
    requires |draws| == NumModes && forall m :: 0 <= m < NumModes ==> k < |draws[m]|
  {
    forall m :: 0 <= m < NumModes ==> DcaCalc.Availability(Avails[m], t, draws[m][k]).Success?
  }

  /** The draws of a replication: one per row for each mode's availability, and one per row for the choice. */
  predicate DrawsFor(avail: seq<seq<real>>, choice: seq<real>, n: nat) {
    && DcaCalc.WellShapedDraws(avail, n)
    && |choice| == n && forall k :: 0 <= k < n ==> DcaCalc.UnitInterval(choice[k])
  }

  /** A prepared row with its availabilities set, then its utilities, weights and probabilities. */
  function ScoredRow(p: Traveler, k: nat, est: Estimates, exp: DcaCalc.PositiveFn, avail: seq<seq<real>>): Traveler
    requires |avail| == NumModes && (forall m :: 0 <= m < NumModes ==> k < |avail[m]|) && AvailsOk(p, avail, k)
  {
    Scored(p.(av := DcaCalc.AvailsThrough(Avails, p, avail, k, NumModes)), est, exp)
  }

  /** A scored row with the drawn mode and the NSM-user flag. */
  function Chosen(s: Traveler, m: Mode): Traveler {
    s.(choice := m, nsmUser := if m == Nsm then 1 else 0)
  }

  /**
   * Row k of a replication's demand as lines 66-100 of the loop make it: NSM
   * times and costs, availabilities, utilities, weights, probabilities, the
   * drawn choice, the NSM-user flag, and `served` = -1.  Fails where the
   * source raises (an availability rule or the draw cannot be applied).
   */
  function PresimRow(t: Traveler, k: nat, est: Estimates, nsmCost: real, exp: DcaCalc.PositiveFn,
                     avail: seq<seq<real>>, draw: real): (r: Result<Traveler>)
    requires |avail| == NumModes && (forall m :: 0 <= m < NumModes ==> k < |avail[m]|) && DcaCalc.UnitInterval(draw)
    ensures r.Success? ==> r.value.served == NotRequested && (r.value.nsmUser == 1 <==> r.value.choice == Nsm)
    ensures r.Success? ==> r.value.requestId == t.requestId && r.value.carTime == t.carTime
    ensures r.Success? ==> r.value.nsmTotalTime == RideTime(t.carTime, est.ratio) + est.wait
    ensures r.Success? ==> r.value.prc.Defined? && r.value.prc.p[r.value.choice] > 0.0
  {
    var p := Prepared(t, est, nsmCost);
    if !AvailsOk(p, avail, k) then Failure("cannot calculate availability")
    else
      var s := ScoredRow(p, k, est, exp, avail);
      var choice := DcaCalc.SelectChoice(s.prc, draw);
      if choice.Failure? then Failure(choice.error)
      else Success(Chosen(s, choice.value).(served := NotRequested))
  }

  /** PresimRow stage by stage: it fails exactly where one of the column passes fails. */
  lemma PresimRowStages(t: Traveler, k: nat, est: Estimates, nsmCost: real, exp: DcaCalc.PositiveFn,
                        avail: seq<seq<real>>, draw: real)
    requires |avail| == NumModes && (forall m :: 0 <= m < NumModes ==> k < |avail[m]|) && DcaCalc.UnitInterval(draw)
    ensures !AvailsOk(Prepared(t, est, nsmCost), avail, k) ==> PresimRow(t, k, est, nsmCost, exp, avail, draw).Failure?
    ensures AvailsOk(Prepared(t, est, nsmCost), avail, k) ==>
      var s := ScoredRow(Prepared(t, est, nsmCost), k, est, exp, avail);
      && (PresimRow(t, k, est, nsmCost, exp, avail, draw).Failure? <==> DcaCalc.SelectChoice(s.prc, draw).Failure?)
      && (PresimRow(t, k, est, nsmCost, exp, avail, draw).Success? ==>
            PresimRow(t, k, est, nsmCost, exp, avail, draw).value
              == Chosen(s, DcaCalc.SelectChoice(s.prc, draw).value).(served := NotRequested))
  {
  }

  /**
   * With the configured availabilities (walk, bike, transit and NSM always,
   * a car with probability 0.67) the demand of a row is always realised, and
   * the chosen mode is one available to the traveller.
   */
  lemma ConfiguredDemandAlwaysChooses(t: Traveler, k: nat, est: Estimates, nsmCost: real, exp: DcaCalc.PositiveFn,
                                      avail: seq<seq<real>>, draw: real)
    requires |avail| == NumModes && (forall m :: 0 <= m < NumModes ==> k < |avail[m]|) && DcaCalc.UnitInterval(draw)
    ensures PresimRow(t, k, est, nsmCost, exp, avail, draw).Success?
    ensures PresimRow(t, k, est, nsmCost, exp, avail, draw).value.av[PresimRow(t, k, est, nsmCost, exp, avail, draw).value.choice] == 1.0
  {
    var p := Prepared(t, est, nsmCost);
    ConfiguredAvailsApply(p, avail, k);
    var av := DcaCalc.AvailsThrough(Avails, p, avail, k, NumModes);
    var s := Scored(p.(av := av), est, exp);
    DcaCalc.SelectChoiceAfterProbs(s.u, av, exp, Walk, draw);
  }

  /** Every configured rule is a rate in [0,1]: it always applies, gives 0 or 1, and walking is always available. */
  lemma ConfiguredAvailsApply(p: Traveler, avail: seq<seq<real>>, k: nat)
    requires |avail| == NumModes && forall m :: 0 <= m < NumModes ==> k < |avail[m]|
    ensures AvailsOk(p, avail, k)
    ensures forall m :: 0 <= m < NumModes ==> DcaCalc.AvailsThrough(Avails, p, avail, k, NumModes)[m] >= 0.0
    ensures DcaCalc.AvailsThrough(Avails, p, avail, k, NumModes)[Walk] == 1.0
  {
    forall m | 0 <= m < NumModes
      ensures DcaCalc.Availability(Avails[m], p, avail[m][k]).Success?
      ensures DcaCalc.Availability(Avails[m], p, avail[m][k]).value >= 0.0
    {
      assert Avails[m].Rate? && 0.0 <= Avails[m].v <= 1.0;
    }
    assert Avails[Walk] == Rate(1.0);
  }

  /** The outcome of one replication's demand realisation: no NSM user (the loop breaks), or the table. */
  datatype Realization = NoNsmUsers | Demand(rows: seq<Traveler>)

  /** Some row of the table fails to be realised. */
  predicate SomeRowFails(rows: seq<Traveler>, est: Estimates, nsmCost: real, exp: DcaCalc.PositiveFn,
                         avail: seq<seq<real>>, choice: seq<real>)
    requires DrawsFor(avail, choice, |rows|)
  {
    exists k :: 0 <= k < |rows| && PresimRow(rows[k], k, est, nsmCost, exp, avail, choice[k]).Failure?
  }

  /**
   * Lines 66-100 for one sampled table: every row realised by PresimRow; the
   * replication loop breaks when nobody chose NSM.
   */
  function Presim(rows: seq<Traveler>, est: Estimates, nsmCost: real, exp: DcaCalc.PositiveFn,
                  avail: seq<seq<real>>, choice: seq<real>): (r: Result<Realization>)
    requires DrawsFor(avail, choice, |rows|)
    ensures r.Failure? <==> SomeRowFails(rows, est, nsmCost, exp, avail, choice)
  {
    if SomeRowFails(rows, est, nsmCost, exp, avail, choice) then Failure("demand realisation raised")
    else
      var out := RealizedRows(rows, est, nsmCost, exp, avail, choice);
      if AnyNsm(out) then Success(Demand(out)) else Success(NoNsmUsers)
  }

  /** Some row chose NSM. */
  predicate AnyNsm(rows: seq<Traveler>) {
    exists k :: 0 <= k < |rows| && rows[k].choice == Nsm
  }

  /** The realised rows of a table none of whose rows fails. */
  function RealizedRows(rows: seq<Traveler>, est: Estimates, nsmCost: real, exp: DcaCalc.PositiveFn,
                        avail: seq<seq<real>>, choice: seq<real>): (out: seq<Traveler>)
    requires DrawsFor(avail, choice, |rows|) && !SomeRowFails(rows, est, nsmCost, exp, avail, choice)
    ensures |out| == |rows|
    ensures forall k :: 0 <= k < |rows| ==> Success(out[k]) == PresimRow(rows[k], k, est, nsmCost, exp, avail, choice[k])
  {
    seq(|rows|, k requires 0 <= k < |rows| => PresimRow(rows[k], k, est, nsmCost, exp, avail, choice[k]).value)
  }

  /** The loop breaks (no table is handed on) exactly when no row chose NSM. */
  lemma PresimBreaksIffNoNsm(rows: seq<Traveler>, est: Estimates, nsmCost: real, exp: DcaCalc.PositiveFn,
                             avail: seq<seq<real>>, choice: seq<real>)
    requires DrawsFor(avail, choice, |rows|)
    requires Presim(rows, est, nsmCost, exp, avail, choice).Success?
    ensures Presim(rows, est, nsmCost, exp, avail, choice).value.Demand? <==>
      exists k :: 0 <= k < |rows| && PresimRow(rows[k], k, est, nsmCost, exp, avail, choice[k]).value.choice == Nsm
  {
    if exists k :: 0 <= k < |rows| && PresimRow(rows[k], k, est, nsmCost, exp, avail, choice[k]).value.choice == Nsm {
      var k :| 0 <= k < |rows| && PresimRow(rows[k], k, est, nsmCost, exp, avail, choice[k]).value.choice == Nsm;
      PresimNsmRowGivesDemand(rows, est, nsmCost, exp, avail, choice, k);
    }
    if Presim(rows, est, nsmCost, exp, avail, choice).value.Demand? {
      PresimDemandHasNsmRow(rows, est, nsmCost, exp, avail, choice);
    }
  }

  lemma PresimNsmRowGivesDemand(rows: seq<Traveler>, est: Estimates, nsmCost: real, exp: DcaCalc.PositiveFn,
                                avail: seq<seq<real>>, choice: seq<real>, k: nat)
    requires DrawsFor(avail, choice, |rows|) && k < |rows|
    requires Presim(rows, est, nsmCost, exp, avail, choice).Success?
    requires PresimRow(rows[k], k, est, nsmCost, exp, avail, choice[k]).value.choice == Nsm
    ensures Presim(rows, est, nsmCost, exp, avail, choice).value.Demand?
  {
    var out := RealizedRows(rows, est, nsmCost, exp, avail, choice);
    assert out[k].choice == Nsm;
  }

  lemma PresimDemandHasNsmRow(rows: seq<Traveler>, est: Estimates, nsmCost: real, exp: DcaCalc.PositiveFn,
                              avail: seq<seq<real>>, choice: seq<real>)
    requires DrawsFor(avail, choice, |rows|)
    requires Presim(rows, est, nsmCost, exp, avail, choice).Success?
    requires Presim(rows, est, nsmCost, exp, avail, choice).value.Demand?
    ensures exists k :: 0 <= k < |rows| && PresimRow(rows[k], k, est, nsmCost, exp, avail, choice[k]).value.choice == Nsm
  {
    var out := RealizedRows(rows, est, nsmCost, exp, avail, choice);
    var k :| 0 <= k < |out| && out[k].choice == Nsm;
    assert Success(out[k]) == PresimRow(rows[k], k, est, nsmCost, exp, avail, choice[k]);
  }

  /**
   * A realised table keeps the sampled travellers in order, has at least one
   * NSM user, marks every row as not yet requested, and flags exactly the NSM
   * choosers as NSM users.
   */
  lemma PresimDemandShape(rows: seq<Traveler>, est: Estimates, nsmCost: real, exp: DcaCalc.PositiveFn,
                          avail: seq<seq<real>>, choice: seq<real>)
    requires DrawsFor(avail, choice, |rows|)
    requires Presim(rows, est, nsmCost, exp, avail, choice).Success?
    requires Presim(rows, est, nsmCost, exp, avail, choice).value.Demand?
    ensures var d := Presim(rows, est, nsmCost, exp, avail, choice).value.rows;
      && |d| == |rows|
      && (exists k :: 0 <= k < |rows| && d[k].nsmUser == 1)
      && forall k :: 0 <= k < |rows| ==>
           && d[k].requestId == rows[k].requestId
           && d[k].served == NotRequested
           && (d[k].nsmUser == 1 <==> d[k].choice == Nsm)
  {
    var d := Presim(rows, est, nsmCost, exp, avail, choice).value.rows;
    assert d == RealizedRows(rows, est, nsmCost, exp, avail, choice);
    forall k | 0 <= k < |rows|
      ensures d[k].requestId == rows[k].requestId && d[k].served == NotRequested
      ensures d[k].nsmUser == 1 <==> d[k].choice == Nsm
    {
      assert Success(d[k]) == PresimRow(rows[k], k, est, nsmCost, exp, avail, choice[k]);
    }
    var k :| 0 <= k < |d| && d[k].choice == Nsm;
  }

  /** With the configured availability rules no replication's demand realisation fails. */
  lemma ConfiguredPresimSucceeds(rows: seq<Traveler>, est: Estimates, nsmCost: real, exp: DcaCalc.PositiveFn,
                                 avail: seq<seq<real>>, choice: seq<real>)
    requires DrawsFor(avail, choice, |rows|)
    ensures Presim(rows, est, nsmCost, exp, avail, choice).Success?
  {
    forall k | 0 <= k < |rows|
      ensures PresimRow(rows[k], k, est, nsmCost, exp, avail, choice[k]).Success?
    {
      ConfiguredDemandAlwaysChooses(rows[k], k, est, nsmCost, exp, avail, choice[k]);
    }
  }

  // ------------------------------------------------------------ the replication loop

  /** The random inputs of one replication: the pool shuffle and the availability and choice draws. */
  datatype Draws = Draws(picks: seq<nat>, avail: seq<seq<real>>, choice: seq<real>)

  /** d is a full shuffle of the pool, with enough draws for the sample it yields. */
  predicate DrawsFit(pool: seq<Traveler>, d: Draws) {
    && Sample.IsPermutationOf(d.picks, |pool|)
    && (Sample.SampleRequestPool(pool, DemandRatio, RequestfileRatio, d.picks).Success? ==>
          DrawsFor(d.avail, d.choice, |Sample.SampleRequestPool(pool, DemandRatio, RequestfileRatio, d.picks).value|))
  }

  /** One replication's demand: the sample drawn with d, realised with d's draws. */
  function ReplicationDemand(pool: seq<Traveler>, d: Draws, est: Estimates, nsmCost: real, exp: DcaCalc.PositiveFn)
    : Result<Realization>
    requires DrawsFit(pool, d)
  {
    match Sample.SampleRequestPool(pool, DemandRatio, RequestfileRatio, d.picks)
    case Failure(e) => Failure(e)
    case Success(s) => Presim(s, est, nsmCost, exp, d.avail, d.choice)
  }

  /** The demand of each replication, in order. */
  function Demands(pool: seq<Traveler>, draws: seq<Draws>, est: Estimates, nsmCost: real, exp: DcaCalc.PositiveFn)
    : (ds: seq<Result<Realization>>)
    requires forall j :: 0 <= j < |draws| ==> DrawsFit(pool, draws[j])
    ensures |ds| == |draws|
    decreases |draws|
  {
    if draws == [] then [] else [ReplicationDemand(pool, draws[0], est, nsmCost, exp)] + Demands(pool, draws[1..], est, nsmCost, exp)
  }

  /** Entry j of Demands is replication j's demand. */
  lemma {:induction false} DemandsAt(pool: seq<Traveler>, draws: seq<Draws>, est: Estimates, nsmCost: real,
                                     exp: DcaCalc.PositiveFn, j: nat)
    requires forall j :: 0 <= j < |draws| ==> DrawsFit(pool, draws[j])
    requires j < |draws|
    ensures Demands(pool, draws, est, nsmCost, exp)[j] == ReplicationDemand(pool, draws[j], est, nsmCost, exp)
    decreases j
  {
    if j > 0 {
      DemandsAt(pool, draws[1..], est, nsmCost, exp, j - 1);
    }
  }

  /**
   * The tables lines 61-109 collect from the replications' demands ds: each
   * realised table in order, up to the first replication nobody in which chose
   * NSM, where the loop breaks and that replication and all later ones are
   * dropped.  A replication that fails before the break makes the loop fail.
   */
  function Kept(ds: seq<Result<Realization>>): Result<seq<seq<Traveler>>>
    decreases |ds|
  {
    if ds == [] then Success([])
    else match ds[0]
      case Failure(e) => Failure(e)
      case Success(NoNsmUsers) => Success([])
      case Success(Demand(rows)) =>
        match Kept(ds[1..])
        case Failure(e) => Failure(e)
        case Success(rest) => Success([rows] + rest)
  }

  /**
   * The kept tables are the demands of the first replications, one per
   * replication; when fewer tables than replications are kept, the next
   * replication is the one that had no NSM user, and a failing loop has a
   * failing replication all of whose predecessors were kept.
   */
  lemma {:induction false} KeptPrefix(ds: seq<Result<Realization>>)
    ensures Kept(ds).Success? ==>
      var ts := Kept(ds).value;
      && |ts| <= |ds|
      && (forall j :: 0 <= j < |ts| ==> ds[j] == Success(Demand(ts[j])))
      && (|ts| < |ds| ==> ds[|ts|] == Success(NoNsmUsers))
    ensures Kept(ds).Failure? ==>
      exists n :: 0 <= n < |ds| && ds[n].Failure? && forall j :: 0 <= j < n ==> ds[j].Success? && ds[j].value.Demand?
    decreases |ds|
  {
    if ds != [] && ds[0].Success? && ds[0].value.Demand? {
      KeptPrefix(ds[1..]);
      if Kept(ds).Failure? {
        var n :| 0 <= n < |ds[1..]| && ds[1..][n].Failure? &&
          forall j :: 0 <= j < n ==> ds[1..][j].Success? && ds[1..][j].value.Demand?;
        assert ds[n + 1].Failure?;
        assert forall j :: 0 <= j < n + 1 ==> ds[j].Success? && ds[j].value.Demand? by {
          forall j | 0 < j < n + 1 ensures ds[j].Success? && ds[j].value.Demand? {
            assert ds[j] == ds[1..][j - 1];
          }
        }
      }
    } else if ds != [] && Kept(ds).Failure? {
      assert ds[0].Failure?;
    }
  }

  /** One turn of the replication loop: what replication j's demand does to the tables still to be kept. */
  lemma KeptStep(ds: seq<Result<Realization>>, j: nat)
    requires j < |ds|
    ensures ds[j].Failure? ==> Kept(ds[j..]).Failure?
    ensures ds[j] == Success(NoNsmUsers) ==> Kept(ds[j..]) == Success([])
    ensures ds[j].Success? && ds[j].value.Demand? ==>
      && (Kept(ds[j..]).Failure? <==> Kept(ds[j + 1..]).Failure?)
      && (Kept(ds[j..]).Success? ==> Kept(ds[j..]).value == [ds[j].value.rows] + Kept(ds[j + 1..]).value)
  {
    assert ds[j..][0] == ds[j] && ds[j..][1..] == ds[j + 1..];
  }

  /** The tables collected before replication j, followed by what the rest keeps, are what the whole loop keeps. */
  ghost predicate KeptThrough(ds: seq<Result<Realization>>, j: nat, tables: seq<seq<Traveler>>)
    requires j <= |ds|
  {
    && (Kept(ds).Failure? <==> Kept(ds[j..]).Failure?)
    && (Kept(ds).Success? ==> Kept(ds).value == tables + Kept(ds[j..]).value)
  }

  /** Before the first replication nothing is collected. */
  lemma KeptStart(ds: seq<Result<Realization>>)
    ensures KeptThrough(ds, 0, [])
  {
    assert ds[0..] == ds;
  }

  /**
   * One turn of the replication loop: a failing replication fails the loop, one
   * without NSM users ends it with the tables collected so far, and a realised
   * table is collected.
   */
  lemma KeptAdvance(ds: seq<Result<Realization>>, j: nat, tables: seq<seq<Traveler>>)
    requires j < |ds| && KeptThrough(ds, j, tables)
    ensures ds[j].Failure? ==> Kept(ds).Failure?
    ensures ds[j] == Success(NoNsmUsers) ==> Kept(ds) == Success(tables)
    ensures ds[j].Success? && ds[j].value.Demand? ==> KeptThrough(ds, j + 1, tables + [ds[j].value.rows])
  {
    KeptStep(ds, j);
    if ds[j] == Success(NoNsmUsers) {
      assert tables + [] == tables;
    } else if ds[j].Success? && ds[j].value.Demand? && Kept(ds).Success? {
      assert tables + Kept(ds[j..]).value == (tables + [ds[j].value.rows]) + Kept(ds[j + 1..]).value;
    }
  }

  /** After the last replication the loop keeps exactly the collected tables. */
  lemma KeptEnd(ds: seq<Result<Realization>>, tables: seq<seq<Traveler>>)
    requires KeptThrough(ds, |ds|, tables)
    ensures Kept(ds) == Success(tables)
  {
    assert ds[|ds|..] == [];
    assert tables + [] == tables;
  }

  /** Each mode split describes the choices of the table in the same position. */
  ghost predicate SplitsDescribe(splits: seq<Util.ModeStats>, tables: seq<seq<Traveler>>) {
    |splits| == |tables| && forall k :: 0 <= k < |splits| ==> Util.Describes(splits[k], Choices(tables[k]))
  }

  /** Recording one more table with its own split keeps the splits describing the tables. */
  lemma SplitsDescribeSnoc(splits: seq<Util.ModeStats>, tables: seq<seq<Traveler>>, s: Util.ModeStats, rows: seq<Traveler>)
    requires SplitsDescribe(splits, tables) && Util.Describes(s, Choices(rows))
    ensures SplitsDescribe(splits + [s], tables + [rows])
  {
  }

  /** Replication j of the loop realises the j-th of the replications' demands. */
  method RealizeReplication(pool: seq<Traveler>, draws: seq<Draws>, est: Estimates, nsmCost: real,
                            exp: DcaCalc.PositiveFn, j: nat) returns (d: Result<Realization>)
    requires forall j :: 0 <= j < |draws| ==> DrawsFit(pool, draws[j])
    requires j < |draws|
    ensures d.Failure? <==> Demands(pool, draws, est, nsmCost, exp)[j].Failure?
    ensures d.Success? ==> d == Demands(pool, draws, est, nsmCost, exp)[j]
  {
    d := RealizeDemand(pool, draws[j], est, nsmCost, exp);
    DemandsAt(pool, draws, est, nsmCost, exp, j);
  }

  /**
   * Lines 61-109: realises each replication's demand in turn, keeping its
   * table and its mode split, and stops at the first replication without an
   * NSM user.
   */
  method RealizeReplications(pool: seq<Traveler>, draws: seq<Draws>, est: Estimates, nsmCost: real, exp: DcaCalc.PositiveFn)
    returns (r: Result<seq<seq<Traveler>>>, splits: seq<Util.ModeStats>)
    requires forall j :: 0 <= j < |draws| ==> DrawsFit(pool, draws[j])
    ensures r.Failure? <==> Kept(Demands(pool, draws, est, nsmCost, exp)).Failure?
    ensures r.Success? ==> r == Kept(Demands(pool, draws, est, nsmCost, exp))
    ensures r.Success? ==> SplitsDescribe(splits, r.value)
  {
    ghost var ds := Demands(pool, draws, est, nsmCost, exp);
    var tables: seq<seq<Traveler>> := [];
    splits := [];
    KeptStart(ds);
    var j := 0;
    while j < |draws|
      invariant 0 <= j <= |draws|
      invariant KeptThrough(ds, j, tables)
      invariant SplitsDescribe(splits, tables)
    {
      var d := RealizeReplication(pool, draws, est, nsmCost, exp, j);
      KeptAdvance(ds, j, tables);
      if d.Failure? {
        return Failure(d.error), splits;
      }
      assert d == ds[j];
      if d.value.NoNsmUsers? {
        return Success(tables), splits;
      }
      var s := Util.GetModeStats(Choices(d.value.rows));
      SplitsDescribeSnoc(splits, tables, s, d.value.rows);
      tables := tables + [d.value.rows];
      splits := splits + [s];
      j := j + 1;
    }
    KeptEnd(ds, tables);
    r := Success(tables);
  }

  /**
   * Lines 62-100 for one replication: samples the pool and realises the
   * sampled table.
   */
  method RealizeDemand(pool: seq<Traveler>, d: Draws, est: Estimates, nsmCost: real, exp: DcaCalc.PositiveFn)
    returns (r: Result<Realization>)
    requires DrawsFit(pool, d)
    ensures r.Failure? <==> ReplicationDemand(pool, d, est, nsmCost, exp).Failure?
    ensures r.Success? ==> r == ReplicationDemand(pool, d, est, nsmCost, exp)
  {
    var s := Sample.SampleRequestPool(pool, DemandRatio, RequestfileRatio, d.picks);
    if s.Failure? {
      return Failure(s.error);
    }
    r := RealizeRows(s.value, est, nsmCost, exp, d.avail, d.choice);
  }

  /** Lines 66-100 on a sampled table, column pass by column pass over an array of rows. */
  method RealizeRows(rows: seq<Traveler>, est: Estimates, nsmCost: real, exp: DcaCalc.PositiveFn,
                     avail: seq<seq<real>>, choice: seq<real>) returns (r: Result<Realization>)
    requires DrawsFor(avail, choice, |rows|)
    ensures r.Failure? <==> Presim(rows, est, nsmCost, exp, avail, choice).Failure?
    ensures r.Success? ==> r == Presim(rows, est, nsmCost, exp, avail, choice)
  {
    var df := new Traveler[|rows|](k requires 0 <= k < |rows| => rows[k]);
    assert df[..] == rows;
    ScoreRows(df, rows, est, nsmCost, exp, avail);
    r := ChooseRows(df, rows, est, nsmCost, exp, avail, choice);
  }

  /** Lines 91-100 on a scored table: draws the choices, and breaks or marks the rows as not yet requested. */
  method ChooseRows(df: array<Traveler>, ghost rows: seq<Traveler>, est: Estimates, nsmCost: real,
                    exp: DcaCalc.PositiveFn, avail: seq<seq<real>>, choice: seq<real>) returns (r: Result<Realization>)
    requires DrawsFor(avail, choice, |rows|) && ScoredRows(rows, df[..], est, nsmCost, exp, avail)
    modifies df
    ensures r.Failure? <==> Presim(rows, est, nsmCost, exp, avail, choice).Failure?
    ensures r.Success? ==> r == Presim(rows, est, nsmCost, exp, avail, choice)
  {
    ghost var scored := df[..];
    var ok := DrawChoices(df, choice, scored);
    if !ok {
      ChoiceFailureFails(rows, scored, est, nsmCost, exp, avail, choice);
      return Failure("probabilities do not sum to 1");
    }
    ghost var chosen := df[..];
    ChosenPresim(rows, scored, chosen, est, nsmCost, exp, avail, choice);
    var anyNsm := AnyNsm(df[..]);
    if !anyNsm {
      return Success(NoNsmUsers);
    }
    MarkNotRequested(df);
    return Success(Demand(df[..]));
  }

  /**
   * Lines 66-88: every row prepared, its availabilities set and scored.  The
   * configured rules always apply, so the availability pass cannot raise.
   */
  method ScoreRows(df: array<Traveler>, ghost rows: seq<Traveler>, est: Estimates, nsmCost: real,
                   exp: DcaCalc.PositiveFn, avail: seq<seq<real>>)
    requires DcaCalc.WellShapedDraws(avail, df.Length) && df[..] == rows
    modifies df
    ensures ScoredRows(rows, df[..], est, nsmCost, exp, avail)
  {
    PrepareAll(df, est, nsmCost);
    ghost var prepared := df[..];
    ApplyAvails(df, avail, prepared);
    ghost var availed := df[..];
    ScoreAll(df, est, exp);
    ScoredFrom(rows, prepared, availed, df[..], est, nsmCost, exp, avail);
  }

  /**
   * Lines 76-80 on prepared rows: `calc_all_availabilities` with the configured
   * rules, which apply to every row, so every row's five flags are written.
   */
  method ApplyAvails(df: array<Traveler>, avail: seq<seq<real>>, ghost prepared: seq<Traveler>)
    requires DcaCalc.WellShapedDraws(avail, df.Length) && df[..] == prepared
    modifies df
    ensures forall k :: 0 <= k < |prepared| ==> AvailsOk(prepared[k], avail, k)
    ensures forall k :: 0 <= k < |prepared| ==>
      df[k] == prepared[k].(av := DcaCalc.AvailsThrough(Avails, prepared[k], avail, k, NumModes))
  {
    ConfiguredRulesApply(prepared, avail);
    var ok := DcaCalc.CalcAllAvailabilities(df, Avails, avail);
    assert ok;
  }

  /** The three column passes, row by row, give the scored rows. */
  lemma ScoredFrom(rows: seq<Traveler>, prepared: seq<Traveler>, availed: seq<Traveler>, scored: seq<Traveler>,
                   est: Estimates, nsmCost: real, exp: DcaCalc.PositiveFn, avail: seq<seq<real>>)
    requires DcaCalc.WellShapedDraws(avail, |rows|)
    requires |prepared| == |availed| == |scored| == |rows|
    requires forall k :: 0 <= k < |rows| ==> prepared[k] == Prepared(rows[k], est, nsmCost)
    requires forall k :: 0 <= k < |rows| ==> AvailsOk(prepared[k], avail, k)
    requires forall k :: 0 <= k < |rows| ==>
      availed[k] == prepared[k].(av := DcaCalc.AvailsThrough(Avails, prepared[k], avail, k, NumModes))
    requires forall k :: 0 <= k < |rows| ==> scored[k] == Scored(availed[k], est, exp)
    ensures ScoredRows(rows, scored, est, nsmCost, exp, avail)
  {
  }

  /** With the configured rules every rule applies to every row of a table. */
  lemma ConfiguredRulesApply(rows: seq<Traveler>, avail: seq<seq<real>>)
    requires DcaCalc.WellShapedDraws(avail, |rows|)
    ensures forall k :: 0 <= k < |rows| ==> AvailsOk(rows[k], avail, k)
    ensures forall m :: 0 <= m < NumModes ==> DcaCalc.RuleApplies(Avails[m], rows, avail[m])
  {
    forall k | 0 <= k < |rows| ensures AvailsOk(rows[k], avail, k) {
      ConfiguredAvailsApply(rows[k], avail, k);
    }
  }

  /** The scored rows of a table all of whose rules apply. */
  predicate ScoredRows(rows: seq<Traveler>, scored: seq<Traveler>, est: Estimates, nsmCost: real,
                       exp: DcaCalc.PositiveFn, avail: seq<seq<real>>)
    requires DcaCalc.WellShapedDraws(avail, |rows|)
  {
    && (forall k :: 0 <= k < |rows| ==> AvailsOk(Prepared(rows[k], est, nsmCost), avail, k))
    && |scored| == |rows|
    && forall k :: 0 <= k < |rows| ==> scored[k] == ScoredRow(Prepared(rows[k], est, nsmCost), k, est, exp, avail)
  }

  /** A draw that cannot be applied to some scored row makes that row's realisation fail. */
  lemma ChoiceFailureFails(rows: seq<Traveler>, scored: seq<Traveler>, est: Estimates,
                           nsmCost: real, exp: DcaCalc.PositiveFn, avail: seq<seq<real>>, choice: seq<real>)
    requires DrawsFor(avail, choice, |rows|) && ScoredRows(rows, scored, est, nsmCost, exp, avail)
    requires !forall k :: 0 <= k < |rows| ==> DcaCalc.SelectChoice(scored[k].prc, choice[k]).Success?
    ensures SomeRowFails(rows, est, nsmCost, exp, avail, choice)
  {
    var k :| 0 <= k < |rows| && DcaCalc.SelectChoice(scored[k].prc, choice[k]).Failure?;
    PresimRowStages(rows[k], k, est, nsmCost, exp, avail, choice[k]);
  }

  /** When every draw applies, every row is realised, as the chosen row marked not yet requested. */
  lemma ChosenRowsRealize(rows: seq<Traveler>, scored: seq<Traveler>, chosen: seq<Traveler>,
                          est: Estimates, nsmCost: real, exp: DcaCalc.PositiveFn, avail: seq<seq<real>>, choice: seq<real>)
    requires DrawsFor(avail, choice, |rows|) && ScoredRows(rows, scored, est, nsmCost, exp, avail)
    requires forall k :: 0 <= k < |rows| ==> DcaCalc.SelectChoice(scored[k].prc, choice[k]).Success?
    requires |chosen| == |rows| &&
      forall k :: 0 <= k < |rows| ==> chosen[k] == Chosen(scored[k], DcaCalc.SelectChoice(scored[k].prc, choice[k]).value)
    ensures !SomeRowFails(rows, est, nsmCost, exp, avail, choice)
    ensures RealizedRows(rows, est, nsmCost, exp, avail, choice) == Marked(chosen)
  {
    forall k | 0 <= k < |rows|
      ensures PresimRow(rows[k], k, est, nsmCost, exp, avail, choice[k]) == Success(chosen[k].(served := NotRequested))
    {
      PresimRowStages(rows[k], k, est, nsmCost, exp, avail, choice[k]);
    }
  }

  /** When every draw applies, the realisation is the chosen rows, marked, or the break when nobody chose NSM. */
  lemma ChosenPresim(rows: seq<Traveler>, scored: seq<Traveler>, chosen: seq<Traveler>,
                     est: Estimates, nsmCost: real, exp: DcaCalc.PositiveFn, avail: seq<seq<real>>, choice: seq<real>)
    requires DrawsFor(avail, choice, |rows|) && ScoredRows(rows, scored, est, nsmCost, exp, avail)
    requires forall k :: 0 <= k < |rows| ==> DcaCalc.SelectChoice(scored[k].prc, choice[k]).Success?
    requires |chosen| == |rows| &&
      forall k :: 0 <= k < |rows| ==> chosen[k] == Chosen(scored[k], DcaCalc.SelectChoice(scored[k].prc, choice[k]).value)
    ensures Presim(rows, est, nsmCost, exp, avail, choice) ==
      Success(if AnyNsm(chosen) then Demand(Marked(chosen)) else NoNsmUsers)
  {
    ChosenRowsRealize(rows, scored, chosen, est, nsmCost, exp, avail, choice);
    MarkedAnyNsm(chosen);
  }

  /** Lines 66-75: the current NSM times and the trip costs on every row. */
  method PrepareAll(df: array<Traveler>, est: Estimates, nsmCost: real)
    modifies df
    ensures forall k :: 0 <= k < df.Length ==> df[k] == Prepared(old(df[k]), est, nsmCost)
  {
    forall k | 0 <= k < df.Length {
      df[k] := Prepared(df[k], est, nsmCost);
    }
  }

  /** Lines 81-88: utilities, weights and probabilities of every row, as three column passes. */
  method ScoreAll(df: array<Traveler>, est: Estimates, exp: DcaCalc.PositiveFn)
    modifies df
    ensures forall k :: 0 <= k < df.Length ==> df[k] == Scored(old(df[k]), est, exp)
  {
    DcaCalc.CalcAllUtilities(df, est.coefs, est.serviceRate);
    DcaCalc.CalcAllExps(df, exp);
    DcaCalc.CalcAllProbs(df);
  }

  /**
   * Lines 91-92: draws every row's mode and sets the NSM-user flag; a row whose
   * probabilities cannot be drawn from raises before any column is written.
   */
  method DrawChoices(df: array<Traveler>, choice: seq<real>, ghost scored: seq<Traveler>) returns (ok: bool)
    requires |choice| == df.Length && forall k :: 0 <= k < df.Length ==> DcaCalc.UnitInterval(choice[k])
    requires df[..] == scored
    modifies df
    ensures ok <==> forall k :: 0 <= k < |scored| ==> DcaCalc.SelectChoice(scored[k].prc, choice[k]).Success?
    ensures ok ==> |df[..]| == |scored| && forall k :: 0 <= k < |scored| ==>
      df[..][k] == Chosen(scored[k], DcaCalc.SelectChoice(scored[k].prc, choice[k]).value)
    ensures !ok ==> df[..] == scored
  {
    ok := forall k :: 0 <= k < df.Length ==> DcaCalc.SelectChoice(df[k].prc, choice[k]).Success?;
    if ok {
      forall k | 0 <= k < df.Length {
        df[k] := Chosen(df[k], DcaCalc.SelectChoice(df[k].prc, choice[k]).value);
      }
    }
  }

  /** Rows marked as not yet requested. */
  function Marked(rows: seq<Traveler>): (r: seq<Traveler>)
    ensures |r| == |rows| && forall k :: 0 <= k < |rows| ==> r[k] == rows[k].(served := NotRequested)
  {
    seq(|rows|, k requires 0 <= k < |rows| => rows[k].(served := NotRequested))
  }

  /** Marking rows keeps their choices. */
  lemma MarkedAnyNsm(rows: seq<Traveler>)
    ensures AnyNsm(Marked(rows)) == AnyNsm(rows)
  {
    if AnyNsm(rows) {
      var k :| 0 <= k < |rows| && rows[k].choice == Nsm;
      assert Marked(rows)[k].choice == Nsm;
    }
  }

  /** Line 100: every row starts as not yet requested (`served` = -1). */
  method MarkNotRequested(df: array<Traveler>)
    modifies df
    ensures df[..] == Marked(old(df[..]))
  {
    forall k | 0 <= k < df.Length {
      df[k] := df[k].(served := NotRequested);
    }
  }

  // ------------------------------------------------------------ re-choice after the simulation

  /** Line 162 on one row: an unserved request is reassigned to a non-NSM mode (FleetPy.UpdateFleetpyUnservedchoose). */
  function ReassignedRow(t: Traveler, draw: real): (r: Result<Traveler>)
    requires DcaCalc.UnitInterval(draw)
    ensures r.Success? ==> r.value == t.(choice := r.value.choice, modified := r.value.modified,
                                         prevChoice := t.choice, unserved := r.value.unserved)
    ensures r.Success? ==> r.value.modified == r.value.unserved == (if t.served == Unserved then 1 else 0)
    ensures r.Success? && t.served == Unserved ==> r.value.choice != Nsm
  {
    if t.served == Unserved then
      var c := DcaCalc.ReassignUnserved(t.prc, draw);
      if c.Failure? then Failure(c.error)
      else Success(t.(choice := c.value, modified := 1, prevChoice := t.choice, unserved := 1))
    else Success(t.(modified := 0, prevChoice := t.choice, unserved := 0))
  }

  /**
   * Lines 168-175 on one row: a row that was not served gets the current NSM
   * times; then the NSM utility, the weights and the probabilities are
   * recomputed with the current estimates.
   */
  function Refreshed(t: Traveler, est: Estimates, exp: DcaCalc.PositiveFn): (r: Traveler)
    ensures r.served == t.served && r.nsmUser == t.nsmUser && r.requestId == t.requestId && r.choice == t.choice
    ensures r.prevChoice == t.prevChoice && r.unserved == t.unserved && r.modified == t.modified
    ensures t.served == Served ==>
      r.nsmWaitTime == t.nsmWaitTime && r.nsmTravelTime == t.nsmTravelTime && r.nsmTotalTime == t.nsmTotalTime
    ensures r.carTime == t.carTime
    ensures t.served != Served ==>
      && r.nsmWaitTime == est.wait && r.nsmTravelTime == RideTime(t.carTime, est.ratio)
      && r.nsmTotalTime == RideTime(t.carTime, est.ratio) + est.wait
  {
    var timed := if t.served != Served then WithNsmTimes(t, est.wait, est.ratio) else t;
    var re := DcaCalc.RecalcNsmRow(timed, est.coefs, est.serviceRate, exp);
    re.(prc := DcaCalc.ProbsOf(re.ex, re.expTotal))
  }

  /** Lines 178-188 on one row: a served request and a never-requesting traveller draw their mode again. */
  function RedrawnRow(t: Traveler, draw: real): (r: Result<Traveler>)
    requires DcaCalc.UnitInterval(draw)
    ensures r.Success? ==> r.value == t.(choice := r.value.choice, modified := r.value.modified)
    ensures r.Success? ==> r.value.nsmWaitTime == t.nsmWaitTime && r.value.nsmTravelTime == t.nsmTravelTime
    ensures r.Success? ==> r.value.nsmTotalTime == t.nsmTotalTime && r.value.carTime == t.carTime
    ensures r.Success? ==> r.value.modified == if t.served == Served || t.served == NotRequested then 1 else t.modified
    ensures r.Success? && (t.served == Served || t.served == NotRequested) ==>
      r.value.prc.Defined? && r.value.prc.p[r.value.choice] > 0.0
    ensures r.Success? && t.served != Served && t.served != NotRequested ==> r.value.choice == t.choice
  {
    if t.served == Served || t.served == NotRequested then
      var c := DcaCalc.SelectChoice(t.prc, draw);
      if c.Failure? then Failure(c.error) else Success(t.(choice := c.value, modified := 1))
    else Success(t)
  }

  /**
   * Lines 162-188 on one row of a replication's reconciled table.  The
   * `served` column and the NSM-user flag stay as the simulation left them.
   * An unserved request ends on a non-NSM mode; a served request keeps the
   * times the simulator measured; every other row gets the current NSM
   * times.  Every row of a table whose `served` column is -1, 0 or 1 ends
   * with `modified` = 1, and a redrawn mode has positive probability.
   */
  function PostsimRow(t: Traveler, est: Estimates, exp: DcaCalc.PositiveFn, unservedDraw: real, redraw: real)
    : (r: Result<Traveler>)
    requires DcaCalc.UnitInterval(unservedDraw) && DcaCalc.UnitInterval(redraw)
    ensures r.Success? ==> r.value.served == t.served && r.value.nsmUser == t.nsmUser && r.value.requestId == t.requestId
    ensures r.Success? ==> r.value.prevChoice == t.choice
    ensures r.Success? ==> (r.value.unserved == 1 <==> t.served == Unserved)
    ensures r.Success? && t.served == Unserved ==> r.value.choice != Nsm
    ensures r.Success? && t.served == Served ==>
      r.value.nsmWaitTime == t.nsmWaitTime && r.value.nsmTravelTime == t.nsmTravelTime && r.value.nsmTotalTime == t.nsmTotalTime
    ensures r.Success? ==> r.value.carTime == t.carTime
    ensures r.Success? && t.served != Served ==>
      && r.value.nsmWaitTime == est.wait && r.value.nsmTravelTime == RideTime(t.carTime, est.ratio)
      && r.value.nsmTotalTime == RideTime(t.carTime, est.ratio) + est.wait
    ensures r.Success? && (t.served == Served || t.served == NotRequested) ==>
      r.value.prc.Defined? && r.value.prc.p[r.value.choice] > 0.0
    ensures r.Success? ==> (r.value.modified == 1 <==> t.served in {NotRequested, Unserved, Served})
  {
    var a := ReassignedRow(t, unservedDraw);
    if a.Failure? then Failure(a.error)
    else RedrawnRow(Refreshed(a.value, est, exp), redraw)
  }

  /**
   * A row whose weights and probabilities are those of its utilities and
   * availabilities (as demand realisation leaves them), with every mode's
   * availability non-negative and walking available, is always re-chosen:
   * neither the reassignment nor the redraw can fail.
   */
  lemma PostsimRowSucceeds(t: Traveler, est: Estimates, exp: DcaCalc.PositiveFn, unservedDraw: real, redraw: real)
    requires DcaCalc.UnitInterval(unservedDraw) && DcaCalc.UnitInterval(redraw)
    requires forall m :: 0 <= m < NumModes ==> t.av[m] >= 0.0
    requires t.av[Walk] > 0.0
    requires t.ex == DcaCalc.ExpsOf(t.u, t.av, exp) && t.prc == DcaCalc.ProbsOf(t.ex, Total(t.ex))
    ensures PostsimRow(t, est, exp, unservedDraw, redraw).Success?
  {
    ReassignedRowSucceeds(t, unservedDraw, exp);
    var a := ReassignedRow(t, unservedDraw).value;
    RefreshedKeepsWeights(a, est, exp);
    RedrawnRowSucceeds(Refreshed(a, est, exp), t.av, exp, redraw);
  }

  /** The reassignment cannot fail on a row whose probabilities are those of its utilities, with walking available. */
  lemma ReassignedRowSucceeds(t: Traveler, draw: real, exp: DcaCalc.PositiveFn)
    requires DcaCalc.UnitInterval(draw)
    requires forall m :: 0 <= m < NumModes ==> t.av[m] >= 0.0
    requires t.av[Walk] > 0.0
    requires t.ex == DcaCalc.ExpsOf(t.u, t.av, exp) && t.prc == DcaCalc.ProbsOf(t.ex, Total(t.ex))
    ensures ReassignedRow(t, draw).Success?
    ensures ReassignedRow(t, draw).value.u == t.u && ReassignedRow(t, draw).value.av == t.av
    ensures ReassignedRow(t, draw).value.ex == t.ex
  {
    if t.served == Unserved {
      DcaCalc.ReassignAfterProbs(t.u, t.av, exp, Walk, draw);
    }
  }

  /** The redraw cannot fail on a row whose probabilities are those of its utilities, with walking available. */
  lemma RedrawnRowSucceeds(f: Traveler, av: PerMode, exp: DcaCalc.PositiveFn, draw: real)
    requires DcaCalc.UnitInterval(draw)
    requires forall m :: 0 <= m < NumModes ==> av[m] >= 0.0
    requires av[Walk] > 0.0
    requires f.prc == DcaCalc.ProbsOf(DcaCalc.ExpsOf(f.u, av, exp), Total(DcaCalc.ExpsOf(f.u, av, exp)))
    ensures RedrawnRow(f, draw).Success?
  {
    DcaCalc.SelectChoiceAfterProbs(f.u, av, exp, Walk, draw);
  }

  /** Refreshing a row whose weights are those of its utilities keeps them so, with the new NSM utility. */
  lemma RefreshedKeepsWeights(t: Traveler, est: Estimates, exp: DcaCalc.PositiveFn)
    requires t.ex == DcaCalc.ExpsOf(t.u, t.av, exp)
    ensures Refreshed(t, est, exp).prc ==
      DcaCalc.ProbsOf(DcaCalc.ExpsOf(Refreshed(t, est, exp).u, t.av, exp), Total(DcaCalc.ExpsOf(Refreshed(t, est, exp).u, t.av, exp)))
  {
    var timed := if t.served != Served then WithNsmTimes(t, est.wait, est.ratio) else t;
    var re := DcaCalc.RecalcNsmRow(timed, est.coefs, est.serviceRate, exp);
    assert re.ex == DcaCalc.ExpsOf(re.u, t.av, exp) by {
      forall m | 0 <= m < NumModes ensures re.ex[m] == DcaCalc.ExpsOf(re.u, t.av, exp)[m] {
        if m < Nsm {
          DcaCalc.WeightUses(t.u, re.u, t.av, m, exp);
        }
      }
    }
  }

  /**
   * Lines 158-190 for one replication: reassigns the unserved requests,
   * refreshes the NSM times, utilities and probabilities, and lets served
   * requests and never-requesting travellers choose again.  ok is false where
   * the source raises.
   */
  method UpdateAfterSimulation(df: array<Traveler>, est: Estimates, exp: DcaCalc.PositiveFn,
                               unservedDraws: seq<real>, redraws: seq<real>) returns (ok: bool)
    requires |unservedDraws| == df.Length && forall k :: 0 <= k < df.Length ==> DcaCalc.UnitInterval(unservedDraws[k])
    requires |redraws| == df.Length && forall k :: 0 <= k < df.Length ==> DcaCalc.UnitInterval(redraws[k])
    modifies df
    ensures ok <==> forall k :: 0 <= k < df.Length ==>
      PostsimRow(old(df[k]), est, exp, unservedDraws[k], redraws[k]).Success?
    ensures ok ==> forall k :: 0 <= k < df.Length ==>
      df[k] == PostsimRow(old(df[k]), est, exp, unservedDraws[k], redraws[k]).value
  {
    ghost var before := df[..];
    ok := FleetPy.UpdateFleetpyUnservedchoose(df, unservedDraws);
    if !ok {
      ReassignFailureFails(before, est, exp, unservedDraws, redraws);
      return;
    }
    ReassignedRows(before, df[..], unservedDraws);
    ok := RechooseRows(df, before, est, exp, unservedDraws, redraws);
  }

  /** The table the simulator's reassignment step leaves is the row-wise reassignment of the table before it. */
  lemma ReassignedRows(before: seq<Traveler>, after: seq<Traveler>, draws: seq<real>)
    requires |before| == |after| == |draws| && forall k :: 0 <= k < |draws| ==> DcaCalc.UnitInterval(draws[k])
    requires forall k :: 0 <= k < |before| && before[k].served == Unserved ==>
      DcaCalc.ReassignUnserved(before[k].prc, draws[k]).Success?
    requires forall k :: 0 <= k < |before| && before[k].served == Unserved ==>
      after[k] == before[k].(choice := DcaCalc.ReassignUnserved(before[k].prc, draws[k]).value,
                             modified := 1, prevChoice := before[k].choice, unserved := 1)
    requires forall k :: 0 <= k < |before| && before[k].served != Unserved ==>
      after[k] == before[k].(modified := 0, prevChoice := before[k].choice, unserved := 0)
    ensures forall k :: 0 <= k < |before| ==>
      ReassignedRow(before[k], draws[k]).Success? && after[k] == ReassignedRow(before[k], draws[k]).value
  {
  }

  /** A request whose reassignment cannot be drawn makes its row's re-choice fail. */
  lemma ReassignFailureFails(rows: seq<Traveler>, est: Estimates, exp: DcaCalc.PositiveFn,
                             unservedDraws: seq<real>, redraws: seq<real>)
    requires |unservedDraws| == |rows| && forall k :: 0 <= k < |rows| ==> DcaCalc.UnitInterval(unservedDraws[k])
    requires |redraws| == |rows| && forall k :: 0 <= k < |rows| ==> DcaCalc.UnitInterval(redraws[k])
    requires !forall k :: 0 <= k < |rows| && rows[k].served == Unserved ==>
      DcaCalc.ReassignUnserved(rows[k].prc, unservedDraws[k]).Success?
    ensures !forall k :: 0 <= k < |rows| ==> PostsimRow(rows[k], est, exp, unservedDraws[k], redraws[k]).Success?
  {
    var k :| 0 <= k < |rows| && rows[k].served == Unserved && DcaCalc.ReassignUnserved(rows[k].prc, unservedDraws[k]).Failure?;
    assert PostsimRow(rows[k], est, exp, unservedDraws[k], redraws[k]).Failure?;
  }

  /** Lines 168-188 on a table whose unserved requests are reassigned. */
  method RechooseRows(df: array<Traveler>, ghost before: seq<Traveler>, est: Estimates, exp: DcaCalc.PositiveFn,
                      unservedDraws: seq<real>, redraws: seq<real>) returns (ok: bool)
    requires |before| == df.Length
    requires |unservedDraws| == df.Length && forall k :: 0 <= k < df.Length ==> DcaCalc.UnitInterval(unservedDraws[k])
    requires |redraws| == df.Length && forall k :: 0 <= k < df.Length ==> DcaCalc.UnitInterval(redraws[k])
    requires forall k :: 0 <= k < df.Length ==>
      ReassignedRow(before[k], unservedDraws[k]).Success? && df[k] == ReassignedRow(before[k], unservedDraws[k]).value
    modifies df
    ensures ok <==> forall k :: 0 <= k < df.Length ==> PostsimRow(before[k], est, exp, unservedDraws[k], redraws[k]).Success?
    ensures ok ==> forall k :: 0 <= k < df.Length ==>
      df[k] == PostsimRow(before[k], est, exp, unservedDraws[k], redraws[k]).value
  {
    RefreshAll(df, est, exp);
    ok := RedrawAll(df, redraws);
  }

  /** Lines 168-175: every row refreshed with the current estimates. */
  method RefreshAll(df: array<Traveler>, est: Estimates, exp: DcaCalc.PositiveFn)
    modifies df
    ensures forall k :: 0 <= k < df.Length ==> df[k] == Refreshed(old(df[k]), est, exp)
  {
    RefreshNsmTimes(df, est);
    DcaCalc.RecalcNsmUtilAndExp(df, est.coefs, est.serviceRate, exp);
    DcaCalc.CalcAllProbs(df);
  }

  /** Lines 178-188: the served requests, then the never-requesting travellers, draw again. */
  method RedrawAll(df: array<Traveler>, redraws: seq<real>) returns (ok: bool)
    requires |redraws| == df.Length && forall k :: 0 <= k < df.Length ==> DcaCalc.UnitInterval(redraws[k])
    modifies df
    ensures ok <==> forall k :: 0 <= k < df.Length ==> RedrawnRow(old(df[k]), redraws[k]).Success?
    ensures ok ==> forall k :: 0 <= k < df.Length ==> df[k] == RedrawnRow(old(df[k]), redraws[k]).value
  {
    ghost var before := df[..];
    ok := RedrawWhere(df, Served, redraws);
    if !ok {
      ghost var k :| 0 <= k < df.Length && before[k].served == Served &&
        DcaCalc.SelectChoice(before[k].prc, redraws[k]).Failure?;
      assert RedrawnRow(before[k], redraws[k]).Failure?;
      return;
    }
    ghost var middle := df[..];
    assert forall k :: 0 <= k < df.Length ==> middle[k].served == before[k].served && middle[k].prc == before[k].prc;
    ok := RedrawWhere(df, NotRequested, redraws);
    if !ok {
      ghost var k :| 0 <= k < df.Length && middle[k].served == NotRequested &&
        DcaCalc.SelectChoice(middle[k].prc, redraws[k]).Failure?;
      assert RedrawnRow(before[k], redraws[k]).Failure?;
      return;
    }
  }

  /** Lines 168-170: the current NSM times on every row that was not served. */
  method RefreshNsmTimes(df: array<Traveler>, est: Estimates)
    modifies df
    ensures forall k :: 0 <= k < df.Length ==>
      df[k] == if old(df[k]).served != Served then WithNsmTimes(old(df[k]), est.wait, est.ratio) else old(df[k])
  {
    forall k | 0 <= k < df.Length {
      df[k] := if df[k].served != Served then WithNsmTimes(df[k], est.wait, est.ratio) else df[k];
    }
  }

  /**
   * Lines 178-188, one mask: every row whose `served` value is `which` draws
   * its mode again and is marked modified; a draw that cannot be applied
   * raises before the column is written.
   */
  method RedrawWhere(df: array<Traveler>, which: int, draws: seq<real>) returns (ok: bool)
    requires |draws| == df.Length && forall k :: 0 <= k < df.Length ==> DcaCalc.UnitInterval(draws[k])
    modifies df
    ensures ok <==> forall k :: 0 <= k < df.Length && old(df[k]).served == which ==>
      DcaCalc.SelectChoice(old(df[k]).prc, draws[k]).Success?
    ensures ok ==> forall k :: 0 <= k < df.Length ==>
      df[k] == if old(df[k]).served == which
               then old(df[k]).(choice := DcaCalc.SelectChoice(old(df[k]).prc, draws[k]).value, modified := 1)
               else old(df[k])
  {
    ok := forall k :: 0 <= k < df.Length && df[k].served == which ==> DcaCalc.SelectChoice(df[k].prc, draws[k]).Success?;
    if ok {
      forall k | 0 <= k < df.Length {
        df[k] := if df[k].served == which
                 then df[k].(choice := DcaCalc.SelectChoice(df[k].prc, draws[k]).value, modified := 1)
                 else df[k];
      }
    }
  }

  // ------------------------------------------------------------ every replication after the simulation

  /** Uniform numbers in [0,1) indexed by replication and row, as the random generator supplies them. */
  type Uniforms = f: (nat, nat) -> real | forall j: nat, k: nat :: DcaCalc.UnitInterval(f(j, k))
    witness (j: nat, k: nat) => 0.0

  /** The presimulation table file of replication j: written for each kept table, absent after the break. */
  function PresimFile(tables: seq<seq<Traveler>>, j: nat): Option<seq<Traveler>> {
    if j < |tables| then Some(tables[j]) else None
  }

  /** The presimulation table files of n replications. */
  function PresimFiles(tables: seq<seq<Traveler>>, n: nat): (fs: seq<Option<seq<Traveler>>>)
    ensures |fs| == n && forall j :: 0 <= j < n ==> fs[j] == PresimFile(tables, j)
  {
    seq(n, j requires 0 <= j < n => PresimFile(tables, j))
  }

  /** The tables of a list every one of which was read. */
  function Loaded(dflist: seq<Option<seq<Traveler>>>): (ts: seq<seq<Traveler>>)
    requires forall j :: 0 <= j < |dflist| ==> dflist[j].Some?
    ensures |ts| == |dflist| && forall j :: 0 <= j < |dflist| ==> Some(ts[j]) == dflist[j]
  {
    seq(|dflist|, j requires 0 <= j < |dflist| => dflist[j].value)
  }

  /** Replication j's table after lines 158-190, row k drawing with the k-th uniform numbers of replication j. */
  function PostsimTable(rows: seq<Traveler>, j: nat, est: Estimates, exp: DcaCalc.PositiveFn, ud: Uniforms, rd: Uniforms)
    : Result<seq<Traveler>>
  {
    if forall k :: 0 <= k < |rows| ==> PostsimRow(rows[k], est, exp, ud(j, k), rd(j, k)).Success? then
      Success(seq(|rows|, k requires 0 <= k < |rows| => PostsimRow(rows[k], est, exp, ud(j, k), rd(j, k)).value))
    else Failure("no mode could be drawn")
  }

  /** Every replication's table after lines 158-190; fails where some replication's re-choice raises. */
  function PostsimTables(tables: seq<seq<Traveler>>, est: Estimates, exp: DcaCalc.PositiveFn, ud: Uniforms, rd: Uniforms)
    : Result<seq<seq<Traveler>>>
  {
    if forall j :: 0 <= j < |tables| ==> PostsimTable(tables[j], j, est, exp, ud, rd).Success? then
      Success(seq(|tables|, j requires 0 <= j < |tables| => PostsimTable(tables[j], j, est, exp, ud, rd).value))
    else Failure("no mode could be drawn")
  }

  /** One replication's re-choice succeeds exactly when no row's raises, and then re-chooses each row. */
  lemma PostsimTableRows(rows: seq<Traveler>, j: nat, est: Estimates, exp: DcaCalc.PositiveFn, ud: Uniforms, rd: Uniforms)
    ensures PostsimTable(rows, j, est, exp, ud, rd).Success? <==>
      forall k :: 0 <= k < |rows| ==> PostsimRow(rows[k], est, exp, ud(j, k), rd(j, k)).Success?
    ensures PostsimTable(rows, j, est, exp, ud, rd).Success? ==>
      && |PostsimTable(rows, j, est, exp, ud, rd).value| == |rows|
      && forall k :: 0 <= k < |rows| ==>
           PostsimRow(rows[k], est, exp, ud(j, k), rd(j, k)) == Success(PostsimTable(rows, j, est, exp, ud, rd).value[k])
  {
  }

  /**
   * The re-choice of every replication succeeds exactly when no row's re-choice
   * raises, and then each table is its rows re-chosen one by one with that
   * replication's uniform numbers.
   */
  lemma PostsimTablesRows(tables: seq<seq<Traveler>>, est: Estimates, exp: DcaCalc.PositiveFn, ud: Uniforms, rd: Uniforms)
    ensures PostsimTables(tables, est, exp, ud, rd).Success? <==>
      forall j, k :: 0 <= j < |tables| && 0 <= k < |tables[j]| ==> PostsimRow(tables[j][k], est, exp, ud(j, k), rd(j, k)).Success?
    ensures PostsimTables(tables, est, exp, ud, rd).Success? ==>
      var post := PostsimTables(tables, est, exp, ud, rd).value;
      && |post| == |tables|
      && forall j, k :: 0 <= j < |tables| && 0 <= k < |tables[j]| ==>
           |post[j]| == |tables[j]| && PostsimRow(tables[j][k], est, exp, ud(j, k), rd(j, k)) == Success(post[j][k])
  {
    forall j | 0 <= j < |tables|
      ensures PostsimTable(tables[j], j, est, exp, ud, rd).Success? <==>
        forall k :: 0 <= k < |tables[j]| ==> PostsimRow(tables[j][k], est, exp, ud(j, k), rd(j, k)).Success?
      ensures PostsimTable(tables[j], j, est, exp, ud, rd).Success? ==>
        && |PostsimTable(tables[j], j, est, exp, ud, rd).value| == |tables[j]|
        && forall k :: 0 <= k < |tables[j]| ==>
             PostsimRow(tables[j][k], est, exp, ud(j, k), rd(j, k)) == Success(PostsimTable(tables[j], j, est, exp, ud, rd).value[k])
    {
      PostsimTableRows(tables[j], j, est, exp, ud, rd);
    }
  }

  /** Lines 158-190 on replication j's table, updated in place. */
  method UpdateTable(rows: seq<Traveler>, j: nat, est: Estimates, exp: DcaCalc.PositiveFn, ud: Uniforms, rd: Uniforms)
    returns (r: Result<seq<Traveler>>)
    ensures r == PostsimTable(rows, j, est, exp, ud, rd)
  {
    var df := new Traveler[|rows|](k requires 0 <= k < |rows| => rows[k]);
    assert df[..] == rows;
    var ok := UpdateAfterSimulation(df, est, exp, seq(|rows|, k requires 0 <= k < |rows| => ud(j, k)),
                                    seq(|rows|, k requires 0 <= k < |rows| => rd(j, k)));
    if !ok {
      return Failure("no mode could be drawn");
    }
    assert df[..] == seq(|rows|, k requires 0 <= k < |rows| => PostsimRow(rows[k], est, exp, ud(j, k), rd(j, k)).value);
    r := Success(df[..]);
  }

  /**
   * Lines 157-190: each replication's reconciled table is updated in place,
   * replication after replication; the first replication whose re-choice
   * raises ends the loop.
   */
  method UpdateAllAfterSimulation(tables: seq<seq<Traveler>>, est: Estimates, exp: DcaCalc.PositiveFn,
                                  ud: Uniforms, rd: Uniforms) returns (r: Result<seq<seq<Traveler>>>)
    ensures r == PostsimTables(tables, est, exp, ud, rd)
  {
    var post: seq<seq<Traveler>> := [];
    for j := 0 to |tables|
      invariant |post| == j
      invariant forall i :: 0 <= i < j ==> PostsimTable(tables[i], i, est, exp, ud, rd) == Success(post[i])
    {
      var t := UpdateTable(tables[j], j, est, exp, ud, rd);
      if t.Failure? {
        return Failure("no mode could be drawn");
      }
      post := post + [t.value];
    }
    assert post == seq(|tables|, j requires 0 <= j < |tables| => PostsimTable(tables[j], j, est, exp, ud, rd).value);
    return Success(post);
  }

  // ------------------------------------------------------------ one iteration

  /**
   * What one iteration takes from outside the model, one entry per
   * replication: the shuffle and draws of demand realisation, the
   * simulator's evaluation and user-statistics files (None where a file is
   * missing or empty), and the uniform numbers of the re-choice.
   */
  datatype Outside = Outside(draws: seq<Draws>, evals: seq<Option<FleetPy.EvalTable>>,
                             outcomes: seq<Option<seq<FleetPy.Outcome>>>,
                             unservedDraws: Uniforms, redraws: Uniforms)

  /** One file of each kind per replication, every shuffle a full one of the pool, and no request served twice. */
  predicate OutsideFits(pool: seq<Traveler>, x: Outside) {
    && (forall j :: 0 <= j < |x.draws| ==> DrawsFit(pool, x.draws[j]))
    && |x.evals| == |x.draws| && |x.outcomes| == |x.draws|
    && forall j :: 0 <= j < |x.outcomes| && x.outcomes[j].Some? ==> FleetPy.UniqueServedIds(x.outcomes[j].value)
  }

  /** What lines 130-144 compute: the simulator statistics, the reconciled tables and the travellers' statistics. */
  datatype Measurement = Measurement(simstats: map<string, FleetPy.KpiStat>, userdata: seq<Option<seq<Traveler>>>,
                                     us: FleetPy.UserStats)

  /**
   * m is what lines 130-144 compute from the iteration's kept tables and the
   * simulator's files: the statistics of the evaluation files that were
   * read, each replication's presimulation table reconciled with its
   * outcomes, and the mean and spread of the per-replication means.
   */
  predicate MeasuredFrom(m: Measurement, demand: seq<seq<Traveler>>, evals: seq<Option<FleetPy.EvalTable>>,
                         outcomes: seq<Option<seq<FleetPy.Outcome>>>)
    requires forall j :: 0 <= j < |outcomes| && outcomes[j].Some? ==> FleetPy.UniqueServedIds(outcomes[j].value)
  {
    && !FleetPy.TooManyMissing(FleetPy.Missing(evals), |evals|)
    && |FleetPy.Present(evals)| > 0 && FleetPy.KeysKnown(FleetPy.Present(evals))
    && m.simstats == FleetPy.Simstats(FleetPy.Present(evals))
    && |m.userdata| == |outcomes|
    && (forall j :: 0 <= j < |outcomes| ==>
          m.userdata[j] == FleetPy.UpdateRequestsUsersServed(PresimFile(demand, j), outcomes[j]))
    && |m.userdata| > 0 && FleetPy.AllMeasurable(m.userdata) && m.us == FleetPy.UserStatsOf(m.userdata)
  }

  /**
   * The values one iteration works with up to its measurements: the
   * smoothed NSM values and coefficients of its start, the estimates read
   * from them, the kept tables with their mode splits, and the measurements.
   */
  datatype Simulated = Simulated(nsm0: map<string, real>, model0: map<string, real>, pre: Estimates,
                                 demand: seq<seq<Traveler>>, splits: seq<Util.ModeStats>, measured: Measurement)

  /**
   * The values of a whole iteration: those up to its measurements, the
   * smoothed NSM values after the measurements were added, the estimates
   * read from them and the re-chosen tables.
   */
  datatype Trace = Trace(run: Simulated, nsm1: map<string, real>, post: Estimates, rechosen: seq<seq<Traveler>>)

  /**
   * The values of one iteration up to its measurements: the estimates
   * demand is realised from, read from the smoothed values of its start
   * (lines 67-81); the kept tables and their mode splits (83-109); the
   * measurements (130-144).
   */
  ghost predicate SimulatedFrom(pool: seq<Traveler>, x: Outside, nsmCost: real, exp: DcaCalc.PositiveFn, s: Simulated)
    requires OutsideFits(pool, x)
  {
    && EstimatesOf(s.nsm0, s.model0) == Some(s.pre)
    && Kept(Demands(pool, x.draws, s.pre, nsmCost, exp)) == Success(s.demand)
    && SplitsDescribe(s.splits, s.demand)
    && MeasuredFrom(s.measured, s.demand, x.evals, x.outcomes)
  }

  /**
   * The values of one iteration, stage by stage: those up to the
   * measurements, then the estimates of the re-choice, read from the
   * smoothed NSM values after the measurements were added but the
   * coefficients of the start (lines 168-175), and the re-chosen tables
   * (157-190).
   */
  ghost predicate StagesFrom(pool: seq<Traveler>, x: Outside, nsmCost: real, exp: DcaCalc.PositiveFn, t: Trace)
    requires OutsideFits(pool, x)
  {
    && SimulatedFrom(pool, x, nsmCost, exp, t.run)
    && EstimatesOf(t.nsm1, t.run.model0) == Some(t.post)
    && PostsimTables(Loaded(t.run.measured.userdata), t.post, exp, x.unservedDraws, x.redraws) == Success(t.rechosen)
  }

  // ------------------------------------------------------------ the stages of one iteration

  /**
   * Lines 61-109 of one iteration: every replication's demand realised from
   * the smoothed NSM values `nsm` and coefficients `model` (KeyError where
   * one is missing), with the kept tables' mode splits.
   */
  method Presimulation(nsm: map<string, real>, model: map<string, real>, pool: seq<Traveler>, draws: seq<Draws>,
                       nsmCost: real, exp: DcaCalc.PositiveFn)
    returns (r: Result<seq<seq<Traveler>>>, splits: seq<Util.ModeStats>)
    requires forall j :: 0 <= j < |draws| ==> DrawsFit(pool, draws[j])
    ensures EstimatesOf(nsm, model).None? ==> r.Failure?
    ensures EstimatesOf(nsm, model).Some? ==> r.Failure? == Kept(Demands(pool, draws, EstimatesOf(nsm, model).value, nsmCost, exp)).Failure?
    ensures r.Success? ==> r == Kept(Demands(pool, draws, EstimatesOf(nsm, model).value, nsmCost, exp))
    ensures r.Success? ==> SplitsDescribe(splits, r.value)
  {
    var e := EstimatesOf(nsm, model);
    if e.None? {
      return Failure("KeyError"), [];
    }
    r, splits := RealizeReplications(pool, draws, e.value, nsmCost, exp);
  }

  /**
   * Lines 157-190 of one iteration whose first stages produced s: the
   * re-choice on every replication's reconciled table with the smoothed NSM
   * values `nsm1` recorded since and the coefficients of the start
   * (KeyError where one is missing).
   */
  method Postsimulation(pool: seq<Traveler>, x: Outside, nsmCost: real, exp: DcaCalc.PositiveFn, s: Simulated,
                        nsm1: map<string, real>)
    returns (r: Result<Trace>)
    requires OutsideFits(pool, x) && SimulatedFrom(pool, x, nsmCost, exp, s)
    ensures EstimatesOf(nsm1, s.model0).None? ==> r.Failure?
    ensures r.Success? ==> r.value.run == s && r.value.nsm1 == nsm1 && StagesFrom(pool, x, nsmCost, exp, r.value)
  {
    var e := EstimatesOf(nsm1, s.model0);
    if e.None? {
      return Failure("KeyError");
    }
    var rechosen := UpdateAllAfterSimulation(Loaded(s.measured.userdata), e.value, exp, x.unservedDraws, x.redraws);
    if rechosen.Failure? {
      return Failure(rechosen.error);
    }
    r := Success(Trace(s, nsm1, e.value, rechosen.value));
  }
}
