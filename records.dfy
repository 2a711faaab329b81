/**
 * The traveller table shared by the choice engine, the demand sampler and the
 * outcome reconciler: one record per trip request, one slot per column.
 */
module Records {
  import opened Wrappers

  /** Number of mode alternatives: 0 walk, 1 bike, 2 car, 3 public transit, 4 NSM. */
  const NumModes: nat := 5

  /** A mode alternative, coded as in the `choice` column. */
  type Mode = m: int | 0 <= m < 5

  const Walk: Mode := 0
  const Bike: Mode := 1
  const Car: Mode := 2
  const Pt: Mode := 3
  const Nsm: Mode := 4

  /** One value per mode, in mode order (the `*_av`, `u_*`, `exp_*`, `prc_*` column groups). */
  type PerMode = s: seq<real> | |s| == 5 witness [0.0, 0.0, 0.0, 0.0, 0.0]

  /** Sum over the five modes. */
  function Total(s: PerMode): real {
    s[0] + s[1] + s[2] + s[3] + s[4]
  }

  /** Sum of the first n entries of s. */
  function Prefix(s: seq<real>, n: nat): real
    requires n <= |s|
  {
    if n == 0 then 0.0 else Prefix(s, n - 1) + s[n - 1]
  }

  /**
   * The `prc_*` columns of one row: `NotFinite` when `exp_total` is zero and the
   * division yields NaN (or an infinity), otherwise the five quotients.
   */
  datatype Probs = NotFinite | Defined(p: PerMode)

  /** Values of the `served` column. */
  const NotRequested: int := -1
  const Unserved: int := 0
  const Served: int := 1

  /**
   * One traveller row.  `extra` holds every other column by name (for instance a
   * precomputed availability flag that an availability rule may copy).
   */
  datatype Traveler = Traveler(
    requestId: int,
    rqTime: real,
    walkTime: real,
    bikeTime: real,        // bike_electric_time
    carTime: real,
    carDist: real,
    ptTime: real,
    carCost: real,
    ptCost: real,
    nsmCost: real,
    nsmWaitTime: real,
    nsmTravelTime: real,
    nsmTotalTime: real,
    av: PerMode,
    u: PerMode,
    ex: PerMode,
    expTotal: real,
    prc: Probs,
    choice: Mode,
    nsmUser: int,
    served: int,
    modified: int,
    prevChoice: Mode,
    unserved: int,
    extra: map<string, real>)

  /** The `choice` column of a table. */
  function Choices(rows: seq<Traveler>): (cs: seq<Mode>)
    ensures |cs| == |rows|
    ensures forall k :: 0 <= k < |rows| ==> cs[k] == rows[k].choice
  {
    seq(|rows|, k requires 0 <= k < |rows| => rows[k].choice)
  }

  /** How the availability of one mode is set: copy a named column, or a number (0 or 1 uniformly, or a rate in (0,1) drawn per traveller). */
  datatype AvailRule = Column(name: string) | Rate(v: real)

  /** Request ids are pairwise distinct. */
  predicate UniqueIds(rows: seq<Traveler>) {
    forall a, b :: 0 <= a < b < |rows| ==> rows[a].requestId != rows[b].requestId
  }
}
