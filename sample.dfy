/** Drawing the demand of one replication from the request pool. */
module Sample {
  import opened Wrappers
  import opened Records
  import Setup

  /**
   * Python's round() on a float: the nearest integer, ties to the even
   * neighbour.
   */
  function RoundHalfEven(x: real): (r: int)
    ensures -0.5 <= (r as real) - x <= 0.5
    ensures ((r as real) - x == 0.5 || x - (r as real) == 0.5) ==> r % 2 == 0
  {
    var f := x.Floor;
    var d := x - f as real;
    if d < 0.5 then f
    else if d > 0.5 then f + 1
    else if f % 2 == 0 then f else f + 1
  }

  /** The rounding is the only integer within 1/2 of x that is even on a tie. */
  lemma RoundHalfEvenUnique(x: real, r: int)
    requires -0.5 <= (r as real) - x <= 0.5
    requires ((r as real) - x == 0.5 || x - (r as real) == 0.5) ==> r % 2 == 0
    ensures r == RoundHalfEven(x)
  {
  }

  /** Rounding does not leave [0, n] for a value in [0, n]. */
  lemma RoundHalfEvenWithin(x: real, n: int)
    requires 0.0 <= x <= n as real
    ensures 0 <= RoundHalfEven(x) <= n
  {
  }

  /** The number of requests drawn: the pool size scaled by demand_ratio / requestfile_ratio, rounded. */
  function SampleSize(poolSize: nat, demandRatio: real, requestfileRatio: real): int
    requires requestfileRatio != 0.0
  {
    RoundHalfEven(Scaled(poolSize, demandRatio / requestfileRatio))
  }

  /** The pool size scaled by a ratio, before rounding. */
  function Scaled(poolSize: nat, q: real): real {
    (poolSize as real) * q
  }

  /** A pool of 10000 requests, demand 1.5 and file ratio 15 gives a sample of 1000. */
  lemma SampleSizeExample()
    ensures SampleSize(10000, 1.5, 15.0) == 1000
  {
    assert (10000 as real) * (1.5 / 15.0) == 1000.0;
    assert (1000.0).Floor == 1000;
  }

  /** The sample fits in the pool whenever the demand ratio does not exceed the file ratio. */
  lemma SampleFits(poolSize: nat, demandRatio: real, requestfileRatio: real)
    requires 0.0 <= demandRatio <= requestfileRatio && requestfileRatio > 0.0
    ensures 0 <= SampleSize(poolSize, demandRatio, requestfileRatio) <= poolSize
  {
    UnitQuotient(demandRatio, requestfileRatio);
    RoundScaledWithin(poolSize, demandRatio / requestfileRatio);
  }

  /** Scaling n by a fraction in [0, 1] and rounding stays within 0..n. */
  lemma RoundScaledWithin(n: nat, q: real)
    requires 0.0 <= q <= 1.0
    ensures 0 <= RoundHalfEven(Scaled(n, q)) <= n
  {
    var x := Scaled(n, q);
    assert 0.0 <= x <= n as real by {
      ScaledDown(n as real, q);
    }
    RoundHalfEvenWithin(x, n);
  }

  lemma UnitQuotient(d: real, r: real)
    requires 0.0 <= d <= r && r > 0.0
    ensures 0.0 <= d / r <= 1.0
  {
    assert d / r * r == d;
  }

  lemma ScaledDown(a: real, q: real)
    requires 0.0 <= a && 0.0 <= q <= 1.0
    ensures 0.0 <= a * q <= a
  {
    Setup.MulNonneg(a, q);
    Setup.MulNonneg(a, 1.0 - q);
    assert a - a * q == a * (1.0 - q);
  }

  /** With the configured ratios (1.252 against 15.10924) every pool can be sampled. */
  lemma ConfiguredSampleFits(poolSize: nat)
    ensures 0 <= SampleSize(poolSize, Setup.DemandRatio, Setup.RequestfileRatio) <= poolSize
  {
    SampleFits(poolSize, Setup.DemandRatio, Setup.RequestfileRatio);
  }

  /** `picks` lists every pool position exactly once: the random shuffle the sampler follows. */
  predicate IsPermutationOf(picks: seq<nat>, n: nat) {
    |picks| == n && (forall k :: 0 <= k < n ==> picks[k] < n) &&
    (forall a, b :: 0 <= a < b < n ==> picks[a] != picks[b])
  }

  /**
   * `sample_request_pool` as written: the first SampleSize positions of the
   * random shuffle, in the order drawn.  The sort by request time that follows
   * discards its result, so the order stays the draw order.  A size above the
   * pool size or below zero makes the sampler fail.
   */
  function SampleRequestPool(pool: seq<Traveler>, demandRatio: real, requestfileRatio: real, picks: seq<nat>)
    : (r: Result<seq<Traveler>>)
    requires requestfileRatio != 0.0 && IsPermutationOf(picks, |pool|)
    ensures r.Success? <==> 0 <= SampleSize(|pool|, demandRatio, requestfileRatio) <= |pool|
    ensures r.Success? ==> |r.value| == SampleSize(|pool|, demandRatio, requestfileRatio)
    ensures r.Success? ==> forall k :: 0 <= k < |r.value| ==> r.value[k] == pool[picks[k]] && r.value[k] in pool
  {
    var n := SampleSize(|pool|, demandRatio, requestfileRatio);
    if n < 0 || n > |pool| then Failure("cannot take a larger sample than population when replace=False")
    else Success(seq(n, k requires 0 <= k < n => pool[picks[k]]))
  }

  /** Sampling without replacement keeps request ids unique. */
  lemma SampleKeepsUniqueIds(pool: seq<Traveler>, demandRatio: real, requestfileRatio: real, picks: seq<nat>)
    requires requestfileRatio != 0.0 && IsPermutationOf(picks, |pool|)
    requires UniqueIds(pool)
    requires SampleRequestPool(pool, demandRatio, requestfileRatio, picks).Success?
    ensures UniqueIds(SampleRequestPool(pool, demandRatio, requestfileRatio, picks).value)
  {
    var s := SampleRequestPool(pool, demandRatio, requestfileRatio, picks).value;
    forall a, b | 0 <= a < b < |s| ensures s[a].requestId != s[b].requestId {
      var i, j := picks[a], picks[b];
      assert i != j;
      if i < j {
        assert pool[i].requestId != pool[j].requestId;
      } else {
        assert pool[j].requestId != pool[i].requestId;
      }
    }
  }

  // ------------------------------------------------------------ order of the sample

  /** Each row's request time is at most the next row's. */
  predicate SortedByTime(rows: seq<Traveler>) {
    forall k :: 0 < k < |rows| ==> rows[k - 1].rqTime <= rows[k].rqTime
  }

  /** The as-written sampler can return requests out of request-time order. */
  lemma SampleOrderNotSorted(a: Traveler, b: Traveler)
    requires a.rqTime < b.rqTime
    ensures SampleRequestPool([a, b], 1.0, 1.0, [1, 0]).Success?
    ensures !SortedByTime(SampleRequestPool([a, b], 1.0, 1.0, [1, 0]).value)
  {
    assert SampleSize(2, 1.0, 1.0) == 2 by {
      assert (2 as real) * (1.0 / 1.0) == 2.0;
      assert (2.0).Floor == 2;
    }
    var s := SampleRequestPool([a, b], 1.0, 1.0, [1, 0]).value;
    assert s[0] == b && s[1] == a;
  }

  /** Inserts x into a time-sorted sequence. */
  function InsertByTime(x: Traveler, rows: seq<Traveler>): (r: seq<Traveler>)
    requires SortedByTime(rows)
    ensures SortedByTime(r)
    ensures |r| == |rows| + 1 && (r[0] == x || (rows != [] && r[0] == rows[0]))
    decreases |rows|
  {
    if rows == [] then [x]
    else if x.rqTime <= rows[0].rqTime then [x] + rows
    else
      var rest := InsertByTime(x, rows[1..]);
      assert rows[0].rqTime <= rest[0].rqTime;
      SortedCons(rows[0], rest);
      [rows[0]] + rest
  }

  /** Inserting adds exactly x: the result is a permutation of rows with x added. */
  lemma {:induction false} InsertByTimeAdds(x: Traveler, rows: seq<Traveler>)
    requires SortedByTime(rows)
    ensures multiset(InsertByTime(x, rows)) == multiset(rows) + multiset{x}
    decreases |rows|
  {
    if rows != [] && x.rqTime > rows[0].rqTime {
      InsertByTimeAdds(x, rows[1..]);
      assert rows == [rows[0]] + rows[1..];
    }
  }

  /** A row no later than the head of a time-sorted sequence can be put in front of it. */
  lemma SortedCons(a: Traveler, s: seq<Traveler>)
    requires SortedByTime(s) && (s != [] ==> a.rqTime <= s[0].rqTime)
    ensures SortedByTime([a] + s)
  {
    forall k | 0 < k < |s| + 1 ensures ([a] + s)[k - 1].rqTime <= ([a] + s)[k].rqTime {
      if k > 1 {
        assert ([a] + s)[k - 1] == s[k - 2] && ([a] + s)[k] == s[k - 1];
      }
    }
  }

  /** Sorts rows by request time (insertion sort). */
  function SortByTime(rows: seq<Traveler>): (r: seq<Traveler>)
    ensures SortedByTime(r)
    ensures multiset(r) == multiset(rows)
  {
    if rows == [] then []
    else
      assert rows == [rows[0]] + rows[1..];
      InsertByTimeAdds(rows[0], SortByTime(rows[1..]));
      InsertByTime(rows[0], SortByTime(rows[1..]))
  }

  /**
   * The sampler with the sort applied: the same requests as the as-written
   * sampler, ordered by request time.
   */
  function SampleRequestPoolSorted(pool: seq<Traveler>, demandRatio: real, requestfileRatio: real, picks: seq<nat>)
    : (r: Result<seq<Traveler>>)
    requires requestfileRatio != 0.0 && IsPermutationOf(picks, |pool|)
    ensures r.Success? <==> SampleRequestPool(pool, demandRatio, requestfileRatio, picks).Success?
    ensures r.Success? ==> SortedByTime(r.value)
    ensures r.Success? ==> multiset(r.value) == multiset(SampleRequestPool(pool, demandRatio, requestfileRatio, picks).value)
  {
    match SampleRequestPool(pool, demandRatio, requestfileRatio, picks)
    case Failure(e) => Failure(e)
    case Success(s) => Success(SortByTime(s))
  }

  /** A permutation of rows with unique ids has unique ids. */
  lemma UniqueIdsPermutation(s: seq<Traveler>, t: seq<Traveler>)
    requires multiset(s) == multiset(t) && UniqueIds(s)
    ensures UniqueIds(t)
  {
    forall a, b | 0 <= a < b < |t| ensures t[a].requestId != t[b].requestId {
      if t[a].requestId == t[b].requestId {
        assert t[a] in multiset(s) && t[b] in multiset(s);
        var i :| 0 <= i < |s| && s[i] == t[a];
        var j :| 0 <= j < |s| && s[j] == t[b];
        if i == j {
          OccursOnce(s, i);
          OccursTwice(t, a, b);
        }
      }
    }
  }

  /** Two equal rows at different positions make that row occur at least twice. */
  lemma OccursTwice(t: seq<Traveler>, a: nat, b: nat)
    requires a < b < |t| && t[a] == t[b]
    ensures multiset(t)[t[a]] >= 2
  {
    assert t == t[..a] + [t[a]] + t[a + 1..b] + [t[b]] + t[b + 1..];
  }

  /** In a table with unique ids every row occurs once. */
  lemma OccursOnce(s: seq<Traveler>, i: nat)
    requires UniqueIds(s) && i < |s|
    ensures multiset(s)[s[i]] == 1
  {
    assert s == s[..i] + [s[i]] + s[i + 1..];
    assert s[i] !in s[..i] by {
      forall j | 0 <= j < i ensures s[j] != s[i] {
        assert s[j].requestId != s[i].requestId;
      }
    }
    assert s[i] !in s[i + 1..] by {
      forall j | i + 1 <= j < |s| ensures s[j] != s[i] {
        assert s[i].requestId != s[j].requestId;
      }
    }
    assert multiset(s[..i])[s[i]] == 0;
    assert multiset(s[i + 1..])[s[i]] == 0;
  }

  /** The sorted sample keeps request ids unique too. */
  lemma SortedSampleKeepsUniqueIds(pool: seq<Traveler>, demandRatio: real, requestfileRatio: real, picks: seq<nat>)
    requires requestfileRatio != 0.0 && IsPermutationOf(picks, |pool|)
    requires UniqueIds(pool)
    requires SampleRequestPoolSorted(pool, demandRatio, requestfileRatio, picks).Success?
    ensures UniqueIds(SampleRequestPoolSorted(pool, demandRatio, requestfileRatio, picks).value)
  {
    SampleKeepsUniqueIds(pool, demandRatio, requestfileRatio, picks);
    UniqueIdsPermutation(SampleRequestPool(pool, demandRatio, requestfileRatio, picks).value,
                         SampleRequestPoolSorted(pool, demandRatio, requestfileRatio, picks).value);
  }
}
