/**
 * The bookkeeping of loadstore.py: the id pool, the miss-status queue's
 * free and busy unit lists, the result and latency rules of the L1 and
 * MSQ accesses, and the loop that issues the loads.
 */
module LoadStore {
  import opened Common

  /** A counter that hands out ids 0, 1, 2, ... */
  class Pool {
    var id: nat

    /** The ids drawn so far. */
    ghost function Issued(): set<nat>
      reads this
    {
      set i | i in Iota(id)
    }

    constructor ()
      ensures id == 0 && Issued() == {}
    {
      id := 0;
    }

    /** Returns the current counter, then increments it. */
    method Draw() returns (r: nat)
      modifies this
      ensures r == old(id) && id == old(id) + 1
      ensures r !in old(Issued()) && Issued() == old(Issued()) + {r}
      ensures forall x :: x in old(Issued()) ==> x < r
    {
      r := id;
      id := id + 1;
      IotaBelow(r);
      assert Iota(id) == Iota(r) + [r];
    }
  }

  /** Unit ids `0, 1, ..., n - 1` in order, as `list(range(0, n))`. */
  function Iota(n: nat): seq<nat>
  {
    if n == 0 then [] else Iota(n - 1) + [n - 1]
  }

  /** `Iota(n)` holds every unit below `n` exactly once and nothing else. */
  lemma {:induction false} IotaCount(n: nat, x: nat)
    ensures |Iota(n)| == n
    ensures multiset(Iota(n))[x] == if x < n then 1 else 0
  {
    if n > 0 {
      IotaCount(n - 1, x);
    }
  }

  /** Every unit in `Iota(n)` is below `n`. */
  lemma IotaBelow(n: nat)
    ensures forall x :: x in Iota(n) ==> x < n
  {
    forall x | x in Iota(n) ensures x < n {
      IotaCount(n, x);
    }
  }

  /** The MSQ's two unit lists. */
  datatype Units = Units(free: seq<nat>, busy: seq<nat>)

  /** The two lists together are a permutation of `0..n-1`. */
  ghost predicate Partition(u: Units, n: nat)
  {
    multiset(u.free) + multiset(u.busy) == multiset(Iota(n))
  }

  /** A partition of `0..n-1` holds `n` units in all. */
  lemma PartitionSize(u: Units, n: nat)
    requires Partition(u, n)
    ensures |u.free| + |u.busy| == n
  {
    IotaCount(n, 0);
    assert |multiset(u.free) + multiset(u.busy)| == n;
  }

  /**
   * A partition of `0..n-1` holds `n` units in all, each below `n`, none
   * twice, and every unit below `n` sits in exactly one of the two lists.
   */
  lemma PartitionFacts(u: Units, n: nat)
    requires Partition(u, n)
    ensures |u.free| + |u.busy| == n
    ensures forall x :: x in u.free + u.busy ==> x < n
    ensures forall x: nat :: x < n ==> (x in u.free) != (x in u.busy)
    ensures forall i, j :: 0 <= i < j < |u.free + u.busy| ==> (u.free + u.busy)[i] != (u.free + u.busy)[j]
  {
    var all := u.free + u.busy;
    assert multiset(all) == multiset(Iota(n));
    PartitionSize(u, n);
    forall x | x in all ensures x < n {
      IotaCount(n, x);
      assert multiset(all)[x] > 0;
    }
    forall x: nat | x < n ensures (x in u.free) != (x in u.busy) {
      IotaCount(n, x);
    }
    forall i, j | 0 <= i < j < |all| ensures all[i] != all[j] {
      if all[i] == all[j] {
        TwiceCounted(all, i, j);
        IotaCount(n, all[i]);
        assert false;
      }
    }
  }

  /** An element found at two indices occurs at least twice. */
  lemma TwiceCounted(s: seq<nat>, i: int, j: int)
    requires 0 <= i < j < |s| && s[i] == s[j]
    ensures multiset(s)[s[i]] >= 2
  {
    assert s == s[..j] + [s[j]] + s[j + 1..];
    assert s[i] in s[..j];
    assert multiset(s) == multiset(s[..j]) + multiset{s[j]} + multiset(s[j + 1..]);
  }

  /**
   * `Alloc`: raises `AssertionError` on an empty free list; otherwise pops
   * the last free unit, appends it to the busy list and returns it.
   */
  function AllocStep(u: Units): (res: (Result<nat>, Units))
    ensures res.0.Ok? <==> u.free != []
    ensures res.0.Err? ==> res.0.fault == AssertionError && res.1 == u
    ensures res.0.Ok? ==> res.0.value == u.free[|u.free| - 1]
    ensures res.0.Ok? ==> res.1.free == u.free[..|u.free| - 1] && res.1.busy == u.busy + [res.0.value]
    ensures multiset(res.1.free) + multiset(res.1.busy) == multiset(u.free) + multiset(u.busy)
  {
    if u.free == [] then
      (Err(AssertionError), u)
    else
      var k := |u.free| - 1;
      assert u.free == u.free[..k] + [u.free[k]];
      (Ok(u.free[k]), Units(u.free[..k], u.busy + [u.free[k]]))
  }

  /**
   * `Release`: raises `AssertionError` on an empty busy list; otherwise pops
   * the LAST busy unit (whichever transaction allocated it), appends it to
   * the free list and returns it.
   */
  function ReleaseStep(u: Units): (res: (Result<nat>, Units))
    ensures res.0.Ok? <==> u.busy != []
    ensures res.0.Err? ==> res.0.fault == AssertionError && res.1 == u
    ensures res.0.Ok? ==> res.0.value == u.busy[|u.busy| - 1]
    ensures res.0.Ok? ==> res.1.busy == u.busy[..|u.busy| - 1] && res.1.free == u.free + [res.0.value]
    ensures multiset(res.1.free) + multiset(res.1.busy) == multiset(u.free) + multiset(u.busy)
  {
    if u.busy == [] then
      (Err(AssertionError), u)
    else
      var k := |u.busy| - 1;
      assert u.busy == u.busy[..k] + [u.busy[k]];
      (Ok(u.busy[k]), Units(u.free + [u.busy[k]], u.busy[..k]))
  }

  /** Both steps keep the two lists a permutation of `0..n-1`. */
  lemma StepsPreservePartition(u: Units, n: nat)
    requires Partition(u, n)
    ensures Partition(AllocStep(u).1, n) && Partition(ReleaseStep(u).1, n)
  {
  }

  /**
   * `Release` does not give back the caller's own unit: from a fresh
   * two-unit MSQ, a first `Alloc` takes unit 1 and a second takes unit 0,
   * and the next `Release` returns unit 0 whoever calls it.
   */
  lemma ReleaseTakesLastBusy()
    ensures var (a, u1) := AllocStep(Units(Iota(2), []));
      var (b, u2) := AllocStep(u1);
      var (c, u3) := ReleaseStep(u2);
      a == Ok(1) && b == Ok(0) && c == Ok(0) && u3 == Units([0], [1])
  {
    assert Iota(2) == [0, 1];
  }

  /** Unit allocation. The `simpy.Resource` arbiter is kept only as its capacity. */
  class MSQ {
    const numUnits: nat
    var freelist: seq<nat>
    var busylist: seq<nat>

    function State(): Units
      reads this
    {
      Units(freelist, busylist)
    }

    ghost predicate Valid()
      reads this
    {
      Partition(State(), numUnits)
    }

    constructor (numUnits: nat)
      ensures this.numUnits == numUnits
      ensures freelist == Iota(numUnits) && busylist == []
      ensures Valid()
    {
      this.numUnits := numUnits;
      freelist := Iota(numUnits);
      busylist := [];
    }

    method Alloc() returns (r: Result<nat>)
      requires Valid()
      modifies this
      ensures Valid()
      ensures (r, State()) == AllocStep(old(State()))
    {
      if freelist == [] {
        return Err(AssertionError);
      }
      var unit := freelist[|freelist| - 1];
      freelist := freelist[..|freelist| - 1];
      busylist := busylist + [unit];
      r := Ok(unit);
      StepsPreservePartition(old(State()), numUnits);
    }

    method Release() returns (r: Result<nat>)
      requires Valid()
      modifies this
      ensures Valid()
      ensures (r, State()) == ReleaseStep(old(State()))
    {
      if busylist == [] {
        return Err(AssertionError);
      }
      var unit := busylist[|busylist| - 1];
      busylist := busylist[..|busylist| - 1];
      freelist := freelist + [unit];
      r := Ok(unit);
      StepsPreservePartition(old(State()), numUnits);
    }
  }

  /** `MSQ.Access`: waits a fixed 20 cycles and reports code 0; the `hitL2` draw is unused. */
  function MsqAccess(unit: nat, hitL2: bool): (r: Response)
    ensures r.code == 0 && r.latency == 20
  {
    Response(0, 20)
  }

  /** A draw of `random.randint(2, 3)`, the L1 hit latency. */
  type L1Latency = x: int | 2 <= x <= 3 witness 2

  /**
   * `accessL1`, given its draws. A hit waits `hitLatency`; a miss waits for
   * the MSQ access only: its `lat = 2` goes into the trace and is never
   * awaited. Time spent queued at the arbiter is not part of `latency`.
   */
  function AccessL1(hitL1: bool, hitLatency: L1Latency, hitL2: bool): (r: Response)
    ensures r.code == 0
    ensures hitL1 ==> 2 <= r.latency <= 3
    ensures !hitL1 ==> r.latency == 20
  {
    if hitL1 then Response(0, hitLatency) else MsqAccess(0, hitL2)
  }

  /** The responses `accessL1` can give are exactly code 0 with latency 2, 3 or 20. */
  lemma AccessL1Outcomes(r: Response)
    ensures (exists hitL1: bool, lat: L1Latency, hitL2: bool :: AccessL1(hitL1, lat, hitL2) == r)
        <==> r.code == 0 && (2 <= r.latency <= 3 || r.latency == 20)
  {
    if r.code == 0 && 2 <= r.latency <= 3 {
      var lat: L1Latency := r.latency;
      assert AccessL1(true, lat, false) == r;
    } else if r.code == 0 && r.latency == 20 {
      assert AccessL1(false, 2, false) == r;
    }
  }

  /**
   * Issue times are paced like the `setup` loop: the first issue comes at
   * most 2 cycles after time 0, each later one 0 to 2 cycles after the last.
   */
  ghost predicate Paced(times: seq<nat>)
  {
    (|times| > 0 ==> times[0] <= 2) &&
    forall k :: 0 < k < |times| ==> times[k - 1] <= times[k] <= times[k - 1] + 2
  }

  /** Paced issue times never go backwards, and the k-th (1-based) comes by time 2k. */
  lemma {:induction false} PacedBounds(times: seq<nat>)
    requires Paced(times)
    ensures forall j, k :: 0 <= j <= k < |times| ==> times[j] <= times[k]
    ensures forall k :: 0 <= k < |times| ==> times[k] <= 2 * (k + 1)
  {
    if |times| > 1 {
      var prefix := times[..|times| - 1];
      assert Paced(prefix);
      PacedBounds(prefix);
      var last := |times| - 1;
      forall j, k | 0 <= j <= k < |times| ensures times[j] <= times[k] {
        if k == last && j < last {
          assert prefix[j] <= prefix[last - 1];
        }
      }
      forall k | 0 <= k < |times| ensures times[k] <= 2 * (k + 1) {
        if k == last {
          assert prefix[last - 1] <= 2 * last;
        } else {
          assert prefix[k] <= 2 * (k + 1);
        }
      }
    }
  }

  /**
   * `setup`: for each of `numTransactions` loads, waits `randint(0, 2)`
   * cycles and then issues it. Returns the issue times.
   */
  method Setup(numTransactions: int) returns (issued: seq<nat>)
    ensures |issued| == if numTransactions < 0 then 0 else numTransactions
    ensures Paced(issued)
  {
    var now: nat := 0;
    issued := [];
    var i := 0;
    while i < numTransactions
      invariant 0 <= i <= if numTransactions < 0 then 0 else numTransactions
      invariant |issued| == i
      invariant Paced(issued)
      invariant |issued| > 0 ==> now == issued[|issued| - 1]
      invariant |issued| == 0 ==> now == 0
    {
      var delay :| 0 <= delay <= 2;   // the random wait of 0 to 2 cycles
      now := now + delay;
      issued := issued + [now];       // the load is started now
      i := i + 1;
    }
  }
}
