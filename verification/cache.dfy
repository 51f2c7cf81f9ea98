/**
 * The decision rules and small data structures of cache.py: its MSQ
 * variant, whose assertions are inverted, the L1, MSQ and L2 access rules,
 * and the `Dep` parent/children record. Its `Pool` and `Memory` are the
 * ones of module LoadStore and module Memory.
 */
module Cache {
  import opened Common
  import LoadStore

  /**
   * Pops the last element of `src` and appends it to `dst`, returning it;
   * popping an empty list raises `IndexError` and changes nothing.
   */
  function PopOnto(src: seq<nat>, dst: seq<nat>): (res: (Result<nat>, seq<nat>, seq<nat>))
    ensures res.0.Ok? <==> src != []
    ensures res.0.Err? ==> res.0.fault == IndexError && res.1 == src && res.2 == dst
    ensures res.0.Ok? ==> res.1 + [res.0.value] == src && res.2 == dst + [res.0.value]
  {
    if src == [] then
      (Err(IndexError), src, dst)
    else
      var k := |src| - 1;
      (Ok(src[k]), src[..k], dst + [src[k]])
  }

  /**
   * The MSQ of cache.py. Its `Alloc` asserts that the free list is EMPTY
   * and its `Release` that the busy list is empty, so each either fails its
   * assertion or pops from an empty list: neither returns a unit, and
   * neither changes the lists.
   */
  class MSQ {
    const numUnits: nat
    var freelist: seq<nat>
    var busylist: seq<nat>

    constructor (numUnits: nat)
      ensures this.numUnits == numUnits
      ensures freelist == LoadStore.Iota(numUnits) && busylist == []
    {
      this.numUnits := numUnits;
      freelist := LoadStore.Iota(numUnits);
      busylist := [];
    }

    /**
     * As written: the inverted assertion, then the pop from the free list,
     * the append to the busy list and the return of the unit. The success
     * path is dead: the pop is reached only with an empty free list.
     */
    method Alloc() returns (r: Result<nat>)
      modifies this
      ensures r.Err?
      ensures r.fault == AssertionError <==> old(freelist) != []
      ensures r.fault == IndexError <==> old(freelist) == []
      ensures freelist == old(freelist) && busylist == old(busylist)
    {
      if freelist != [] {
        return Err(AssertionError);   // the inverted assertion fails
      }
      var (res, free', busy') := PopOnto(freelist, busylist);
      freelist, busylist := free', busy';
      r := res;
    }

    /**
     * As written: the inverted assertion, then the pop from the busy list,
     * the append to the free list and the return of the unit. The success
     * path is dead: the pop is reached only with an empty busy list.
     */
    method Release() returns (r: Result<nat>)
      modifies this
      ensures r.Err?
      ensures r.fault == AssertionError <==> old(busylist) != []
      ensures r.fault == IndexError <==> old(busylist) == []
      ensures freelist == old(freelist) && busylist == old(busylist)
    {
      if busylist != [] {
        return Err(AssertionError);   // the inverted assertion fails
      }
      var (res, busy', free') := PopOnto(busylist, freelist);
      freelist, busylist := free', busy';
      r := res;
    }
  }

  /** A draw of `random.randint(8, 12)`, the L2 hit latency. */
  type L2Latency = x: int | 8 <= x <= 12 witness 8

  /** A draw of `random.randint(15, 30)`, the memory latency of an L2 miss. */
  type MemoryLatency = x: int | 15 <= x <= 30 witness 15

  /** `MSQ.Access`: waits an L2 latency and reports code 0; the `hitL2` draw is unused. */
  function MsqAccess(hitL2: bool, latency: L2Latency): (r: Response)
    ensures r.code == 0 && 8 <= r.latency <= 12
  {
    Response(0, latency)
  }

  /** `accessL2`: code 0 after an L2 latency on a hit, code 1 after a memory latency on a miss. */
  function AccessL2(hitL2: bool, hitLatency: L2Latency, missLatency: MemoryLatency): (r: Response)
    ensures hitL2 <==> r.code == 0
    ensures hitL2 ==> 8 <= r.latency <= 12
    ensures !hitL2 ==> r.code == 1 && 15 <= r.latency <= 30
  {
    if hitL2 then Response(0, hitLatency) else Response(1, missLatency)
  }

  /** The responses `accessL2` can give are exactly (0, 8..12) and (1, 15..30). */
  lemma AccessL2Outcomes(r: Response)
    ensures (exists hitL2: bool, hitLat: L2Latency, missLat: MemoryLatency :: AccessL2(hitL2, hitLat, missLat) == r)
        <==> (r.code == 0 && 8 <= r.latency <= 12) || (r.code == 1 && 15 <= r.latency <= 30)
  {
    if r.code == 0 && 8 <= r.latency <= 12 {
      var lat: L2Latency := r.latency;
      assert AccessL2(true, lat, 15) == r;
    } else if r.code == 1 && 15 <= r.latency <= 30 {
      var lat: MemoryLatency := r.latency;
      assert AccessL2(false, 8, lat) == r;
    }
  }

  /**
   * `accessL1`, given its draws. A hit waits an L1 latency; a miss passes
   * on the response of `MSQ.Access` (the L2 rule is not consulted), so the
   * code is always 0. The miss path's `lat = 2` is never awaited, and the
   * wait for `msq_arb` is not part of `latency`.
   */
  function AccessL1(hitL1: bool, l1Latency: LoadStore.L1Latency, hitL2: bool, l2Latency: L2Latency): (r: Response)
    ensures r.code == 0
    ensures hitL1 ==> 2 <= r.latency <= 3
    ensures !hitL1 ==> 8 <= r.latency <= 12
  {
    if hitL1 then Response(0, l1Latency) else MsqAccess(hitL2, l2Latency)
  }

  /** The responses `accessL1` can give are exactly code 0 with latency 2..3 or 8..12. */
  lemma AccessL1Outcomes(r: Response)
    ensures (exists hitL1: bool, l1: LoadStore.L1Latency, hitL2: bool, l2: L2Latency :: AccessL1(hitL1, l1, hitL2, l2) == r)
        <==> r.code == 0 && (2 <= r.latency <= 3 || 8 <= r.latency <= 12)
  {
    if r.code == 0 && 2 <= r.latency <= 3 {
      var lat: LoadStore.L1Latency := r.latency;
      assert AccessL1(true, lat, false, 8) == r;
    } else if r.code == 0 && 8 <= r.latency <= 12 {
      var lat: L2Latency := r.latency;
      assert AccessL1(false, 2, false, lat) == r;
    }
  }

  /** The children's texts joined with no separator, in insertion order. */
  function Concat(children: seq<string>): string
  {
    if children == [] then "" else Concat(children[..|children| - 1]) + children[|children| - 1]
  }

  /** Joining two lists of children joins their texts. */
  lemma {:induction false} ConcatAppend(a: seq<string>, b: seq<string>)
    ensures Concat(a + b) == Concat(a) + Concat(b)
    decreases |b|
  {
    if b != [] {
      var k := |b| - 1;
      assert (a + b)[..|a + b| - 1] == a + b[..k];
      ConcatAppend(a, b[..k]);
    } else {
      assert a + b == a;
    }
  }

  /** The text `__str__` gives: the parent, an arrow, then every child. */
  function Render(parent: string, children: seq<string>): string
  {
    parent + " -> " + Concat(children)
  }

  /** A parent with an ordered list of children. */
  class Dep {
    const parent: string
    var child: seq<string>

    constructor (parent: string, child: string)
      ensures this.parent == parent && this.child == [child]
      ensures Render(parent, this.child) == parent + " -> " + child
    {
      this.parent := parent;
      this.child := [child];
      assert [child][..0] == [];
      assert Concat([child]) == Concat([]) + child;
    }

    /** Appends a child; the rendering grows by exactly that child's text. */
    method AddChild(c: string)
      modifies this
      ensures child == old(child) + [c]
      ensures Render(parent, child) == Render(parent, old(child)) + c
    {
      child := child + [c];
      ConcatAppend(old(child), [c]);
      assert [c][..0] == [];
    }

    /** `__str__`: builds the rendering one child at a time. */
    method ToString() returns (s: string)
      ensures s == Render(parent, child)
      ensures |s| >= |parent| + 4 && s[..|parent|] == parent
    {
      s := parent + " -> ";
      var i := 0;
      while i < |child|
        invariant 0 <= i <= |child|
        invariant s == parent + " -> " + Concat(child[..i])
      {
        assert child[..i + 1][..i] == child[..i];
        s := s + child[i];
        i := i + 1;
      }
      assert child[..|child|] == child;
    }
  }
}
