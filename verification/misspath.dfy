/**
 * The miss path of `LoadStore.accessL1` as an interleaving of many
 * transactions. Each one waits for a grant from the MSQ arbiter (a
 * resource of capacity `numUnits`), calls `Alloc`, waits for the MSQ
 * access, calls `Release` and leaves the with-block, which hands the grant
 * back. The arbiter is kept only as its capacity: any waiting transaction
 * may be granted while fewer than `capacity` hold a grant, so the results
 * hold for every grant order, FIFO included.
 */
module MissPath {
  import opened Common
  import opened LoadStore

  /** Where one transaction that missed L1 stands. */
  datatype Phase =
    | Waiting   // has requested the arbiter
    | Granted   // inside the with-block, before `Alloc`
    | Holding   // between `Alloc` and `Release`
    | Done      // released its unit and left the with-block

  /** The step a transaction takes next. */
  datatype Action =
    | Grant    // the arbiter grants the request
    | Alloc    // `msq.Alloc()`
    | Finish   // `msq.Release()`, then the with-block exits

  datatype Sys = Sys(capacity: nat, units: Units, phases: seq<Phase>)

  /** A step that cannot be taken yet, one that raises, or the new state. */
  datatype Transition = Blocked | Faulted(fault: Fault) | Moved(next: Sys)

  /** A fresh MSQ with `m` transactions waiting for a grant. */
  function Init(capacity: nat, m: nat): (s: Sys)
    ensures |s.phases| == m && forall k :: 0 <= k < m ==> s.phases[k] == Waiting
  {
    Sys(capacity, Units(Iota(capacity), []), seq(m, _ => Waiting))
  }

  /** How many transactions hold a grant from the arbiter. */
  function Holders(ps: seq<Phase>): nat
  {
    multiset(ps)[Granted] + multiset(ps)[Holding]
  }

  /** Transaction `i` tries action `a`. */
  function Next(s: Sys, i: nat, a: Action): Transition
  {
    if i >= |s.phases| then Blocked
    else match a
      case Grant =>
        if s.phases[i] == Waiting && Holders(s.phases) < s.capacity
        then Moved(s.(phases := s.phases[i := Granted]))
        else Blocked
      case Alloc =>
        if s.phases[i] != Granted then Blocked
        else
          var (r, u) := AllocStep(s.units);
          if r.Err? then Faulted(r.fault) else Moved(s.(units := u, phases := s.phases[i := Holding]))
      case Finish =>
        if s.phases[i] != Holding then Blocked
        else
          var (r, u) := ReleaseStep(s.units);
          if r.Err? then Faulted(r.fault) else Moved(s.(units := u, phases := s.phases[i := Done]))
  }

  /** Runs a schedule of steps; a step that is blocked does not happen. */
  function Run(s: Sys, schedule: seq<(nat, Action)>): Transition
    decreases |schedule|
  {
    if schedule == [] then Moved(s)
    else match Next(s, schedule[0].0, schedule[0].1)
      case Blocked => Run(s, schedule[1..])
      case Faulted(f) => Faulted(f)
      case Moved(s') => Run(s', schedule[1..])
  }

  /**
   * The lists partition the units, one busy unit per transaction between
   * `Alloc` and `Release`, and no more grant holders than the capacity.
   */
  ghost predicate Inv(s: Sys)
  {
    Partition(s.units, s.capacity) &&
    |s.units.busy| == multiset(s.phases)[Holding] &&
    Holders(s.phases) <= s.capacity
  }

  lemma InitInv(capacity: nat, m: nat)
    ensures Inv(Init(capacity, m))
  {
    var s := Init(capacity, m);
    assert Granted !in s.phases && Holding !in s.phases;
  }

  /** Changing one phase moves one count from the old phase to the new one. */
  lemma CountsAfterUpdate(ps: seq<Phase>, i: nat, q: Phase)
    requires i < |ps|
    ensures multiset(ps[i := q]) == multiset(ps) - multiset{ps[i]} + multiset{q}
    ensures multiset(ps)[ps[i]] >= 1
  {
    assert ps[i] in multiset(ps);
  }

  lemma GrantKeepsInv(s: Sys, i: nat)
    requires Inv(s)
    ensures Next(s, i, Grant).Moved? ==> Inv(Next(s, i, Grant).next)
  {
    if i < |s.phases| {
      CountsAfterUpdate(s.phases, i, Granted);
    }
  }

  lemma AllocKeepsInv(s: Sys, i: nat)
    requires Inv(s)
    ensures !Next(s, i, Alloc).Faulted?
    ensures Next(s, i, Alloc).Moved? ==> Inv(Next(s, i, Alloc).next)
  {
    if i < |s.phases| && s.phases[i] == Granted {
      CountsAfterUpdate(s.phases, i, Holding);
      PartitionSize(s.units, s.capacity);
      assert s.units.free != [];
      StepsPreservePartition(s.units, s.capacity);
    }
  }

  lemma FinishKeepsInv(s: Sys, i: nat)
    requires Inv(s)
    ensures !Next(s, i, Finish).Faulted?
    ensures Next(s, i, Finish).Moved? ==> Inv(Next(s, i, Finish).next)
  {
    if i < |s.phases| && s.phases[i] == Holding {
      CountsAfterUpdate(s.phases, i, Done);
      assert s.units.busy != [];
      var (r, u) := ReleaseStep(s.units);
      assert Next(s, i, Finish) == Moved(Sys(s.capacity, u, s.phases[i := Done]));
      StepsPreservePartition(s.units, s.capacity);
      assert |u.busy| == |s.units.busy| - 1;
    }
  }

  /** From a state satisfying `Inv`, no step raises, and every step keeps `Inv`. */
  lemma NextKeepsInv(s: Sys, i: nat, a: Action)
    requires Inv(s)
    ensures !Next(s, i, a).Faulted?
    ensures Next(s, i, a).Moved? ==> Inv(Next(s, i, a).next)
  {
    match a
    case Grant => GrantKeepsInv(s, i);
    case Alloc => AllocKeepsInv(s, i);
    case Finish => FinishKeepsInv(s, i);
  }

  /** No schedule from a state satisfying `Inv` ever makes `Alloc` or `Release` raise. */
  lemma {:induction false} RunKeepsInv(s: Sys, schedule: seq<(nat, Action)>)
    requires Inv(s)
    ensures Run(s, schedule).Moved? && Inv(Run(s, schedule).next)
    ensures Run(s, schedule).next.capacity == s.capacity
    decreases |schedule|
  {
    if schedule != [] {
      var (i, a) := schedule[0];
      NextKeepsInv(s, i, a);
      match Next(s, i, a)
      case Blocked => RunKeepsInv(s, schedule[1..]);
      case Moved(s') => RunKeepsInv(s', schedule[1..]);
    }
  }

  lemma InvBounds(s: Sys)
    requires Inv(s)
    ensures |s.units.busy| == multiset(s.phases)[Holding] <= s.capacity
    ensures |s.units.free| + |s.units.busy| == s.capacity
  {
    PartitionSize(s.units, s.capacity);
  }

  /**
   * Under the arbiter of capacity `capacity`, whatever the interleaving of
   * `m` missing transactions, `Alloc` and `Release` never raise, at most
   * `capacity` units are busy, and the number of busy units equals the
   * number of transactions between their `Alloc` and their `Release`.
   */
  lemma MissPathSafe(capacity: nat, m: nat, schedule: seq<(nat, Action)>)
    ensures Run(Init(capacity, m), schedule).Moved?
    ensures var s := Run(Init(capacity, m), schedule).next;
      |s.units.busy| == multiset(s.phases)[Holding] <= capacity &&
      |s.units.free| + |s.units.busy| == capacity
  {
    InitInv(capacity, m);
    RunKeepsInv(Init(capacity, m), schedule);
    InvBounds(Run(Init(capacity, m), schedule).next);
  }
}
