/** The replica pool: round-robin over the healthy slots of a replica list that can be reloaded
    while it is in use. Slots, not addresses, take turns: an address may be listed twice. */
module ReplicaPool {

  type Address = string

  /** What GetReplica returns: an address and the name "primary" or "replicas[slot]". */
  datatype Choice = Primary(addr: Address) | Replica(addr: Address, slot: nat)

  predicate SlotHealthy(replicas: seq<Address>, healthy: map<Address, bool>, slot: int) {
    0 <= slot < |replicas| && replicas[slot] in healthy && healthy[replicas[slot]]
  }

  /** The slot `j` places after `current` in a ring of `n`. */
  function Ahead(n: nat, current: nat, j: nat): (slot: nat)
    requires current < n && j <= n
    ensures slot < n
  {
    if current + j < n then current + j else current + j - n
  }

  function Advance(n: nat, current: nat): (next: nat)
    requires current < n
    ensures next == Ahead(n, current, 1)
  {
    (current + 1) % n
  }

  /** How many slots after `current`, cyclically, the first healthy one comes; `n` if none does. */
  function Distance(replicas: seq<Address>, healthy: map<Address, bool>, current: nat, tried: nat): (d: nat)
    requires current < |replicas| && tried <= |replicas|
    ensures tried <= d <= |replicas|
    ensures d < |replicas| ==> SlotHealthy(replicas, healthy, Ahead(|replicas|, current, d))
    ensures forall j | tried <= j < d :: !SlotHealthy(replicas, healthy, Ahead(|replicas|, current, j))
    decreases |replicas| - tried
  {
    if tried == |replicas| || SlotHealthy(replicas, healthy, Ahead(|replicas|, current, tried)) then tried
    else Distance(replicas, healthy, current, tried + 1)
  }

  ghost predicate AnyHealthy(replicas: seq<Address>, healthy: map<Address, bool>) {
    exists i :: SlotHealthy(replicas, healthy, i)
  }

  /** The slot the next GetReplica returns. */
  function NextSlot(replicas: seq<Address>, healthy: map<Address, bool>, current: nat): (slot: nat)
    requires current < |replicas| && Distance(replicas, healthy, current, 0) < |replicas|
    ensures SlotHealthy(replicas, healthy, slot)
  {
    Ahead(|replicas|, current, Distance(replicas, healthy, current, 0))
  }

  lemma SlotInReach(n: nat, current: nat, i: nat) returns (j: nat)
    requires current < n && i < n
    ensures j < n && Ahead(n, current, j) == i
  {
    j := if current <= i then i - current else i + n - current;
  }

  /** The search gives up, and the primary is used, exactly when no slot is healthy. */
  lemma DistanceIff(replicas: seq<Address>, healthy: map<Address, bool>, current: nat)
    requires current < |replicas|
    ensures Distance(replicas, healthy, current, 0) < |replicas| <==> AnyHealthy(replicas, healthy)
  {
    if i :| SlotHealthy(replicas, healthy, i) {
      var j := SlotInReach(|replicas|, current, i);
    }
  }

  /** Reloading keeps the status of addresses it knows; new ones start healthy. */
  function Reloaded(healthy: map<Address, bool>, replicas: seq<Address>): map<Address, bool> {
    map r | r in replicas :: if r in healthy then healthy[r] else true
  }

  class Pool {
    var primary: Address
    var replicas: seq<Address>
    var healthy: map<Address, bool>
    var current: nat

    ghost predicate Valid()
      reads this
    {
      && (if replicas == [] then current == 0 else current < |replicas|)
      && healthy.Keys == set r | r in replicas
    }

    constructor (primary: Address, replicas: seq<Address>)
      ensures Valid()
      ensures this.primary == primary && this.replicas == replicas && current == 0
      ensures forall r | r in replicas :: healthy[r]
    {
      this.primary, this.replicas, this.current := primary, replicas, 0;
      new;
      healthy := map[];
      for i := 0 to |replicas|
        invariant this.primary == primary && this.replicas == replicas && current == 0
        invariant healthy.Keys == set r | r in replicas[..i]
        invariant forall r | r in healthy :: healthy[r]
      {
        healthy := healthy[replicas[i] := true];
      }
    }

    method UpdateReplicas(primary: Address, replicas: seq<Address>)
      requires Valid()
      modifies this
      ensures Valid()
      ensures this.primary == primary && this.replicas == replicas
      ensures healthy.Keys == set r | r in replicas
      ensures forall r | r in replicas :: healthy[r] == (r in old(healthy) ==> old(healthy)[r])
      ensures current == if replicas == [] then 0 else old(current) % |replicas|
    {
      this.primary := primary;
      var newHealthy := map[];
      for i := 0 to |replicas|
        invariant newHealthy == Reloaded(healthy, replicas[..i])
        invariant unchanged(this`healthy) && unchanged(this`current) && this.primary == primary
      {
        newHealthy := newHealthy[replicas[i] := if replicas[i] in healthy then healthy[replicas[i]] else true];
        assert replicas[..i + 1] == replicas[..i] + [replicas[i]];
      }
      assert replicas[..|replicas|] == replicas;
      this.replicas := replicas;
      healthy := newHealthy;
      current := if |replicas| > 0 then current % |replicas| else 0;
    }

    method GetReplica() returns (choice: Choice)
      requires Valid()
      modifies this`current
      ensures Valid()
      ensures AnyHealthy(replicas, healthy) <==> choice.Replica?
      ensures choice.Primary? ==> choice.addr == primary && current == old(current)
      ensures choice.Replica? ==> old(current) < |replicas| && Distance(replicas, healthy, old(current), 0) < |replicas|
      ensures choice.Replica? ==> choice.slot == NextSlot(replicas, healthy, old(current)) && choice.addr == replicas[choice.slot]
      ensures choice.Replica? ==> current == Ahead(|replicas|, choice.slot, 1)
    {
      if |replicas| == 0 {
        return Primary(primary);
      }
      DistanceIff(replicas, healthy, current);
      var attempts := 0;
      while attempts < |replicas|
        invariant 0 <= attempts <= |replicas| && current == Ahead(|replicas|, old(current), attempts)
        invariant Distance(replicas, healthy, old(current), 0) == Distance(replicas, healthy, old(current), attempts)
      {
        var idx := current;
        var replica := replicas[idx];
        current := Advance(|replicas|, current);
        attempts := attempts + 1;
        if replica in healthy && healthy[replica] {
          return Replica(replica, idx);
        }
      }
      choice := Primary(primary);
    }

    method MarkUnhealthy(addr: Address)
      requires Valid()
      modifies this`healthy
      ensures Valid()
      ensures healthy == if addr in old(healthy) then old(healthy)[addr := false] else old(healthy)
    {
      if addr in healthy {
        healthy := healthy[addr := false];
      }
    }

    method MarkHealthy(addr: Address)
      requires Valid()
      modifies this`healthy
      ensures Valid()
      ensures healthy == if addr in old(healthy) then old(healthy)[addr := true] else old(healthy)
    {
      if addr in healthy {
        healthy := healthy[addr := true];
      }
    }
  }

  // ---------------------------------------------------------------- fairness

  /** The slots that `k` GetReplica calls in a row return, from round-robin index `current`. */
  function Picks(replicas: seq<Address>, healthy: map<Address, bool>, current: nat, k: nat): seq<nat>
    requires current < |replicas|
    decreases k
  {
    if k == 0 || Distance(replicas, healthy, current, 0) == |replicas| then []
    else
      var slot := NextSlot(replicas, healthy, current);
      [slot] + Picks(replicas, healthy, Ahead(|replicas|, slot, 1), k - 1)
  }

  /** The healthy slots among the `m` slots from `current` on, in cyclic order. */
  function Window(replicas: seq<Address>, healthy: map<Address, bool>, current: nat, m: nat): seq<nat>
    requires current < |replicas|
    decreases m
  {
    if m == 0 then []
    else
      (if SlotHealthy(replicas, healthy, current) then [current] else []) +
      Window(replicas, healthy, Ahead(|replicas|, current, 1), m - 1)
  }

  /** An unhealthy slot is passed over. */
  lemma PassOver(replicas: seq<Address>, healthy: map<Address, bool>, current: nat)
    requires current < |replicas| && !SlotHealthy(replicas, healthy, current) && AnyHealthy(replicas, healthy)
    ensures Distance(replicas, healthy, current, 0) < |replicas|
    ensures Distance(replicas, healthy, Ahead(|replicas|, current, 1), 0) < |replicas|
    ensures NextSlot(replicas, healthy, current) == NextSlot(replicas, healthy, Ahead(|replicas|, current, 1))
  {
    var n := |replicas|;
    var next := Ahead(n, current, 1);
    DistanceIff(replicas, healthy, current);
    DistanceIff(replicas, healthy, next);
    var d, d' := Distance(replicas, healthy, current, 0), Distance(replicas, healthy, next, 0);
    WrapShift(current, n, d');
    if d - 1 < d' {
      WrapShift(current, n, d - 1);
    }
  }

  lemma WrapShift(current: nat, n: nat, j: nat)
    requires current < n && j < n
    ensures Ahead(n, Ahead(n, current, 1), j) == Ahead(n, current, j + 1)
  {
  }

  lemma NoPicks(replicas: seq<Address>, healthy: map<Address, bool>, current: nat)
    requires current < |replicas|
    ensures Picks(replicas, healthy, current, 0) == []
  {
  }

  lemma PickHere(replicas: seq<Address>, healthy: map<Address, bool>, current: nat, k: nat)
    requires current < |replicas| && SlotHealthy(replicas, healthy, current) && k > 0
    ensures Picks(replicas, healthy, current, k) == [current] + Picks(replicas, healthy, Ahead(|replicas|, current, 1), k - 1)
  {
    assert Distance(replicas, healthy, current, 0) == 0;
  }

  lemma PickLater(replicas: seq<Address>, healthy: map<Address, bool>, current: nat, k: nat)
    requires current < |replicas| && !SlotHealthy(replicas, healthy, current) && AnyHealthy(replicas, healthy) && k > 0
    ensures Picks(replicas, healthy, current, k) == Picks(replicas, healthy, Ahead(|replicas|, current, 1), k)
  {
    hide Distance, SlotHealthy;
    PassOver(replicas, healthy, current);
  }

  /** Calling GetReplica as often as there are healthy slots in a window walks that window. */
  lemma {:induction false} PicksAreWindow(replicas: seq<Address>, healthy: map<Address, bool>, current: nat, m: nat)
    requires current < |replicas| && m <= |replicas|
    ensures Picks(replicas, healthy, current, |Window(replicas, healthy, current, m)|) == Window(replicas, healthy, current, m)
    decreases m
  {
    if m == 0 {
      NoPicks(replicas, healthy, current);
    } else {
      hide Picks, SlotHealthy;
      var next := Ahead(|replicas|, current, 1);
      var rest := Window(replicas, healthy, next, m - 1);
      PicksAreWindow(replicas, healthy, next, m - 1);
      if SlotHealthy(replicas, healthy, current) {
        PickHere(replicas, healthy, current, 1 + |rest|);
      } else if rest == [] {
        NoPicks(replicas, healthy, current);
      } else {
        WindowMembers(replicas, healthy, next, m - 1, rest[0]);
        PickLater(replicas, healthy, current, |rest|);
      }
    }
  }

  ghost predicate InWindow(n: nat, current: nat, m: nat, slot: nat)
    requires current < n && m <= n
  {
    exists j: nat :: j < m && slot == Ahead(n, current, j)
  }

  lemma {:induction false} WindowMembers(replicas: seq<Address>, healthy: map<Address, bool>, current: nat, m: nat, slot: nat)
    requires current < |replicas| && m <= |replicas|
    ensures slot in Window(replicas, healthy, current, m) <==> SlotHealthy(replicas, healthy, slot) && InWindow(|replicas|, current, m, slot)
    decreases m
  {
    if m > 0 {
      var n := |replicas|;
      var next := Ahead(n, current, 1);
      WindowMembers(replicas, healthy, next, m - 1, slot);
      assert Ahead(n, current, 0) == current;
      if j: nat :| j < m && slot == Ahead(n, current, j) {
        if j > 0 { WrapShift(current, n, j - 1); assert slot == Ahead(n, next, j - 1); }
      }
      if InWindow(n, next, m - 1, slot) {
        var j: nat :| j < m - 1 && slot == Ahead(n, next, j);
        WrapShift(current, n, j);
        assert slot == Ahead(n, current, j + 1);
      }
    }
  }

  ghost predicate NoDuplicates(s: seq<nat>) { forall i, j | 0 <= i < j < |s| :: s[i] != s[j] }

  lemma {:induction false} WindowDistinct(replicas: seq<Address>, healthy: map<Address, bool>, current: nat, m: nat)
    requires current < |replicas| && m <= |replicas|
    ensures NoDuplicates(Window(replicas, healthy, current, m))
    decreases m
  {
    if m > 0 {
      var n := |replicas|;
      var next := Ahead(n, current, 1);
      WindowDistinct(replicas, healthy, next, m - 1);
      WindowMembers(replicas, healthy, next, m - 1, current);
    }
  }

  ghost function HealthySlots(replicas: seq<Address>, healthy: map<Address, bool>): set<nat> {
    set i: nat | i < |replicas| && SlotHealthy(replicas, healthy, i)
  }

  ghost function Elements(s: seq<nat>): set<nat> { set x | x in s }

  lemma {:induction false} DistinctCount(s: seq<nat>)
    requires NoDuplicates(s)
    ensures |Elements(s)| == |s|
  {
    if s != [] {
      DistinctCount(s[1..]);
      assert Elements(s) == {s[0]} + Elements(s[1..]);
    }
  }

  /** A client that calls GetReplica `k` times in a row, with nothing else happening to the pool. */
  method TakeTurns(pool: Pool, k: nat) returns (slots: seq<nat>)
    requires pool.Valid() && AnyHealthy(pool.replicas, pool.healthy)
    modifies pool`current
    ensures pool.Valid() && old(pool.current) < |pool.replicas|
    ensures slots == Picks(pool.replicas, pool.healthy, old(pool.current), k)
  {
    hide Picks, Distance, AnyHealthy;
    slots := [];
    ghost var start := pool.current;
    HasSlots(pool.replicas, pool.healthy);
    assert [] + Picks(pool.replicas, pool.healthy, start, k) == Picks(pool.replicas, pool.healthy, start, k);
    for i := 0 to k
      invariant pool.Valid() && pool.current < |pool.replicas|
      invariant slots + Picks(pool.replicas, pool.healthy, pool.current, k - i) == Picks(pool.replicas, pool.healthy, start, k)
    {
      NextPick(pool.replicas, pool.healthy, pool.current, k - i, slots);
      var choice := pool.GetReplica();
      slots := slots + [choice.slot];
    }
    NoPicks(pool.replicas, pool.healthy, pool.current);
    assert slots + [] == slots;
  }

  lemma HasSlots(replicas: seq<Address>, healthy: map<Address, bool>)
    requires AnyHealthy(replicas, healthy)
    ensures replicas != []
  {
  }

  lemma NextPick(replicas: seq<Address>, healthy: map<Address, bool>, current: nat, k: nat, before: seq<nat>)
    requires current < |replicas| && AnyHealthy(replicas, healthy) && k > 0
    ensures Distance(replicas, healthy, current, 0) < |replicas|
    ensures var slot := NextSlot(replicas, healthy, current);
            before + Picks(replicas, healthy, current, k) == before + [slot] + Picks(replicas, healthy, Ahead(|replicas|, slot, 1), k - 1)
  {
    DistanceIff(replicas, healthy, current);
    var slot := NextSlot(replicas, healthy, current);
    assert before + ([slot] + Picks(replicas, healthy, Ahead(|replicas|, slot, 1), k - 1))
        == before + [slot] + Picks(replicas, healthy, Ahead(|replicas|, slot, 1), k - 1);
  }

  /** Round-robin fairness: with the list and the health unchanged, as many GetReplica calls in
      a row as there are healthy slots return each healthy slot exactly once. */
  lemma EachHealthySlotOnce(replicas: seq<Address>, healthy: map<Address, bool>, current: nat)
    requires current < |replicas|
    ensures var picks := Picks(replicas, healthy, current, |HealthySlots(replicas, healthy)|);
            NoDuplicates(picks) && Elements(picks) == HealthySlots(replicas, healthy)
  {
    var n := |replicas|;
    var w := Window(replicas, healthy, current, n);
    WindowDistinct(replicas, healthy, current, n);
    forall slot: nat ensures slot in Elements(w) <==> slot in HealthySlots(replicas, healthy) {
      WindowMembers(replicas, healthy, current, n, slot);
      if slot < n { var j := SlotInReach(n, current, slot); }
    }
    assert Elements(w) == HealthySlots(replicas, healthy);
    DistinctCount(w);
    PicksAreWindow(replicas, healthy, current, n);
  }
}
