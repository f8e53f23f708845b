/** What holds in every reachable state of the batch protocol, over every interleaving of
    Enqueues, timers, executors and connection handlers (without Close). */
module BatchTheorems {
  import opened Options
  import opened Delivery
  import opened BatchProtocol
  import opened BatchSafety
  import opened BatchProgress
  import opened BatchCompletion

  ghost predicate Reachable(max: nat, s: State) {
    exists run :: Reaches(max, Init(), run, s)
  }

  lemma InvStep(max: nat, s: State, a: Action)
    requires Inv(max, s) && Enabled(s, a)
    ensures Inv(max, Apply(max, s, a))
  {
    StructureStep(max, s, a);
    TrafficStep(max, s, a);
    DisciplineStep(max, s, a);
  }

  lemma DisciplineStep(max: nat, s: State, a: Action)
    requires Inv(max, s) && Enabled(s, a)
    ensures Discipline(max, Apply(max, s, a))
  {
    NoLostRequestStep(max, s, a);
    DeadGroupsDetachStep(max, s, a);
    MappedNotFullStep(max, s, a);
  }

  lemma {:induction false} InvRun(max: nat, s: State, run: seq<Action>, t: State)
    requires Inv(max, s) && Reaches(max, s, run, t)
    ensures Inv(max, t)
    decreases |run|
  {
    if run != [] {
      InvStep(max, s, run[0]);
      InvRun(max, Apply(max, s, run[0]), run[1..], t);
    }
  }

  lemma ReachableInv(max: nat, s: State)
    requires Reachable(max, s)
    ensures Inv(max, s)
  {
    var run :| Reaches(max, Init(), run, s);
    InvRun(max, Init(), run, s);
  }

  // ---------------------------------------------------------------- exactly once

  /** No request is ever in two batches, or twice in one: it is drained by at most one
      executeBatch. */
  lemma DrainedByOneExecutor(max: nat, s: State, e: nat, i: nat, f: nat, j: nat)
    requires Reachable(max, s) && IsExec(s, e) && IsExec(s, f)
    requires i < |s.execs[e].batch| && j < |s.execs[f].batch| && s.execs[e].batch[i] == s.execs[f].batch[j]
    ensures e == f && i == j
  {
    ReachableInv(max, s);
    assert BatchOk(s, e, s.execs[e].batch) && BatchOk(s, f, s.execs[f].batch);
  }

  /** An accepted request is in one live queue or in one batch; in a queue, or in a batch not
      delivered to it yet, it has been sent nothing, and afterwards exactly one result. */
  lemma AcceptedRequestAccounted(max: nat, s: State, r: nat)
    requires Reachable(max, s) && IsCall(s, r) && !BeforeAppend(s.calls[r].pc)
    ensures (exists g: nat, i: nat :: InQueue(s, r, g, i)) != (exists e: nat, i: nat :: InBatch(s, r, e, i))
    ensures forall g: nat, i: nat | InQueue(s, r, g, i) :: s.calls[r].sent == 0
    ensures forall e: nat, i: nat | InBatch(s, r, e, i) :: s.calls[r].sent == (if i < s.execs[e].next then 1 else 0)
  {
    ReachableInv(max, s);
    assert PlaceOk(s, r, s.calls[r].place);
    assert ResultOk(s, s.calls[r]);
    match s.calls[r].place
    case Queued(g, i) => assert InQueue(s, r, g, i);
    case Drained(e, i) => assert InBatch(s, r, e, i);
  }

  predicate InQueue(s: State, r: nat, g: nat, i: nat) {
    IsGroup(s, g) && s.groups[g].requests.Some? && i < |s.groups[g].requests.value| && s.groups[g].requests.value[i] == r
  }

  predicate InBatch(s: State, r: nat, e: nat, i: nat) {
    IsExec(s, e) && i < |s.execs[e].batch| && s.execs[e].batch[i] == r
  }

  /** A send on a ResultChan finds the channel empty, so an executor blocks in no send; and an
      executor that has ended has sent every request of its batch exactly one result. */
  lemma SendsNeverBlock(max: nat, s: State, e: nat)
    requires Reachable(max, s) && IsExec(s, e) && s.execs[e].stage.Delivering?
    ensures s.execs[e].plan != [] ==> NextEvent(s, e) && (s.execs[e].plan[0].Send? ==> CanDeliver(s, e))
    ensures s.execs[e].plan == [] ==>
              forall i | 0 <= i < |s.execs[e].batch| :: IsCall(s, s.execs[e].batch[i]) && s.calls[s.execs[e].batch[i]].sent == 1
  {
    ReachableInv(max, s);
    if s.execs[e].plan != [] {
      NextEventOk(max, s, e);
    } else {
      assert ExecOk(s.execs[e]) && BatchOk(s, e, s.execs[e].batch);
      forall i | 0 <= i < |s.execs[e].batch|
        ensures IsCall(s, s.execs[e].batch[i]) && s.calls[s.execs[e].batch[i]].sent == 1
      {
        assert ResultOk(s, s.calls[s.execs[e].batch[i]]);
      }
    }
  }

  // ---------------------------------------------------------------- no lost request

  /** Every group with requests, mapped or unlinked, has an armed timer, a caller that will
      start one or an executor, or an executor about to drain it. */
  lemma NoRequestLost(max: nat, s: State, g: nat)
    requires Reachable(max, s) && IsGroup(s, g) && NonEmpty(s.groups[g])
    ensures HasTrigger(s, g)
  {
    ReachableInv(max, s);
  }

  /** ... also for a group that a late caller's `Delete` unlinked although it was newer than
      the full group that caller meant: this run ends with the non-empty group 1 unlinked. */
  lemma NewerGroupCanBeUnlinked() returns (run: seq<Action>, s: State)
    ensures Reaches(2, Init(), run, s)
    ensures |s.groups| == 2 && NonEmpty(s.groups[1]) && s.mapped == map[] && run[|run| - 1] == Unlink(2, 0)
  {
    run, s := NewerGroupMapped();
    run, s := Extended(2, run, s, Append(2, 0));
    run, s := Extended(2, run, s, Unlink(2, 0));
    assert s.mapped == map[];
  }

  lemma NewerGroupMapped() returns (run: seq<Action>, s: State)
    ensures Reaches(2, Init(), run, s)
    ensures s.mapped == map["k" := 1]
    ensures s.groups == [Group("k", Some([0, 1]), None, Armed, 2), Group("k", Some([3]), Some(3), Unset, 1)]
    ensures |s.calls| == 4 && s.calls[2] == LookingCall()
  {
    run, s := GroupUnlinkedWhileLookedUp();
    run, s := Extended(2, run, s, Arrive("k", None));
    run, s := Extended(2, run, s, Load(3));
    run, s := Extended(2, run, s, Store(3));
    assert s.groups == [Group("k", Some([0, 1]), None, Armed, 2), Group("k", Some([]), None, Unset, 0)];
    run, s := Extended(2, run, s, Append(3, 1));
    assert s.groups[1].requests.value == [3];
  }

  function QueuedCall(i: nat, pc: Pc): Call { Call("k", None, pc, 0, Queued(0, i), 0, 0) }

  lemma OneQueued(max: nat) returns (run: seq<Action>, s: State)
    ensures Reaches(max, Init(), run, s)
    ensures s == State(map["k" := 0], [Group("k", Some([0]), None, Armed, 1)], [QueuedCall(0, Waiting)], [], map[], 0)
  {
    run, s := [], Init();
    run, s := Extended(max, run, s, Arrive("k", None));
    run, s := Extended(max, run, s, Load(0));
    run, s := Extended(max, run, s, Store(0));
    assert s.mapped == map["k" := 0] && s.groups == [Group("k", Some([]), None, Unset, 0)];
    run, s := Extended(max, run, s, Append(0, 0));
    assert s.groups[0].requests.value == [0];
    assert s.calls == [QueuedCall(0, Arming(0))] && s.groups == [Group("k", Some([0]), Some(0), Unset, 1)];
    run, s := Extended(max, run, s, Arm(0, 0));
    assert s.calls == [QueuedCall(0, Waiting)] && s.groups == [Group("k", Some([0]), None, Armed, 1)];
  }

  function LookingCall(): Call { Call("k", None, Found(0), 0, Unqueued, 0, 0) }

  lemma TwoLookedUp() returns (run: seq<Action>, s: State)
    ensures Reaches(2, Init(), run, s)
    ensures s.mapped == map["k" := 0] && s.groups == [Group("k", Some([0]), None, Armed, 1)]
    ensures s.calls == [QueuedCall(0, Waiting), LookingCall(), LookingCall()]
  {
    run, s := OneQueued(2);
    run, s := Extended(2, run, s, Arrive("k", None));
    run, s := Extended(2, run, s, Arrive("k", None));
    run, s := Extended(2, run, s, Load(1));
    run, s := Extended(2, run, s, Load(2));
  }

  lemma GroupUnlinkedWhileLookedUp() returns (run: seq<Action>, s: State)
    ensures Reaches(2, Init(), run, s)
    ensures s.mapped == map[] && s.groups == [Group("k", Some([0, 1]), None, Armed, 2)]
    ensures |s.calls| == 3 && s.calls[2] == LookingCall()
  {
    run, s := TwoLookedUp();
    run, s := Extended(2, run, s, Append(1, 0));
    assert s.groups[0].requests.value == [0, 1];
    assert s.groups == [Group("k", Some([0, 1]), Some(1), Armed, 2)];
    run, s := Extended(2, run, s, Unlink(1, 0));
    assert s.mapped == map[];
  }

  lemma Extended(max: nat, run: seq<Action>, s: State, a: Action) returns (longer: seq<Action>, t: State)
    requires Reaches(max, Init(), run, s) && Enabled(s, a)
    ensures longer == run + [a] && t == Apply(max, s, a) && Reaches(max, Init(), longer, t)
  {
    longer, t := run + [a], Apply(max, s, a);
    ReachesOneMore(max, Init(), run, s, a);
  }

  lemma {:induction false} ReachesOneMore(max: nat, s: State, run: seq<Action>, t: State, a: Action)
    requires Reaches(max, s, run, t) && Enabled(t, a)
    ensures Reaches(max, s, run + [a], Apply(max, t, a))
    decreases |run|
  {
    if run == [] {
      assert Reaches(max, Apply(max, s, a), [], Apply(max, t, a));
      assert [a][1..] == [];
    } else {
      assert (run + [a])[1..] == run[1..] + [a];
      ReachesOneMore(max, Apply(max, s, run[0]), run[1..], t, a);
    }
  }

  // ---------------------------------------------------------------- group-map discipline

  /** A drained group still in the map is between its drain and its compare-and-delete, so a
      caller's retry ends. */
  lemma RetryNotPermanent(max: nat, s: State, k: Key)
    requires Reachable(max, s) && k in s.mapped && IsGroup(s, s.mapped[k]) && s.groups[s.mapped[k]].requests.None?
    ensures exists e :: CanDetach(s, e) && k !in DoDetach(s, e).mapped
  {
    ReachableInv(max, s);
    var e :| 0 <= e < |s.execs| && IsDetaching(s.execs[e], s.mapped[k]);
    assert CanDetach(s, e) && k !in DoDetach(s, e).mapped;
  }

  /** In every reachable state a mapped group with a free lock holds fewer than `max` requests. */
  ghost predicate FreeGroupsNotFull(max: nat) {
    forall s, k | Reachable(max, s) && k in s.mapped && IsGroup(s, s.mapped[k]) && FreeAndLive(s.groups[s.mapped[k]]) ::
      |s.groups[s.mapped[k]].requests.value| < max
  }

  predicate FreeAndLive(group: Group) { group.lock.None? && group.requests.Some? }

  /** The bound holds exactly for a maximum of at least 2: with 0 or 1 the first request takes
      the timer branch and leaves a full group in the map. */
  lemma FreeGroupsNotFullIff(max: nat)
    ensures FreeGroupsNotFull(max) <==> max >= 2
  {
    if max >= 2 {
      forall s, k | Reachable(max, s) && k in s.mapped && IsGroup(s, s.mapped[k]) && FreeAndLive(s.groups[s.mapped[k]])
        ensures |s.groups[s.mapped[k]].requests.value| < max
      {
        ReachableInv(max, s);
        assert NotFull(max, s.groups[s.mapped[k]]);
      }
    } else {
      var run, s := OneQueued(max);
      assert Reachable(max, s) && FreeAndLive(s.groups[s.mapped["k"]]);
    }
  }

  /** The caller has looked group `g` up, or its request is or was in that group. */
  predicate Joined(s: State, r: nat, g: nat) {
    && IsCall(s, r)
    && match s.calls[r].place
       case Unqueued => s.calls[r].pc == Found(g)
       case Queued(h, _) => h == g
       case Drained(e, _) => IsExec(s, e) && s.execs[e].group == g
  }

  predicate Unlinked(s: State, g: nat) {
    IsGroup(s, g) && (s.groups[g].key in s.mapped ==> s.mapped[s.groups[g].key] != g)
  }

  lemma NoLateJoinerStep(max: nat, s: State, a: Action, g: nat)
    requires Inv(max, s) && Unlinked(s, g) && Enabled(s, a)
    ensures Unlinked(Apply(max, s, a), g)
    ensures forall r | Joined(Apply(max, s, a), r, g) :: Joined(s, r, g)
  {
    hide Traffic, Discipline, Locks, SectionOk, Places, Joined;
    var t := Apply(max, s, a);
    assert t.groups[g].key == s.groups[g].key;
    forall r | Joined(t, r, g) ensures Joined(s, r, g) {
      JoinedBefore(max, s, a, g, r);
    }
  }

  lemma JoinedBeforeDrain(s: State, e: nat, g: nat, r: nat)
    requires Places(s) && CanDrain(s, e) && Joined(DoDrain(s, e), r, g)
    ensures Joined(s, r, g)
  {
    assert PlaceOk(s, r, s.calls[r].place);
  }

  /** Lookups find mapped groups only, and appends go where the caller has looked. */
  lemma JoinedBeforeEnqueue(max: nat, s: State, a: Action, g: nat, r: nat)
    requires Unlinked(s, g) && Enabled(s, a) && (a.Load? || a.Store? || a.Append?) && WellFormed(s) && Places(s)
    requires Joined(Apply(max, s, a), r, g)
    ensures Joined(s, r, g)
  {
    assert PlaceOk(s, r, s.calls[r].place);
  }

  /** Other steps move no request, turn no caller to a group, and keep what an executor drained. */
  lemma PlaceKept(max: nat, s: State, a: Action, r: nat)
    requires Enabled(s, a) && !a.Load? && !a.Store? && !a.Append? && !a.Drain? && IsCall(s, r)
    ensures var t := Apply(max, s, a);
            && IsCall(t, r) && t.calls[r].place == s.calls[r].place
            && (t.calls[r].pc.Found? ==> t.calls[r].pc == s.calls[r].pc)
            && |s.execs| <= |t.execs| && forall e | 0 <= e < |s.execs| :: t.execs[e].group == s.execs[e].group
  {
  }

  lemma JoinedBeforeRest(max: nat, s: State, a: Action, g: nat, r: nat)
    requires Places(s) && Enabled(s, a) && !a.Load? && !a.Store? && !a.Append? && !a.Drain?
    requires Joined(Apply(max, s, a), r, g)
    ensures Joined(s, r, g)
  {
    if r < |s.calls| {
      assert PlaceOk(s, r, s.calls[r].place);
      PlaceKept(max, s, a, r);
    }
  }

  lemma JoinedBefore(max: nat, s: State, a: Action, g: nat, r: nat)
    requires Inv(max, s) && Unlinked(s, g) && Enabled(s, a) && Joined(Apply(max, s, a), r, g)
    ensures Joined(s, r, g)
  {
    hide Traffic, Discipline, Locks, SectionOk;
    if a.Drain? {
      JoinedBeforeDrain(s, a.e, g, r);
    } else if a.Load? || a.Store? || a.Append? {
      JoinedBeforeEnqueue(max, s, a, g, r);
    } else {
      JoinedBeforeRest(max, s, a, g, r);
    }
  }

  /** Once a group is unlinked it stays unlinked, and whoever is in it, or will ever be in it or
      in its batch, had looked it up before: a batch's excess over the maximum comes only
      from such callers. */
  lemma {:induction false} OnlyStaleCallersJoin(max: nat, s: State, run: seq<Action>, t: State, g: nat)
    requires Inv(max, s) && Unlinked(s, g) && Reaches(max, s, run, t)
    ensures Unlinked(t, g)
    ensures forall r | Joined(t, r, g) :: Joined(s, r, g)
    decreases |run|
  {
    if run != [] {
      NoLateJoinerStep(max, s, run[0], g);
      InvStep(max, s, run[0]);
      OnlyStaleCallersJoin(max, Apply(max, s, run[0]), run[1..], t, g);
    }
  }

  // ---------------------------------------------------------------- no circular wait

  /** No reachable state is stuck: unless everything is settled, a step other than a new arrival,
      a cancellation or a fruitless lookup is enabled. */
  lemma NoDeadlock(max: nat, s: State)
    requires Reachable(max, s) && !Settled(s)
    ensures exists a :: Moves(s, a)
  {
    ReachableInv(max, s);
    var a := SomeStepEnabled(max, s);
  }

  /** All steps of the run are productive. */
  ghost predicate AllMove(max: nat, s: State, run: seq<Action>)
    decreases |run|
  {
    run != [] ==> Moves(s, run[0]) && AllMove(max, Apply(max, s, run[0]), run[1..])
  }

  /** However the productive steps are scheduled, they run out: the measure of the state they
      start from bounds their number. */
  lemma {:induction false} ProductiveRunsAreBounded(max: nat, s: State, run: seq<Action>, t: State)
    requires Inv(max, s) && AllMove(max, s, run) && Reaches(max, s, run, t)
    ensures |run| + Measure(t) <= Measure(s)
    decreases |run|
  {
    if run != [] {
      MeasureDown(max, s, run[0]);
      InvStep(max, s, run[0]);
      ProductiveRunsAreBounded(max, Apply(max, s, run[0]), run[1..], t);
    }
  }

  /** From every reachable state the calls in progress can all be brought to an end, and
      then each of them has been sent exactly one result. */
  lemma EveryReachableStateSettles(max: nat, s: State)
    requires Reachable(max, s)
    ensures exists run, t ::
              && AllMove(max, s, run) && Reaches(max, s, run, t) && Settled(t) && |t.calls| == |s.calls|
              && forall r | 0 <= r < |t.calls| :: t.calls[r].sent == 1
  {
    ReachableInv(max, s);
    var run, t := EveryCallCanBeAnswered(max, s);
  }

  lemma EveryCallCanBeAnswered(max: nat, s: State) returns (run: seq<Action>, t: State)
    requires Inv(max, s)
    ensures AllMove(max, s, run) && Reaches(max, s, run, t) && Settled(t) && |t.calls| == |s.calls|
    ensures forall r | 0 <= r < |t.calls| :: t.calls[r].sent == 1
    decreases Measure(s)
  {
    if Settled(s) {
      run, t := [], s;
      SettledIsAnswered(max, s);
    } else {
      var a := SomeStepEnabled(max, s);
      MeasureDown(max, s, a);
      InvStep(max, s, a);
      var rest;
      rest, t := EveryCallCanBeAnswered(max, Apply(max, s, a));
      run := [a] + rest;
      assert run[1..] == rest;
    }
  }

  lemma SettledIsAnswered(max: nat, s: State)
    requires Inv(max, s) && Settled(s)
    ensures forall r | 0 <= r < |s.calls| :: s.calls[r].sent == 1
  {
    forall r | 0 <= r < |s.calls| ensures s.calls[r].sent == 1 {
      assert CallFinished(s.calls[r]) && PlaceOk(s, r, s.calls[r].place) && ResultOk(s, s.calls[r]);
      match s.calls[r].place
      case Queued(g, i) =>
        assert false;  // the group would still have a trigger
      case Drained(e, i) =>
        assert ExecFinished(s.execs[e]) && ExecOk(s.execs[e]);
    }
  }
}
