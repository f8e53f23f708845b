/** When a batch runs before its timer: only when it is full. */
module BatchTriggers {
  import opened Options
  import opened Delivery
  import opened BatchProtocol
  import opened BatchSafety
  import opened BatchTheorems

  /** The caller found the group full and has yet to start its executor. */
  predicate OwesFull(pc: Pc) { pc.Unlinking? || pc.Stopping? || pc.Spawning? }

  predicate IsFull(max: nat, group: Group) { group.received >= 2 && group.received >= max }

  /** The count is the length of the live queue, and the timer is set with the first request. */
  predicate CountOk(group: Group) {
    && (group.requests.Some? ==> group.received == |group.requests.value|)
    && (group.received == 0 ==> group.timer.Unset?)
    && (group.timer.Unset? ==> group.received <= 1 && (group.received == 1 ==> group.lock.Some?))
  }

  predicate CallerOk(max: nat, s: State, pc: Pc) {
    && (pc.Arming? && IsGroup(s, pc.g) ==> s.groups[pc.g].timer.Unset?)
    && (OwesFull(pc) && IsGroup(s, pc.g) ==> IsFull(max, s.groups[pc.g]))
  }

  /** An executor runs because the timer fired or because the group is full; a batch is all the group
      received. */
  predicate ExecutorOk(max: nat, s: State, x: Exec) {
    IsGroup(s, x.group) ==>
      && (s.groups[x.group].timer.Fired? || IsFull(max, s.groups[x.group]))
      && (x.batch != [] ==> |x.batch| == s.groups[x.group].received)
      && (!x.stage.Triggered? ==> s.groups[x.group].requests.None?)
  }

  ghost predicate Triggers(max: nat, s: State) {
    && (forall g | 0 <= g < |s.groups| :: CountOk(s.groups[g]))
    && (forall r | 0 <= r < |s.calls| :: CallerOk(max, s, s.calls[r].pc))
    && (forall e | 0 <= e < |s.execs| :: ExecutorOk(max, s, s.execs[e]))
  }

  lemma CountStep(max: nat, s: State, a: Action, g: nat)
    requires WellFormed(s) && Locks(s) && SectionOk(s) && Triggers(max, s) && Enabled(s, a) && IsGroup(Apply(max, s, a), g)
    ensures CountOk(Apply(max, s, a).groups[g])
  {
    if IsGroup(s, g) { assert CountOk(s.groups[g]); }
    if a.Unlink? || a.Arm? || a.StopTimer? { assert CallerOk(max, s, s.calls[a.r].pc); }
  }

  /** Groups only receive more, a set timer stays set, a fired one stays fired, and a drained one stays drained. */
  lemma GroupStep(max: nat, s: State, a: Action, g: nat)
    requires Enabled(s, a) && IsGroup(s, g)
    ensures var t := Apply(max, s, a);
            && IsGroup(t, g) && t.groups[g].received >= s.groups[g].received
            && (s.groups[g].timer.Unset? && !(a.Arm? && a.g == g) ==> t.groups[g].timer.Unset?)
            && (s.groups[g].timer.Fired? && !(a.Arm? && a.g == g) ==> t.groups[g].timer.Fired?)
            && (s.groups[g].requests.None? ==> t.groups[g].requests.None? && t.groups[g].received == s.groups[g].received)
  {
  }

  /** A caller's program point becomes one of those by one of three steps. */
  lemma PointStep(max: nat, s: State, a: Action, r: nat)
    requires Enabled(s, a) && IsCall(Apply(max, s, a), r)
    ensures var pc := Apply(max, s, a).calls[r].pc;
            (pc.Arming? || OwesFull(pc)) && !(IsCall(s, r) && s.calls[r].pc == pc) ==>
              IsCall(s, r) && (a == Append(r, pc.g) || a == Unlink(r, pc.g) || a == StopTimer(r, pc.g))
  {
  }

  lemma CallerMoved(max: nat, s: State, a: Action, r: nat, g: nat)
    requires Triggers(max, s) && Enabled(s, a) && IsCall(s, r)
    requires a == Append(r, g) || a == Unlink(r, g) || a == StopTimer(r, g)
    ensures CallerOk(max, Apply(max, s, a), Apply(max, s, a).calls[r].pc)
  {
    assert CallerOk(max, s, s.calls[r].pc) && CountOk(s.groups[g]);
  }

  lemma CallerStep(max: nat, s: State, a: Action, r: nat)
    requires WellFormed(s) && Locks(s) && Triggers(max, s) && Enabled(s, a) && IsCall(Apply(max, s, a), r)
    ensures CallerOk(max, Apply(max, s, a), Apply(max, s, a).calls[r].pc)
  {
    hide Apply;
    var pc := Apply(max, s, a).calls[r].pc;
    PointStep(max, s, a, r);
    if pc.Arming? || OwesFull(pc) {
      if IsCall(s, r) && s.calls[r].pc == pc {
        assert CallerOk(max, s, pc);
        GroupStep(max, s, a, pc.g);
        if a.Arm? && a.g == pc.g && pc.Arming? {
          assert a.r == r;
          ArmMoves(max, s, r, pc.g);
        }
      } else {
        CallerMoved(max, s, a, r, pc.g);
      }
    }
  }

  lemma ArmMoves(max: nat, s: State, r: nat, g: nat)
    requires Enabled(s, Arm(r, g))
    ensures Apply(max, s, Arm(r, g)).calls[r].pc == Waiting
  {
  }

  /** Executors are started by a timer or by a caller, and get their batch by a drain. */
  lemma ExecStep(max: nat, s: State, a: Action, e: nat)
    requires Enabled(s, a) && IsExec(Apply(max, s, a), e)
    ensures var x := Apply(max, s, a).execs[e];
            && (!IsExec(s, e) ==> (a.Fire? || a.Spawn?) && x == NewExec(a.g))
            && (IsExec(s, e) ==> x.group == s.execs[e].group && (a == Drain(e) || (x.batch == s.execs[e].batch && (x.stage.Triggered? <==> s.execs[e].stage.Triggered?))))
  {
  }

  lemma ExecutorNew(max: nat, s: State, a: Action)
    requires Triggers(max, s) && Enabled(s, a) && (a.Fire? || a.Spawn?)
    ensures ExecutorOk(max, Apply(max, s, a), NewExec(a.g))
  {
    if a.Spawn? { assert CallerOk(max, s, s.calls[a.r].pc); }
  }

  lemma ExecutorDrains(max: nat, s: State, e: nat)
    requires Triggers(max, s) && Enabled(s, Drain(e)) && ExecOk(s.execs[e])
    ensures ExecutorOk(max, Apply(max, s, Drain(e)), Apply(max, s, Drain(e)).execs[e])
  {
    assert ExecutorOk(max, s, s.execs[e]) && CountOk(s.groups[s.execs[e].group]);
  }

  lemma ExecutorStep(max: nat, s: State, a: Action, e: nat)
    requires WellFormed(s) && Results(s) && Triggers(max, s) && Enabled(s, a) && IsExec(Apply(max, s, a), e)
    ensures ExecutorOk(max, Apply(max, s, a), Apply(max, s, a).execs[e])
  {
    hide Apply;
    ExecStep(max, s, a, e);
    if !IsExec(s, e) {
      ExecutorNew(max, s, a);
    } else {
      assert ExecOk(s.execs[e]);
      if a == Drain(e) {
        ExecutorDrains(max, s, e);
      } else {
        var g := s.execs[e].group;
        assert ExecutorOk(max, s, s.execs[e]) && CountOk(s.groups[g]);
        GroupStep(max, s, a, g);
      }
    }
  }

  lemma TriggersStep(max: nat, s: State, a: Action)
    requires Inv(max, s) && Triggers(max, s) && Enabled(s, a)
    ensures Triggers(max, Apply(max, s, a))
  {
    hide Apply, WellFormed, Locks, SectionOk, Places, Results, Mutexes, DrainOrder, Discipline, CountOk, CallerOk, ExecutorOk;
    var t := Apply(max, s, a);
    forall g | 0 <= g < |t.groups| ensures CountOk(t.groups[g]) { CountStep(max, s, a, g); }
    forall r | 0 <= r < |t.calls| ensures CallerOk(max, t, t.calls[r].pc) { CallerStep(max, s, a, r); }
    forall e | 0 <= e < |t.execs| ensures ExecutorOk(max, t, t.execs[e]) { ExecutorStep(max, s, a, e); }
  }

  lemma {:induction false} TriggersRun(max: nat, s: State, run: seq<Action>, t: State)
    requires Inv(max, s) && Triggers(max, s) && Reaches(max, s, run, t)
    ensures Triggers(max, t)
    decreases |run|
  {
    if run != [] {
      InvStep(max, s, run[0]);
      TriggersStep(max, s, run[0]);
      TriggersRun(max, Apply(max, s, run[0]), run[1..], t);
    }
  }

  lemma ReachableTriggers(max: nat, s: State)
    requires Reachable(max, s)
    ensures Triggers(max, s) && Inv(max, s)
  {
    ReachableInv(max, s);
    var run :| Reaches(max, Init(), run, s);
    TriggersRun(max, Init(), run, s);
  }

  // ---------------------------------------------------------------- theorems

  /** A group is unlinked, its timer stopped and an executor started for it by a caller only after it has
      received the maximum; and an executor whose group's timer has not fired was started so. */
  lemma OnlyFullGroupsTriggered(max: nat, s: State, g: nat)
    requires Reachable(max, s) && IsGroup(s, g)
    ensures forall r | 0 <= r < |s.calls| :: OwesFull(s.calls[r].pc) && s.calls[r].pc.g == g ==> s.groups[g].received >= max
    ensures forall e | 0 <= e < |s.execs| :: s.execs[e].group == g ==> s.groups[g].timer.Fired? || s.groups[g].received >= max
    ensures s.groups[g].requests.Some? ==> s.groups[g].received == |s.groups[g].requests.value|
  {
    ReachableTriggers(max, s);
    assert CountOk(s.groups[g]);
    forall r | 0 <= r < |s.calls| && OwesFull(s.calls[r].pc) && s.calls[r].pc.g == g ensures s.groups[g].received >= max {
      assert CallerOk(max, s, s.calls[r].pc);
    }
    forall e | 0 <= e < |s.execs| && s.execs[e].group == g ensures s.groups[g].timer.Fired? || s.groups[g].received >= max {
      assert ExecutorOk(max, s, s.execs[e]);
    }
  }

  /** A batch of fewer than the maximum is executed only because its timer fired. */
  lemma SmallBatchesWaitForTheirTimer(max: nat, s: State, e: nat)
    requires Reachable(max, s) && IsExec(s, e) && 0 < |s.execs[e].batch| < max
    ensures IsGroup(s, s.execs[e].group) && s.groups[s.execs[e].group].timer.Fired?
  {
    ReachableTriggers(max, s);
    assert ExecutorOk(max, s, s.execs[e]);
  }

  /** A group that has not been drained leaves the map only by a caller's `Delete` for its key: an
      executor's compare-and-delete leaves a newer group of the same key mapped. */
  lemma LiveGroupsStayMapped(max: nat, s: State, a: Action, k: Key)
    requires Reachable(max, s) && Enabled(s, a) && k in s.mapped
    requires IsGroup(s, s.mapped[k]) && s.groups[s.mapped[k]].requests.Some?
    ensures (k in Apply(max, s, a).mapped && Apply(max, s, a).mapped[k] == s.mapped[k]) <==> !(a.Unlink? && s.calls[a.r].key == k)
  {
    hide Locks, Places, SectionOk, Traffic, Discipline, Reachable;
    ReachableTriggers(max, s);
    if a.Detach? { assert ExecutorOk(max, s, s.execs[a.e]); }
  }

  // ---------------------------------------------------------------- the bound is tight

  function Numbers(n: nat): (ns: seq<nat>)
    ensures |ns| == n && forall i | 0 <= i < n :: ns[i] == i
  {
    seq(n, i => i)
  }

  function Waiters(n: nat): (calls: seq<Call>)
    ensures |calls| == n && forall i: nat | i < n :: calls[i] == QueuedCall(i, Waiting)
  {
    seq(n, i requires 0 <= i < n => QueuedCall(i, Waiting))
  }

  /** `n` callers wait in one group whose timer is armed. */
  function Filled(n: nat): State {
    State(map["k" := 0], [Group("k", Some(Numbers(n)), None, Armed, n)], Waiters(n), [], map[], 0)
  }

  lemma OneMore(max: nat, run: seq<Action>, n: nat) returns (longer: seq<Action>)
    requires Reaches(max, Init(), run, Filled(n)) && 0 < n && n + 1 < max
    ensures Reaches(max, Init(), longer, Filled(n + 1))
  {
    hide Reaches, Numbers, Waiters;
    var s := Filled(n);
    var looking := Call("k", None, Loading, 0, Unqueued, 0, 0);
    longer, s := Extended(max, run, s, Arrive("k", None));
    assert s.calls == Waiters(n) + [looking];
    longer, s := Extended(max, longer, s, Load(n));
    assert s.calls == Waiters(n) + [LookingCall()];
    longer, s := Extended(max, longer, s, Append(n, 0));
    assert Numbers(n) + [n] == Numbers(n + 1);
    assert s.calls == Waiters(n) + [QueuedCall(n, Waiting)] == Waiters(n + 1);
    assert s.groups == [Group("k", Some(Numbers(n + 1)), None, Armed, n + 1)];
  }

  lemma FilledReached(max: nat, n: nat) returns (run: seq<Action>)
    requires 0 < n < max
    ensures Reaches(max, Init(), run, Filled(n))
    decreases n
  {
    if n == 1 {
      var s;
      run, s := OneQueued(max);
      assert Numbers(1) == [0] && Waiters(1) == [QueuedCall(0, Waiting)];
    } else {
      run := FilledReached(max, n - 1);
      run := OneMore(max, run, n - 1);
    }
  }

  /** For every maximum of at least 2, a mapped group with a free lock does hold one request less. */
  lemma BoundIsTight(max: nat)
    requires max >= 2
    ensures Reachable(max, Filled(max - 1))
    ensures var s := Filled(max - 1);
            && s.mapped == map["k" := 0] && s.groups[0].lock.None? && s.groups[0].timer.Armed?
            && s.groups[0].requests.Some? && |s.groups[0].requests.value| == max - 1
  {
    var run := FilledReached(max, max - 1);
  }
}
