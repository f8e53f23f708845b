/** A measure that every productive step of the batch protocol decreases. Together with
    BatchProgress it shows that every reachable state can be run to a settled one. */
module BatchCompletion {
  import opened Delivery
  import opened BatchProtocol
  import opened BatchProgress

  function Sum(ws: seq<nat>): nat {
    if ws == [] then 0 else ws[0] + Sum(ws[1..])
  }

  lemma {:induction false} SumAppend(ws: seq<nat>, w: nat)
    ensures Sum(ws + [w]) == Sum(ws) + w
  {
    if ws == [] {
      assert ws + [w] == [w];
    } else {
      assert (ws + [w])[1..] == ws[1..] + [w];
      SumAppend(ws[1..], w);
    }
  }

  lemma {:induction false} SumBump(ws: seq<nat>, us: seq<nat>)
    requires |ws| == |us| && forall i | 0 <= i < |ws| :: us[i] <= ws[i] + 10
    ensures Sum(us) <= Sum(ws) + 10 * |ws|
  {
    if ws != [] { SumBump(ws[1..], us[1..]); }
  }

  lemma {:induction false} SumDown(ws: seq<nat>, us: seq<nat>, r: nat, k: nat)
    requires |ws| == |us| && (forall i | 0 <= i < |ws| :: us[i] <= ws[i])
    requires r < |ws| ==> us[r] + k <= ws[r]
    ensures Sum(us) + (if r < |ws| then k else 0) <= Sum(ws)
  {
    if ws != [] { SumDown(ws[1..], us[1..], if r == 0 then |ws| else r - 1, k); }
  }

  /** What one drain can cost: it wakes stale callers, and its batch may be owed callbacks. */
  function Bump(s: State): nat { 11 * |s.calls| }

  function CallWeight(s: State, r: nat): nat
    requires IsCall(s, r)
  {
    var pc := s.calls[r].pc;
    (if s.calls[r].sent == 0 then 1 else 0) +
    match pc
    case Start => Bump(s) + 30
    case Loading => Bump(s) + 29
    case Storing => Bump(s) + 28
    case Found(g) => Bump(s) + (if IsGroup(s, g) && s.groups[g].requests.Some? then 20 else 30)
    case Arming(_) => Bump(s) + 11
    case Unlinking(_) => Bump(s) + 11
    case Stopping(_) => Bump(s) + 10
    case Spawning(_) => Bump(s) + 9
    case Waiting => 3
    case Answered => 2
    case Returned => 0
    case Cancelled => 0
  }

  function ExecWeight(s: State, x: Exec): nat {
    match x.stage
    case Triggered => Bump(s) + 4
    case Detaching => 3 + |x.batch|
    case Running => 2 + |x.batch|
    case Delivering => CallbacksIn(x.plan)
  }

  function GroupWeight(s: State, group: Group): nat { if group.timer.Armed? then Bump(s) + 6 else 0 }

  function CallWeights(s: State): seq<nat> { seq(|s.calls|, r requires 0 <= r < |s.calls| => CallWeight(s, r)) }
  function ExecWeights(s: State): seq<nat> { seq(|s.execs|, e requires 0 <= e < |s.execs| => ExecWeight(s, s.execs[e])) }
  function GroupWeights(s: State): seq<nat> { seq(|s.groups|, g requires 0 <= g < |s.groups| => GroupWeight(s, s.groups[g])) }

  function Others(s: State): set<Conn> { set c <- s.mutex | s.mutex[c].ByOther? }

  function Measure(s: State): nat {
    Sum(CallWeights(s)) + Sum(ExecWeights(s)) + Sum(GroupWeights(s)) + |Others(s)|
  }

  /** One caller gets lighter by at least `k`, the others no heavier. */
  lemma CallDown(s: State, t: State, r: nat, k: nat)
    requires |t.calls| == |s.calls| && IsCall(s, r) && CallWeight(t, r) + k <= CallWeight(s, r)
    requires forall q | 0 <= q < |s.calls| :: q != r ==> CallWeight(t, q) <= CallWeight(s, q)
    ensures Sum(CallWeights(t)) + k <= Sum(CallWeights(s))
  {
    SumDown(CallWeights(s), CallWeights(t), r, k);
  }

  lemma CallsSame(s: State, t: State)
    requires |t.calls| == |s.calls| && forall q | 0 <= q < |s.calls| :: CallWeight(t, q) == CallWeight(s, q)
    ensures Sum(CallWeights(t)) == Sum(CallWeights(s))
  {
    assert CallWeights(t) == CallWeights(s);
  }

  lemma ExecsSame(s: State, t: State)
    requires |t.calls| == |s.calls| && |t.execs| == |s.execs|
    requires forall e | 0 <= e < |s.execs| :: ExecWeight(t, t.execs[e]) == ExecWeight(s, s.execs[e])
    ensures Sum(ExecWeights(t)) == Sum(ExecWeights(s))
  {
    assert ExecWeights(t) == ExecWeights(s);
  }

  lemma ExecAdded(s: State, t: State, g: nat)
    requires |t.calls| == |s.calls| && t.execs == s.execs + [NewExec(g)]
    ensures Sum(ExecWeights(t)) == Sum(ExecWeights(s)) + Bump(s) + 4
  {
    assert ExecWeights(t) == ExecWeights(s) + [Bump(s) + 4];
    SumAppend(ExecWeights(s), Bump(s) + 4);
  }

  lemma ExecDown(s: State, t: State, e: nat, k: nat)
    requires |t.calls| == |s.calls| && IsExec(s, e) && IsExec(t, e) && t.execs == s.execs[e := t.execs[e]]
    requires ExecWeight(t, t.execs[e]) + k <= ExecWeight(s, s.execs[e])
    ensures Sum(ExecWeights(t)) + k <= Sum(ExecWeights(s))
  {
    SumDown(ExecWeights(s), ExecWeights(t), e, k);
  }

  lemma GroupsSame(s: State, t: State)
    requires |t.calls| == |s.calls| && |t.groups| == |s.groups|
    requires forall g | 0 <= g < |s.groups| :: t.groups[g].timer == s.groups[g].timer
    ensures Sum(GroupWeights(t)) == Sum(GroupWeights(s))
  {
    assert GroupWeights(t) == GroupWeights(s);
  }

  // ---------------------------------------------------------------- one action at a time

  lemma MoveDown(s: State, t: State, r: nat)
    requires |t.calls| == |s.calls| && IsCall(s, r) && t.execs == s.execs && Others(t) == Others(s)
    requires |t.groups| == |s.groups| && forall g | 0 <= g < |s.groups| :: t.groups[g].timer == s.groups[g].timer
    requires CallWeight(t, r) < CallWeight(s, r)
    requires forall q | 0 <= q < |s.calls| :: q != r ==> CallWeight(t, q) == CallWeight(s, q)
    ensures Measure(t) < Measure(s)
  {
    CallDown(s, t, r, 1);
    ExecsSame(s, t);
    GroupsSame(s, t);
  }

  lemma LockConnDown(s: State, r: nat)
    requires Structure(s) && CanLockConn(s, r)
    ensures Measure(DoLockConn(s, r)) < Measure(s)
  {
    MoveDown(s, DoLockConn(s, r), r);
  }

  lemma LoadDown(s: State, r: nat)
    requires Structure(s) && CanLoad(s, r) && FindsLive(s, s.calls[r].key)
    ensures Measure(DoLoad(s, r)) < Measure(s)
  {
    MoveDown(s, DoLoad(s, r), r);
  }

  lemma RetryDown(s: State, r: nat, g: nat)
    requires Structure(s) && CanRetry(s, r, g)
    ensures Measure(SetPc(s, r, Loading)) < Measure(s)
  {
    MoveDown(s, SetPc(s, r, Loading), r);
  }

  lemma ReceiveDown(s: State, r: nat)
    requires Structure(s) && CanReceive(s, r)
    ensures Measure(DoReceive(s, r)) < Measure(s)
  {
    MoveDown(s, DoReceive(s, r), r);
  }

  lemma UnlinkDown(s: State, r: nat, g: nat)
    requires Structure(s) && AtPc(s, r, g, Unlinking(g))
    ensures Measure(DoUnlink(s, r, g)) < Measure(s)
  {
    MoveDown(s, DoUnlink(s, r, g), r);
  }

  lemma AppendDown(max: nat, s: State, r: nat, g: nat)
    requires Structure(s) && CanAppend(s, r, g)
    ensures Measure(DoAppend(max, s, r, g)) < Measure(s)
  {
    MoveDown(s, DoAppend(max, s, r, g), r);
  }

  lemma ReturnDown(s: State, r: nat)
    requires Traffic(s) && CanReturn(s, r)
    ensures Measure(DoReturn(s, r)) < Measure(s)
  {
    assert MutexOk(s, r, s.calls[r]);
    assert Others(DoReturn(s, r)) == Others(s);
    MoveDown(s, DoReturn(s, r), r);
  }

  lemma StoreDown(s: State, r: nat)
    requires Structure(s) && CanStore(s, r) && FindsLive(s, s.calls[r].key)
    ensures Measure(DoStore(s, r)) < Measure(s)
  {
    if s.calls[r].key in s.mapped {
      MoveDown(s, DoStore(s, r), r);
    } else {
      CreateDown(s, r);
    }
  }

  lemma CreateDown(s: State, r: nat)
    requires Structure(s) && CanStore(s, r) && s.calls[r].key !in s.mapped
    ensures Measure(DoStore(s, r)) < Measure(s)
  {
    var t := DoStore(s, r);
    CallDown(s, t, r, 1);
    ExecsSame(s, t);
    assert GroupWeights(t) == GroupWeights(s) + [0];
    SumAppend(GroupWeights(s), 0);
  }

  lemma TimerDown(s: State, t: State, g: nat)
    requires |t.calls| == |s.calls| && IsGroup(s, g) && IsGroup(t, g) && t.groups == s.groups[g := t.groups[g]]
    ensures Sum(GroupWeights(t)) <= Sum(GroupWeights(s)) + Bump(s) + 6
    ensures !t.groups[g].timer.Armed? ==> Sum(GroupWeights(t)) <= Sum(GroupWeights(s))
    ensures !t.groups[g].timer.Armed? && s.groups[g].timer.Armed? ==> Sum(GroupWeights(t)) + Bump(s) + 6 <= Sum(GroupWeights(s))
  {
    var ws, us := GroupWeights(s), GroupWeights(t);
    if us[g] <= ws[g] {
      SumDown(ws, us, g, ws[g] - us[g]);
    } else {
      SumDown(us, ws, g, us[g] - ws[g]);
      SumUp(ws, us, g);
    }
  }

  lemma {:induction false} SumUp(ws: seq<nat>, us: seq<nat>, g: nat)
    requires |ws| == |us| && g < |ws| && us == ws[g := us[g]]
    ensures Sum(us) == Sum(ws) + us[g] - ws[g]
  {
    if g == 0 {
      assert us[1..] == ws[1..];
    } else {
      SumUp(ws[1..], us[1..], g - 1);
    }
  }

  lemma ArmDown(s: State, r: nat, g: nat)
    requires Structure(s) && AtPc(s, r, g, Arming(g))
    ensures Measure(DoArm(s, r, g)) < Measure(s)
  {
    var t := DoArm(s, r, g);
    CallDown(s, t, r, Bump(s) + 8);
    ExecsSame(s, t);
    TimerDown(s, t, g);
  }

  lemma StopTimerDown(s: State, r: nat, g: nat)
    requires Structure(s) && AtPc(s, r, g, Stopping(g))
    ensures Measure(DoStopTimer(s, r, g)) < Measure(s)
  {
    var t := DoStopTimer(s, r, g);
    CallDown(s, t, r, 1);
    ExecsSame(s, t);
    TimerDown(s, t, g);
  }

  lemma SpawnDown(s: State, r: nat, g: nat)
    requires Structure(s) && AtPc(s, r, g, Spawning(g))
    ensures Measure(DoSpawn(s, r, g)) < Measure(s)
  {
    var t := DoSpawn(s, r, g);
    CallDown(s, t, r, Bump(s) + 6);
    ExecAdded(s, t, g);
    GroupsSame(s, t);
  }

  lemma FireDown(s: State, g: nat)
    requires Structure(s) && CanFire(s, g)
    ensures Measure(DoFire(s, g)) < Measure(s)
  {
    var t := DoFire(s, g);
    CallsSame(s, t);
    ExecAdded(s, t, g);
    TimerDown(s, t, g);
  }

  /** Distinct numbers below `n` are at most `n` many. */
  lemma {:induction false} DistinctBound(q: seq<nat>, n: nat)
    requires forall i | 0 <= i < |q| :: q[i] < n
    requires forall i, j | 0 <= i < j < |q| :: q[i] != q[j]
    ensures |q| <= n
    decreases n
  {
    if q != [] {
      assert q[0] < n;
      if i :| 0 <= i < |q| && q[i] == n - 1 {
        DistinctBound(q[..i] + q[i + 1..], n - 1);
      } else {
        DistinctBound(q, n - 1);
      }
    }
  }

  lemma BatchFits(s: State, g: nat)
    requires Structure(s) && IsGroup(s, g)
    ensures s.groups[g].requests.Some? ==> |s.groups[g].requests.value| <= |s.calls|
  {
    if s.groups[g].requests.Some? {
      var q := s.groups[g].requests.value;
      assert QueueOk(s, g, q);
      forall i, j | 0 <= i < j < |q| ensures q[i] != q[j] {
        assert s.calls[q[i]].place == Queued(g, i) && s.calls[q[j]].place == Queued(g, j);
      }
      DistinctBound(q, |s.calls|);
    }
  }

  lemma DrainDown(s: State, e: nat)
    requires Structure(s) && CanDrain(s, e)
    ensures Measure(DoDrain(s, e)) < Measure(s)
  {
    var t := DoDrain(s, e);
    forall r | 0 <= r < |s.calls| ensures CallWeight(t, r) <= CallWeight(s, r) + 10 {
      assert t.calls[r].pc == s.calls[r].pc && t.calls[r].sent == s.calls[r].sent;
    }
    SumBump(CallWeights(s), CallWeights(t));
    BatchFits(s, s.execs[e].group);
    ExecDown(s, t, e, 10 * |s.calls| + 1);
    GroupsSame(s, t);
  }

  lemma DetachDown(s: State, e: nat)
    requires Structure(s) && CanDetach(s, e) && Traffic(s)
    ensures Measure(DoDetach(s, e)) < Measure(s)
  {
    var t := DoDetach(s, e);
    CallsSame(s, t);
    ExecDown(s, t, e, 1);
    GroupsSame(s, t);
  }

  lemma ExecuteDown(s: State, e: nat, plan: seq<Event>)
    requires Structure(s) && CanExecute(s, e, plan)
    ensures Measure(DoExecute(s, e, plan)) < Measure(s)
  {
    var t := DoExecute(s, e, plan);
    CallbacksBounded(plan, 0, |s.execs[e].batch|, false);
    CallsSame(s, t);
    ExecDown(s, t, e, 1);
    GroupsSame(s, t);
  }

  lemma CallbackDown(s: State, e: nat)
    requires Structure(s) && CanCallback(s, e)
    ensures Measure(DoCallback(s, e)) < Measure(s)
  {
    var t := DoCallback(s, e);
    CallsSame(s, t);
    ExecDown(s, t, e, 1);
    GroupsSame(s, t);
  }

  lemma DeliverDown(max: nat, s: State, e: nat)
    requires Inv(max, s) && CanDeliver(s, e)
    ensures Measure(DoDeliver(s, e)) < Measure(s)
  {
    var t := DoDeliver(s, e);
    var r := Target(s, e);
    assert ResultOk(s, s.calls[r]);
    assert ExecOk(s.execs[e]) && BatchOk(s, e, s.execs[e].batch);
    assert s.calls[r].sent == 0;
    CallDown(s, t, r, 1);
    ExecDown(s, t, e, 0);
    GroupsSame(s, t);
  }

  lemma OtherUnlockDown(s: State, c: Conn)
    requires c in s.mutex && s.mutex[c].ByOther?
    ensures Measure(s.(mutex := s.mutex - {c})) < Measure(s)
  {
    var t := s.(mutex := s.mutex - {c});
    CallsSame(s, t);
    ExecsSame(s, t);
    GroupsSame(s, t);
    assert Others(t) == Others(s) - {c};
  }

  lemma MeasureDown(max: nat, s: State, a: Action)
    requires Inv(max, s) && Moves(s, a)
    ensures Measure(Apply(max, s, a)) < Measure(s) && |Apply(max, s, a).calls| == |s.calls|
  {
    hide Measure, CallWeight, Structure, Traffic, Discipline;
    match a
    case LockConn(r) => LockConnDown(s, r);
    case Load(r) => LoadDown(s, r);
    case Store(r) => StoreDown(s, r);
    case Retry(r, g) => RetryDown(s, r, g);
    case Append(r, g) => AppendDown(max, s, r, g);
    case Arm(r, g) => ArmDown(s, r, g);
    case Unlink(r, g) => UnlinkDown(s, r, g);
    case StopTimer(r, g) => StopTimerDown(s, r, g);
    case Spawn(r, g) => SpawnDown(s, r, g);
    case Fire(g) => FireDown(s, g);
    case Drain(e) => DrainDown(s, e);
    case Detach(e) => DetachDown(s, e);
    case Execute(e, plan) => ExecuteDown(s, e, plan);
    case Deliver(e) => DeliverDown(max, s, e);
    case Callback(e) => CallbackDown(s, e);
    case Receive(r) => ReceiveDown(s, r);
    case Return(r) => ReturnDown(s, r);
    case OtherUnlock(c) => OtherUnlockDown(s, c);
  }
}
