/** Every action of the batch protocol keeps the invariants of BatchProtocol. */
module BatchSafety {
  import opened Options
  import opened Delivery
  import opened BatchProtocol

  // ---------------------------------------------------------------- structure: maps, locks, places

  /** Program points that no group invariant mentions. */
  predicate OffGroups(pc: Pc) { !pc.Found? && !HoldsOrFires(pc) }

  /** Actions outside the group map change only such program points. */
  lemma StructureFrame(s: State, t: State)
    requires Structure(s) && t.mapped == s.mapped && t.groups == s.groups
    requires |t.calls| == |s.calls| && |t.execs| == |s.execs|
    requires forall r | 0 <= r < |s.calls| ::
               && t.calls[r].key == s.calls[r].key && t.calls[r].place == s.calls[r].place
               && (t.calls[r].pc == s.calls[r].pc ||
                   (OffGroups(s.calls[r].pc) && OffGroups(t.calls[r].pc) && BeforeAppend(s.calls[r].pc) == BeforeAppend(t.calls[r].pc)))
    requires forall e | 0 <= e < |s.execs| :: t.execs[e].group == s.execs[e].group && t.execs[e].batch == s.execs[e].batch
    ensures Structure(t)
  {
  }

  lemma PlacesFrame(s: State, t: State)
    requires Places(s) && t.execs == s.execs && |t.groups| == |s.groups| && |t.calls| == |s.calls|
    requires forall g | 0 <= g < |s.groups| :: t.groups[g].requests == s.groups[g].requests
    requires forall r | 0 <= r < |s.calls| ::
               t.calls[r].place == s.calls[r].place && BeforeAppend(t.calls[r].pc) == BeforeAppend(s.calls[r].pc)
    ensures Places(t)
  {
  }

  /** A caller leaves its critical section and its lock is released. */
  lemma SectionFrame(s: State, t: State, r: nat, g: nat)
    requires WellFormed(s) && Locks(s) && SectionOk(s) && IsCall(s, r) && InSection(s.calls[r].pc, g)
    requires IsGroup(s, g) && IsGroup(t, g)
    requires t.groups == s.groups[g := s.groups[g].(timer := t.groups[g].timer, lock := None)]
    requires |t.calls| == |s.calls| && t.calls == s.calls[r := s.calls[r].(pc := t.calls[r].pc)]
    requires !t.calls[r].pc.Arming? && !t.calls[r].pc.Unlinking?
    ensures Locks(t) && SectionOk(t)
  {
  }

  lemma ArriveStructure(s: State, key: Key, conn: Option<Conn>)
    requires Structure(s)
    ensures Structure(DoArrive(s, key, conn))
  {
  }

  lemma FoundStructure(s: State, r: nat)
    requires Structure(s) && (CanLoad(s, r) || CanStore(s, r)) && s.calls[r].key in s.mapped
    ensures Structure(SetPc(s, r, Found(s.mapped[s.calls[r].key])))
  {
  }

  lemma LoadStructure(s: State, r: nat)
    requires Structure(s) && CanLoad(s, r)
    ensures Structure(DoLoad(s, r))
  {
    if s.calls[r].key in s.mapped {
      FoundStructure(s, r);
    } else {
      StructureFrame(s, DoLoad(s, r));
    }
  }

  lemma CreateStructure(s: State, r: nat)
    requires Structure(s) && CanStore(s, r) && s.calls[r].key !in s.mapped
    ensures Structure(DoStore(s, r))
  {
  }

  lemma StoreStructure(s: State, r: nat)
    requires Structure(s) && CanStore(s, r)
    ensures Structure(DoStore(s, r))
  {
    if s.calls[r].key in s.mapped {
      FoundStructure(s, r);
    } else {
      CreateStructure(s, r);
    }
  }

  lemma RetryStructure(s: State, r: nat, g: nat)
    requires Structure(s) && CanRetry(s, r, g)
    ensures Structure(SetPc(s, r, Loading))
  {
  }

  lemma AppendStructure(max: nat, s: State, r: nat, g: nat)
    requires Structure(s) && CanAppend(s, r, g)
    ensures Structure(DoAppend(max, s, r, g))
  {
    AppendLocks(max, s, r, g);
    AppendPlaces(max, s, r, g);
  }

  lemma AppendLocks(max: nat, s: State, r: nat, g: nat)
    requires WellFormed(s) && Locks(s) && SectionOk(s) && CanAppend(s, r, g)
    ensures var t := DoAppend(max, s, r, g); WellFormed(t) && Locks(t) && SectionOk(t)
  {
  }

  lemma AppendPlaces(max: nat, s: State, r: nat, g: nat)
    requires Places(s) && CanAppend(s, r, g)
    ensures Places(DoAppend(max, s, r, g))
  {
  }

  lemma ArmStructure(s: State, r: nat, g: nat)
    requires Structure(s) && AtPc(s, r, g, Arming(g))
    ensures Structure(DoArm(s, r, g))
  {
    var t := DoArm(s, r, g);
    PlacesFrame(s, t);
    SectionFrame(s, t, r, g);
  }

  lemma UnlinkStructure(s: State, r: nat, g: nat)
    requires Structure(s) && AtPc(s, r, g, Unlinking(g))
    ensures Structure(DoUnlink(s, r, g))
  {
    var t := DoUnlink(s, r, g);
    PlacesFrame(s, t);
    SectionFrame(s, t, r, g);
  }

  lemma StopTimerStructure(s: State, r: nat, g: nat)
    requires Structure(s) && AtPc(s, r, g, Stopping(g))
    ensures Structure(DoStopTimer(s, r, g))
  {
  }

  lemma SpawnStructure(s: State, r: nat, g: nat)
    requires Structure(s) && AtPc(s, r, g, Spawning(g))
    ensures Structure(DoSpawn(s, r, g))
  {
  }

  lemma FireStructure(s: State, g: nat)
    requires Structure(s) && CanFire(s, g)
    ensures Structure(DoFire(s, g))
  {
  }

  lemma DrainStructure(s: State, e: nat)
    requires Structure(s) && CanDrain(s, e) && ExecOk(s.execs[e])
    ensures Structure(DoDrain(s, e))
  {
    DrainLocks(s, e);
    DrainPlaces(s, e);
  }

  lemma DrainLocks(s: State, e: nat)
    requires WellFormed(s) && Locks(s) && SectionOk(s) && CanDrain(s, e)
    ensures var t := DoDrain(s, e); WellFormed(t) && Locks(t) && SectionOk(t)
  {
  }

  lemma DrainPlaces(s: State, e: nat)
    requires Places(s) && CanDrain(s, e) && ExecOk(s.execs[e])
    ensures Places(DoDrain(s, e))
  {
  }

  lemma DetachStructure(s: State, e: nat)
    requires Structure(s) && CanDetach(s, e)
    ensures Structure(DoDetach(s, e))
  {
  }

  lemma QuietCallerStructure(max: nat, s: State, a: Action)
    requires Structure(s) && Enabled(s, a)
    requires a.LockConn? || a.Receive? || a.Return? || a.Cancel?
    ensures Structure(Apply(max, s, a))
  {
    hide Structure;
    StructureFrame(s, Apply(max, s, a));
  }

  lemma QuietStructure(max: nat, s: State, a: Action)
    requires Structure(s) && Enabled(s, a)
    requires a.Execute? || a.Deliver? || a.Callback? || a.OtherLock? || a.OtherUnlock?
    ensures Structure(Apply(max, s, a))
  {
    hide Structure;
    StructureFrame(s, Apply(max, s, a));
  }

  lemma StructureStep(max: nat, s: State, a: Action)
    requires Structure(s) && Traffic(s) && Enabled(s, a)
    ensures Structure(Apply(max, s, a))
  {
    hide Structure;
    match a
    case Arrive(key, conn) => ArriveStructure(s, key, conn);
    case Load(r) => LoadStructure(s, r);
    case Store(r) => StoreStructure(s, r);
    case Retry(r, g) => RetryStructure(s, r, g);
    case Append(r, g) => AppendStructure(max, s, r, g);
    case Arm(r, g) => ArmStructure(s, r, g);
    case Unlink(r, g) => UnlinkStructure(s, r, g);
    case StopTimer(r, g) => StopTimerStructure(s, r, g);
    case Spawn(r, g) => SpawnStructure(s, r, g);
    case Fire(g) => FireStructure(s, g);
    case Drain(e) => DrainStructure(s, e);
    case Detach(e) => DetachStructure(s, e);
    case LockConn(_) => QuietCallerStructure(max, s, a);
    case Receive(_) => QuietCallerStructure(max, s, a);
    case Return(_) => QuietCallerStructure(max, s, a);
    case Cancel(_) => QuietCallerStructure(max, s, a);
    case _ => QuietStructure(max, s, a);
  }

  // ---------------------------------------------------------------- traffic: results, mutexes, order

  /** Program points strictly inside Enqueue, before a result is received. */
  predicate Inside(pc: Pc) { HoldsMutex(pc) && !pc.Answered? }

  /** Moving one caller inside Enqueue, and starting executors, disturbs no traffic invariant. */
  lemma TrafficFrame(s: State, t: State, r: nat, pc: Pc)
    requires Traffic(s) && t.mutex == s.mutex && t.drains == s.drains
    requires IsCall(s, r) && t.calls == s.calls[r := s.calls[r].(pc := pc)]
    requires Inside(s.calls[r].pc) && Inside(pc)
    requires s.execs <= t.execs && forall e | |s.execs| <= e < |t.execs| :: t.execs[e] == NewExec(t.execs[e].group)
    requires forall q | 0 <= q < |s.calls| :: s.calls[q].place.Drained? ==> IsExec(s, s.calls[q].place.e)
    ensures Traffic(t)
  {
  }

  lemma ArriveTraffic(s: State, key: Key, conn: Option<Conn>)
    requires Places(s) && Traffic(s)
    ensures Traffic(DoArrive(s, key, conn))
  {
  }

  lemma LockConnTraffic(s: State, r: nat)
    requires Places(s) && Traffic(s) && CanLockConn(s, r)
    ensures Traffic(DoLockConn(s, r))
  {
  }

  lemma AppendTraffic(max: nat, s: State, r: nat, g: nat)
    requires Places(s) && Traffic(s) && CanAppend(s, r, g)
    ensures Traffic(DoAppend(max, s, r, g))
  {
  }

  lemma FireTraffic(s: State, g: nat)
    requires Places(s) && Traffic(s) && CanFire(s, g)
    ensures Traffic(DoFire(s, g))
  {
  }

  lemma DrainTraffic(s: State, e: nat)
    requires Places(s) && Traffic(s) && CanDrain(s, e)
    ensures Traffic(DoDrain(s, e))
  {
  }

  lemma DetachTraffic(s: State, e: nat)
    requires Places(s) && Traffic(s) && CanDetach(s, e)
    ensures Traffic(DoDetach(s, e))
  {
  }

  lemma ExecuteTraffic(s: State, e: nat, plan: seq<Event>)
    requires Places(s) && Traffic(s) && CanExecute(s, e, plan)
    ensures Traffic(DoExecute(s, e, plan))
  {
    WeakenNotify(plan, 0, |s.execs[e].batch|);
  }

  lemma DeliverTraffic(s: State, e: nat)
    requires Places(s) && Traffic(s) && CanDeliver(s, e)
    ensures Traffic(DoDeliver(s, e))
  {
  }

  lemma CallbackTraffic(s: State, e: nat)
    requires Places(s) && Traffic(s) && CanCallback(s, e)
    ensures Traffic(DoCallback(s, e))
  {
    WeakenNotify(s.execs[e].plan[1..], s.execs[e].next, |s.execs[e].batch|);
  }

  lemma ReceiveTraffic(s: State, r: nat)
    requires Places(s) && Traffic(s) && CanReceive(s, r)
    ensures Traffic(DoReceive(s, r))
  {
  }

  lemma ReturnTraffic(s: State, r: nat)
    requires Places(s) && Traffic(s) && CanReturn(s, r)
    ensures Traffic(DoReturn(s, r))
  {
  }

  lemma CancelTraffic(s: State, r: nat)
    requires Places(s) && Traffic(s) && CanCancel(s, r)
    ensures Traffic(SetPc(s, r, Cancelled))
  {
  }

  lemma OtherTraffic(s: State, c: Conn)
    requires Places(s) && Traffic(s)
    ensures c !in s.mutex ==> Traffic(s.(mutex := s.mutex[c := ByOther]))
    ensures c in s.mutex && s.mutex[c].ByOther? ==> Traffic(s.(mutex := s.mutex - {c}))
  {
  }

  lemma MoveTraffic(max: nat, s: State, a: Action)
    requires Structure(s) && Traffic(s) && Enabled(s, a)
    requires a.Load? || a.Store? || a.Retry? || a.Arm? || a.Unlink? || a.StopTimer? || a.Spawn?
    ensures Traffic(Apply(max, s, a))
  {
    hide Traffic, Locks, SectionOk;
    var t := Apply(max, s, a);
    TrafficFrame(s, t, a.r, t.calls[a.r].pc);
  }

  lemma TrafficStep(max: nat, s: State, a: Action)
    requires Structure(s) && Traffic(s) && Enabled(s, a)
    ensures Traffic(Apply(max, s, a))
  {
    hide Traffic;
    match a
    case Arrive(key, conn) => ArriveTraffic(s, key, conn);
    case LockConn(r) => LockConnTraffic(s, r);
    case Append(r, g) => AppendTraffic(max, s, r, g);
    case Fire(g) => FireTraffic(s, g);
    case Drain(e) => DrainTraffic(s, e);
    case Detach(e) => DetachTraffic(s, e);
    case Execute(e, plan) => ExecuteTraffic(s, e, plan);
    case Deliver(e) => DeliverTraffic(s, e);
    case Callback(e) => CallbackTraffic(s, e);
    case Receive(r) => ReceiveTraffic(s, r);
    case Return(r) => ReturnTraffic(s, r);
    case Cancel(r) => CancelTraffic(s, r);
    case OtherLock(c) => OtherTraffic(s, c);
    case OtherUnlock(c) => OtherTraffic(s, c);
    case _ => MoveTraffic(max, s, a);
  }

  // ---------------------------------------------------------------- discipline: triggers and the map

  /** A group keeps a trigger until it is drained: Fire and Spawn hand it to an executor,
      StopTimer to the caller that is about to spawn one. */
  lemma TriggerKept(max: nat, s: State, a: Action, g: nat)
    requires Structure(s) && Enabled(s, a) && IsGroup(s, g) && HasTrigger(s, g)
    requires var t := Apply(max, s, a); IsGroup(t, g) && NonEmpty(t.groups[g])
    ensures HasTrigger(Apply(max, s, a), g)
  {
    hide Places, SectionOk;
    var t := Apply(max, s, a);
    if a == Fire(g) {
      assert IsTriggered(t.execs[|s.execs|], g);
    } else if a.StopTimer? && a.g == g {
      assert OwesTrigger(t.calls[a.r].pc, g);
    } else if s.groups[g].timer.Armed? {
      assert t.groups[g].timer.Armed?;
    } else if r :| 0 <= r < |s.calls| && OwesTrigger(s.calls[r].pc, g) {
      CallerTriggerKept(max, s, a, g, r);
    } else {
      var e :| 0 <= e < |s.execs| && IsTriggered(s.execs[e], g);
      assert IsTriggered(t.execs[e], g);
    }
  }

  lemma CallerTriggerKept(max: nat, s: State, a: Action, g: nat, r: nat)
    requires Enabled(s, a) && IsGroup(s, g) && IsCall(s, r) && OwesTrigger(s.calls[r].pc, g)
    ensures IsGroup(Apply(max, s, a), g) && HasTrigger(Apply(max, s, a), g)
  {
    var t := Apply(max, s, a);
    if a == Spawn(r, g) {
      assert IsTriggered(t.execs[|s.execs|], g);
    } else if a == Arm(r, g) {
      assert t.groups[g].timer.Armed?;
    } else {
      assert OwesTrigger(t.calls[r].pc, g);
    }
  }

  lemma NoLostRequestStep(max: nat, s: State, a: Action)
    requires Structure(s) && NoLostRequest(s) && Enabled(s, a)
    ensures NoLostRequest(Apply(max, s, a))
  {
    var t := Apply(max, s, a);
    forall g | 0 <= g < |t.groups| && NonEmpty(t.groups[g]) ensures HasTrigger(t, g) {
      if g < |s.groups| && NonEmpty(s.groups[g]) {
        TriggerKept(max, s, a, g);
      } else {
        // only the first append makes a queue non-empty, and that caller arms the timer next
        assert a.Append? && a.g == g;
        assert OwesTrigger(t.calls[a.r].pc, g);
      }
    }
  }

  lemma DeadGroupsDetachStep(max: nat, s: State, a: Action)
    requires Structure(s) && DeadGroupsDetach(s) && Enabled(s, a)
    ensures DeadGroupsDetach(Apply(max, s, a))
  {
    hide Places, SectionOk, Locks;
    var t := Apply(max, s, a);
    forall k | k in t.mapped && IsGroup(t, t.mapped[k]) && t.groups[t.mapped[k]].requests.None?
      ensures exists e :: 0 <= e < |t.execs| && IsDetaching(t.execs[e], t.mapped[k])
    {
      var g := t.mapped[k];
      if a.Drain? && s.execs[a.e].group == g {
        assert IsDetaching(t.execs[a.e], g);
      } else {
        assert k in s.mapped && s.mapped[k] == g && s.groups[g].requests.None?;
        var e :| 0 <= e < |s.execs| && IsDetaching(s.execs[e], g);
        DetachingKept(max, s, a, k, e);
      }
    }
  }

  /** An executor leaves this stage only by unlinking its group. */
  lemma DetachingKept(max: nat, s: State, a: Action, k: Key, e: nat)
    requires Enabled(s, a) && k in s.mapped && IsGroup(s, s.mapped[k]) && s.groups[s.mapped[k]].key == k
    requires IsExec(s, e) && IsDetaching(s.execs[e], s.mapped[k])
    requires k in Apply(max, s, a).mapped && Apply(max, s, a).mapped[k] == s.mapped[k]
    ensures IsExec(Apply(max, s, a), e) && IsDetaching(Apply(max, s, a).execs[e], s.mapped[k])
  {
  }

  lemma MappedNotFullStep(max: nat, s: State, a: Action)
    requires Structure(s) && MappedNotFull(max, s) && Enabled(s, a)
    ensures MappedNotFull(max, Apply(max, s, a))
  {
    hide Places;
    var t := Apply(max, s, a);
    if max >= 2 {
      forall k | k in t.mapped ensures IsGroup(t, t.mapped[k]) && NotFull(max, t.groups[t.mapped[k]]) {
        if k in s.mapped {
          assert IsGroup(s, s.mapped[k]) && NotFull(max, s.groups[s.mapped[k]]);
        }
      }
    }
  }
}
