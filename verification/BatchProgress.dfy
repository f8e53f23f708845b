/** No circular wait: unless everything is settled, some step that is not a mere retry is
    enabled, and taking such steps settles every reachable state. */
module BatchProgress {
  import opened Delivery
  import opened BatchProtocol

  predicate CallFinished(c: Call) { c.pc.Returned? || c.pc.Cancelled? }

  predicate ExecFinished(x: Exec) { x.stage.Delivering? && x.plan == [] }

  /** Nothing is left to run: every Enqueue has returned, every executor has ended and no
      timer will fire. */
  ghost predicate Settled(s: State) {
    && (forall r | 0 <= r < |s.calls| :: CallFinished(s.calls[r]))
    && (forall e | 0 <= e < |s.execs| :: ExecFinished(s.execs[e]))
    && (forall g | 0 <= g < |s.groups| :: !s.groups[g].timer.Armed?)
  }

  /** Steps that bring the system closer to settled: no new work, no cancellation, and no
      lookup that can only find a drained group. */
  predicate Productive(s: State, a: Action) {
    match a
    case Arrive(_, _) => false
    case OtherLock(_) => false
    case Cancel(_) => false
    case Load(r) => IsCall(s, r) && FindsLive(s, s.calls[r].key)
    case Store(r) => IsCall(s, r) && FindsLive(s, s.calls[r].key)
    case _ => true
  }

  predicate FindsLive(s: State, k: Key) {
    k in s.mapped && IsGroup(s, s.mapped[k]) ==> s.groups[s.mapped[k]].requests.Some?
  }

  ghost predicate Moves(s: State, a: Action) { Enabled(s, a) && Productive(s, a) }

  // ---------------------------------------------------------------- some step is enabled

  /** A held group lock is about to be released by its holder. */
  lemma HolderMoves(s: State, g: nat) returns (a: Action)
    requires Structure(s) && IsGroup(s, g) && s.groups[g].lock.Some?
    ensures Moves(s, a)
  {
    var r := s.groups[g].lock.value;
    a := if s.calls[r].pc.Arming? then Arm(r, g) else Unlink(r, g);
  }

  lemma TriggerMoves(s: State, g: nat) returns (a: Action)
    requires Structure(s) && IsGroup(s, g) && HasTrigger(s, g)
    ensures Moves(s, a)
  {
    if s.groups[g].lock.Some? {
      a := HolderMoves(s, g);
    } else if s.groups[g].timer.Armed? {
      a := Fire(g);
    } else if r :| 0 <= r < |s.calls| && OwesTrigger(s.calls[r].pc, g) {
      a := if s.calls[r].pc.Stopping? then StopTimer(r, g) else Spawn(r, g);
    } else {
      var e :| 0 <= e < |s.execs| && IsTriggered(s.execs[e], g);
      a := Drain(e);
    }
  }

  /** Either the lookup finds a live group, or the drained one is about to be unlinked. */
  lemma LookupMoves(max: nat, s: State, r: nat) returns (a: Action)
    requires Inv(max, s) && IsCall(s, r) && (s.calls[r].pc.Loading? || s.calls[r].pc.Storing?)
    ensures Moves(s, a)
  {
    var k := s.calls[r].key;
    if FindsLive(s, k) {
      a := if s.calls[r].pc.Loading? then Load(r) else Store(r);
    } else {
      var e :| 0 <= e < |s.execs| && IsDetaching(s.execs[e], s.mapped[k]);
      a := Detach(e);
    }
  }

  /** The caller waits for an executor that has drained it but not answered it yet. */
  predicate AwaitsExec(c: Call) { c.pc.Waiting? && c.buffered == 0 && c.place.Drained? }

  lemma CallMoves(max: nat, s: State, r: nat) returns (a: Action)
    requires Inv(max, s) && IsCall(s, r) && !CallFinished(s.calls[r])
    requires !s.calls[r].pc.Start? && !AwaitsExec(s.calls[r])
    ensures Moves(s, a)
  {
    match s.calls[r].pc
    case Loading => a := LookupMoves(max, s, r);
    case Storing => a := LookupMoves(max, s, r);
    case Found(g) =>
      if s.groups[g].lock.Some? {
        a := HolderMoves(s, g);
      } else {
        a := if s.groups[g].requests.None? then Retry(r, g) else Append(r, g);
      }
    case Waiting =>
      if s.calls[r].buffered > 0 {
        a := Receive(r);
      } else {
        assert PlaceOk(s, r, s.calls[r].place);
        var g := s.calls[r].place.g;
        assert NonEmpty(s.groups[g]);
        a := TriggerMoves(s, g);
      }
    case Answered => a := Return(r);
    case Arming(g) => a := Arm(r, g);
    case Unlinking(g) => a := Unlink(r, g);
    case Stopping(g) => a := StopTimer(r, g);
    case Spawning(g) => a := Spawn(r, g);
  }

  lemma AwaitedExecUnfinished(max: nat, s: State, q: nat)
    requires Inv(max, s) && IsCall(s, q) && AwaitsExec(s.calls[q])
    ensures IsExec(s, s.calls[q].place.e) && !ExecFinished(s.execs[s.calls[q].place.e])
  {
    assert PlaceOk(s, q, s.calls[q].place);
    assert ResultOk(s, s.calls[q]);
    assert ExecOk(s.execs[s.calls[q].place.e]);
  }

  /** The delivery of an executor never waits for a channel: only a callback can wait, and only
      for its connection's mutex. */
  lemma NextEventOk(max: nat, s: State, e: nat)
    requires Inv(max, s) && IsExec(s, e) && s.execs[e].stage.Delivering? && s.execs[e].plan != []
    ensures NextEvent(s, e)
    ensures s.execs[e].plan[0].Send? ==> CanDeliver(s, e)
    ensures s.execs[e].plan[0].Notify? ==> s.calls[Target(s, e)].sent == 1 && s.calls[Target(s, e)].place == Drained(e, s.execs[e].plan[0].i)
  {
    var x := s.execs[e];
    assert ExecOk(x);
    var i := x.plan[0].i;
    SendsFrom(x.plan, x.next, |x.batch|, true, i);
    assert BatchOk(s, e, x.batch);
    assert s.calls[x.batch[i]].place == Drained(e, i);
    assert ResultOk(s, s.calls[x.batch[i]]);
  }

  /** The heart of the argument: an executor blocked in a callback waits for a connection whose
      handler waits for a batch that was drained strictly later. */
  lemma WaitsForLaterDrain(max: nat, s: State, e: nat, q: nat)
    requires Inv(max, s) && IsExec(s, e) && NextEvent(s, e) && s.execs[e].plan[0].Notify?
    requires s.calls[Target(s, e)].conn.Some?
    requires var c := s.calls[Target(s, e)].conn.value; c in s.mutex && s.mutex[c] == ByCall(q)
    requires IsCall(s, q) && AwaitsExec(s.calls[q])
    ensures IsExec(s, s.calls[q].place.e) && s.execs[e].drainedAt < s.execs[s.calls[q].place.e].drainedAt < s.drains
  {
    var r := Target(s, e);
    var c := s.calls[r].conn.value;
    NextEventOk(max, s, e);
    assert ResultOk(s, s.calls[r]) && ResultOk(s, s.calls[q]);
    assert q != r;
    assert HolderIsNewest(s, c, q);
    assert PlaceOk(s, q, s.calls[q].place);
    assert DrainedSince(s, s.calls[q]);
  }

  lemma ExecMoves(max: nat, s: State, e: nat) returns (a: Action)
    requires Inv(max, s) && IsExec(s, e) && !ExecFinished(s.execs[e])
    ensures Moves(s, a)
    decreases if s.execs[e].drainedAt < s.drains then s.drains - s.execs[e].drainedAt else 0
  {
    var x := s.execs[e];
    match x.stage
    case Triggered =>
      if s.groups[x.group].lock.Some? {
        a := HolderMoves(s, x.group);
      } else {
        a := Drain(e);
      }
    case Detaching => a := Detach(e);
    case Running => a := Execute(e, SendsOnly(0, |x.batch|));
    case Delivering =>
      NextEventOk(max, s, e);
      var r := Target(s, e);
      if x.plan[0].Send? {
        a := Deliver(e);
      } else if s.calls[r].conn.None? || s.calls[r].conn.value !in s.mutex {
        a := Callback(e);
      } else {
        var c := s.calls[r].conn.value;
        match s.mutex[c]
        case ByOther => a := OtherUnlock(c);
        case ByCall(q) =>
          if AwaitsExec(s.calls[q]) {
            AwaitedExecUnfinished(max, s, q);
            WaitsForLaterDrain(max, s, e, q);
            a := ExecMoves(max, s, s.calls[q].place.e);
          } else {
            a := CallMoves(max, s, q);
          }
      }
  }

  lemma UnfinishedCallMoves(max: nat, s: State, r: nat) returns (a: Action)
    requires Inv(max, s) && IsCall(s, r) && !CallFinished(s.calls[r]) && !s.calls[r].pc.Start?
    ensures Moves(s, a)
  {
    if AwaitsExec(s.calls[r]) {
      AwaitedExecUnfinished(max, s, r);
      a := ExecMoves(max, s, s.calls[r].place.e);
    } else {
      a := CallMoves(max, s, r);
    }
  }

  /** Deadlock freedom: in every state that is not settled some productive step is enabled. */
  lemma SomeStepEnabled(max: nat, s: State) returns (a: Action)
    requires Inv(max, s) && !Settled(s)
    ensures Moves(s, a)
  {
    if e :| 0 <= e < |s.execs| && !ExecFinished(s.execs[e]) {
      a := ExecMoves(max, s, e);
    } else if g :| 0 <= g < |s.groups| && s.groups[g].timer.Armed? {
      a := Fire(g);
    } else {
      var r :| 0 <= r < |s.calls| && !CallFinished(s.calls[r]);
      if !s.calls[r].pc.Start? {
        a := UnfinishedCallMoves(max, s, r);
      } else {
        assert MutexOk(s, r, s.calls[r]);
        var c := s.calls[r].conn.value;
        if c !in s.mutex {
          a := LockConn(r);
        } else if s.mutex[c].ByOther? {
          a := OtherUnlock(c);
        } else {
          a := UnfinishedCallMoves(max, s, s.mutex[c].r);
        }
      }
    }
  }
}
