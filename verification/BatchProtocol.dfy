/** The write-batch manager as a step machine.

    A `Call` is one `Enqueue` with `batchMs > 0` (a retried Enqueue is the same call going back to
    its lookup: the request object it abandons was never appended). An `Exec` is one
    `executeBatch`, started by a timer or by a full group. Every action below is one step
    another goroutine can observe: a `sync.Map` operation, a critical section of a group
    lock, a timer operation, a channel operation or a critical section of a connection mutex.
    Ids are positions in append-only sequences. `place`, `since`, `drainedAt`, `drains`, `sent`
    and `received` are history: no guard reads them. */
module BatchProtocol {
  import opened Options
  import opened Delivery

  type Key = string
  type Conn = nat

  datatype Timer = Unset | Armed | Fired | Stopped

  /** `requests == None` is the nil slice left behind by a drain; `received` counts the requests that were
      ever appended. */
  datatype Group = Group(key: Key, requests: Option<seq<nat>>, lock: Option<nat>, timer: Timer, received: nat)

  datatype Pc =
    | Start                  // before c.mu.Lock()
    | Loading                // before groups.Load
    | Storing                // before groups.LoadOrStore
    | Found(g: nat)          // before group.mu.Lock()
    | Arming(g: nat)         // holds group.mu, before time.AfterFunc
    | Unlinking(g: nat)      // holds group.mu, before groups.Delete
    | Stopping(g: nat)       // before timer.Stop()
    | Spawning(g: nat)       // before go executeBatch
    | Waiting                // blocked on ResultChan
    | Answered               // has its result, before c.mu.Unlock()
    | Returned
    | Cancelled              // returned ctx.Err()

  datatype Place = Unqueued | Queued(g: nat, i: nat) | Drained(e: nat, i: nat)

  /** `conn` is the MariaDB connection whose mutex the handler holds around Enqueue and
      whose mutex the callback takes; callers without one (PostgreSQL) have `None`.
      `buffered` is the fill of the capacity-1 ResultChan. */
  datatype Call = Call(key: Key, conn: Option<Conn>, pc: Pc, buffered: nat,
                       place: Place, sent: nat, since: nat)

  datatype Stage = Triggered | Detaching | Running | Delivering

  datatype Exec = Exec(group: nat, stage: Stage, batch: seq<nat>, plan: seq<Event>, next: nat, drainedAt: nat)

  datatype Holder = ByCall(r: nat) | ByOther

  datatype State = State(
    mapped: map<Key, nat>, groups: seq<Group>, calls: seq<Call>, execs: seq<Exec>,
    mutex: map<Conn, Holder>, drains: nat)

  datatype Action =
    | Arrive(key: Key, conn: Option<Conn>)
    | LockConn(r: nat)
    | Load(r: nat)
    | Store(r: nat)
    | Retry(r: nat, g: nat)
    | Append(r: nat, g: nat)
    | Arm(r: nat, g: nat)
    | Unlink(r: nat, g: nat)
    | StopTimer(r: nat, g: nat)
    | Spawn(r: nat, g: nat)
    | Fire(g: nat)
    | Drain(e: nat)
    | Detach(e: nat)
    | Execute(e: nat, plan: seq<Event>)
    | Deliver(e: nat)
    | Callback(e: nat)
    | Receive(r: nat)
    | Return(r: nat)
    | Cancel(r: nat)
    | OtherLock(c: Conn)
    | OtherUnlock(c: Conn)

  function Init(): State {
    State(map[], [], [], [], map[], 0)
  }

  // ---------------------------------------------------------------- guards and effects

  predicate IsCall(s: State, r: nat) { r < |s.calls| }
  predicate IsGroup(s: State, g: nat) { g < |s.groups| }
  predicate IsExec(s: State, e: nat) { e < |s.execs| }

  /** The caller is past its append and owes the group a trigger. */
  predicate HoldsOrFires(pc: Pc) {
    pc.Arming? || pc.Unlinking? || pc.Stopping? || pc.Spawning?
  }

  /** The next event of a delivering executor. */
  predicate NextEvent(s: State, e: nat) {
    && IsExec(s, e) && s.execs[e].stage.Delivering? && s.execs[e].plan != []
    && s.execs[e].plan[0].i < |s.execs[e].batch|
    && IsCall(s, s.execs[e].batch[s.execs[e].plan[0].i])
  }

  function Target(s: State, e: nat): nat
    requires NextEvent(s, e)
  {
    s.execs[e].batch[s.execs[e].plan[0].i]
  }

  predicate AtPc(s: State, r: nat, g: nat, pc: Pc) {
    IsCall(s, r) && IsGroup(s, g) && s.calls[r].pc == pc
  }

  function SetPc(s: State, r: nat, pc: Pc): State
    requires IsCall(s, r)
  {
    s.(calls := s.calls[r := s.calls[r].(pc := pc)])
  }

  function SetBoth(s: State, r: nat, pc: Pc, g: nat, group: Group): State
    requires IsCall(s, r) && IsGroup(s, g)
  {
    s.(groups := s.groups[g := group], calls := s.calls[r := s.calls[r].(pc := pc)])
  }

  function SetExec(s: State, e: nat, exec: Exec): State
    requires IsExec(s, e)
  {
    s.(execs := s.execs[e := exec])
  }

  function NewExec(g: nat): Exec { Exec(g, Triggered, [], [], 0, 0) }

  function DoArrive(s: State, key: Key, conn: Option<Conn>): State {
    s.(calls := s.calls + [Call(key, conn, if conn.Some? then Start else Loading, 0, Unqueued, 0, 0)])
  }

  // c.mu.Lock() in the connection's command loop (mariadb.go:554, mariadb.go:625)
  predicate CanLockConn(s: State, r: nat) {
    IsCall(s, r) && s.calls[r].pc.Start? && s.calls[r].conn.Some? && s.calls[r].conn.value !in s.mutex
  }

  function DoLockConn(s: State, r: nat): State
    requires CanLockConn(s, r)
  {
    s.(calls := s.calls[r := s.calls[r].(pc := Loading, since := s.drains)],
       mutex := s.mutex[s.calls[r].conn.value := ByCall(r)])
  }

  predicate CanLoad(s: State, r: nat) { IsCall(s, r) && s.calls[r].pc.Loading? }

  function DoLoad(s: State, r: nat): State
    requires CanLoad(s, r)
  {
    var k := s.calls[r].key;
    SetPc(s, r, if k in s.mapped then Found(s.mapped[k]) else Storing)
  }

  predicate CanStore(s: State, r: nat) { IsCall(s, r) && s.calls[r].pc.Storing? }

  function DoStore(s: State, r: nat): State
    requires CanStore(s, r)
  {
    var k := s.calls[r].key;
    if k in s.mapped then
      SetPc(s, r, Found(s.mapped[k]))
    else
      SetPc(s, r, Found(|s.groups|)).(mapped := s.mapped[k := |s.groups|],
                                      groups := s.groups + [Group(k, Some([]), None, Unset, 0)])
  }

  // a drained group sends the caller back to its lookup (manager.go:105-110)
  predicate CanRetry(s: State, r: nat, g: nat) {
    AtPc(s, r, g, Found(g)) && s.groups[g].lock.None? && s.groups[g].requests.None?
  }

  predicate CanAppend(s: State, r: nat, g: nat) {
    AtPc(s, r, g, Found(g)) && s.groups[g].lock.None? && s.groups[g].requests.Some?
  }

  /** Enqueue's critical section for a live group (manager.go:103-133). */
  function DoAppend(max: nat, s: State, r: nat, g: nat): State
    requires CanAppend(s, r, g)
  {
    var queue := s.groups[g].requests.value + [r];
    var pc := if |queue| == 1 then Arming(g) else if |queue| >= max then Unlinking(g) else Waiting;
    var lock := if pc.Waiting? then None else Some(r);
    s.(groups := s.groups[g := s.groups[g].(requests := Some(queue), lock := lock, received := s.groups[g].received + 1)],
       calls := s.calls[r := s.calls[r].(pc := pc, place := Queued(g, |queue| - 1))])
  }

  function DoArm(s: State, r: nat, g: nat): State
    requires AtPc(s, r, g, Arming(g))
  {
    SetBoth(s, r, Waiting, g, s.groups[g].(timer := Armed, lock := None))
  }

  // groups.Delete is by key: it unlinks whatever group is mapped now (manager.go:125)
  function DoUnlink(s: State, r: nat, g: nat): State
    requires AtPc(s, r, g, Unlinking(g))
  {
    SetBoth(s, r, Stopping(g), g, s.groups[g].(lock := None)).(mapped := s.mapped - {s.calls[r].key})
  }

  function DoStopTimer(s: State, r: nat, g: nat): State
    requires AtPc(s, r, g, Stopping(g))
  {
    var timer := if s.groups[g].timer.Armed? then Stopped else s.groups[g].timer;
    SetBoth(s, r, Spawning(g), g, s.groups[g].(timer := timer))
  }

  function DoSpawn(s: State, r: nat, g: nat): State
    requires AtPc(s, r, g, Spawning(g))
  {
    SetPc(s, r, Waiting).(execs := s.execs + [NewExec(g)])
  }

  predicate CanFire(s: State, g: nat) { IsGroup(s, g) && s.groups[g].timer.Armed? }

  function DoFire(s: State, g: nat): State
    requires CanFire(s, g)
  {
    s.(groups := s.groups[g := s.groups[g].(timer := Fired)], execs := s.execs + [NewExec(g)])
  }

  predicate CanDrain(s: State, e: nat) {
    IsExec(s, e) && s.execs[e].stage.Triggered? && IsGroup(s, s.execs[e].group) && s.groups[s.execs[e].group].lock.None?
  }

  function Moved(c: Call, g: nat, e: nat): Call {
    if c.place.Queued? && c.place.g == g then c.(place := Drained(e, c.place.i)) else c
  }

  /** executeBatch's critical section (executor.go:34-39). */
  function DoDrain(s: State, e: nat): State
    requires CanDrain(s, e)
  {
    var g := s.execs[e].group;
    var batch := if s.groups[g].requests.Some? then s.groups[g].requests.value else [];
    s.(groups := s.groups[g := s.groups[g].(requests := None)],
       calls := seq(|s.calls|, r requires 0 <= r < |s.calls| => Moved(s.calls[r], g, e)),
       execs := s.execs[e := s.execs[e].(stage := Detaching, batch := batch, drainedAt := s.drains)],
       drains := s.drains + 1)
  }

  predicate CanDetach(s: State, e: nat) {
    IsExec(s, e) && s.execs[e].stage.Detaching? && IsGroup(s, s.execs[e].group)
  }

  // groups.CompareAndDelete, then return if the batch was empty (executor.go:42-46)
  function DoDetach(s: State, e: nat): State
    requires CanDetach(s, e)
  {
    var g := s.execs[e].group;
    var k := s.groups[g].key;
    var stage := if s.execs[e].batch == [] then Delivering else Running;
    SetExec(s, e, s.execs[e].(stage := stage)).(
      mapped := if k in s.mapped && s.mapped[k] == g then s.mapped - {k} else s.mapped)
  }

  // the backend work ends with some delivery to the whole batch
  predicate CanExecute(s: State, e: nat, plan: seq<Event>) {
    IsExec(s, e) && s.execs[e].stage.Running? && IsDelivery(plan, |s.execs[e].batch|)
  }

  function DoExecute(s: State, e: nat, plan: seq<Event>): State
    requires CanExecute(s, e, plan)
  {
    SetExec(s, e, s.execs[e].(stage := Delivering, plan := plan))
  }

  // a send on the capacity-1 channel blocks while the channel is full
  predicate CanDeliver(s: State, e: nat) {
    NextEvent(s, e) && s.execs[e].plan[0].Send? && s.calls[Target(s, e)].buffered == 0
  }

  function DoDeliver(s: State, e: nat): State
    requires CanDeliver(s, e)
  {
    var r := Target(s, e);
    SetExec(s, e, s.execs[e].(plan := s.execs[e].plan[1..], next := s.execs[e].next + 1)).(
      calls := s.calls[r := s.calls[r].(buffered := s.calls[r].buffered + 1, sent := s.calls[r].sent + 1)])
  }

  // the MariaDB callback locks and unlocks its connection's mutex (mariadb.go:1689-1691)
  predicate CanCallback(s: State, e: nat) {
    && NextEvent(s, e) && s.execs[e].plan[0].Notify?
    && (s.calls[Target(s, e)].conn.Some? ==> s.calls[Target(s, e)].conn.value !in s.mutex)
  }

  function DoCallback(s: State, e: nat): State
    requires CanCallback(s, e)
  {
    SetExec(s, e, s.execs[e].(plan := s.execs[e].plan[1..]))
  }

  predicate CanReceive(s: State, r: nat) { IsCall(s, r) && s.calls[r].pc.Waiting? && s.calls[r].buffered > 0 }

  function DoReceive(s: State, r: nat): State
    requires CanReceive(s, r)
  {
    s.(calls := s.calls[r := s.calls[r].(pc := Answered, buffered := s.calls[r].buffered - 1)])
  }

  predicate CanReturn(s: State, r: nat) { IsCall(s, r) && s.calls[r].pc.Answered? }

  function DoReturn(s: State, r: nat): State
    requires CanReturn(s, r)
  {
    SetPc(s, r, Returned).(
      mutex := if s.calls[r].conn.Some? then s.mutex - {s.calls[r].conn.value} else s.mutex)
  }

  // MariaDB handlers pass context.Background(), so only callers without a mutex are ever cancelled
  predicate CanCancel(s: State, r: nat) { IsCall(s, r) && s.calls[r].pc.Waiting? && s.calls[r].conn.None? }

  predicate Enabled(s: State, a: Action) {
    match a
    case Arrive(_, _) => true
    case LockConn(r) => CanLockConn(s, r)
    case Load(r) => CanLoad(s, r)
    case Store(r) => CanStore(s, r)
    case Retry(r, g) => CanRetry(s, r, g)
    case Append(r, g) => CanAppend(s, r, g)
    case Arm(r, g) => AtPc(s, r, g, Arming(g))
    case Unlink(r, g) => AtPc(s, r, g, Unlinking(g))
    case StopTimer(r, g) => AtPc(s, r, g, Stopping(g))
    case Spawn(r, g) => AtPc(s, r, g, Spawning(g))
    case Fire(g) => CanFire(s, g)
    case Drain(e) => CanDrain(s, e)
    case Detach(e) => CanDetach(s, e)
    case Execute(e, plan) => CanExecute(s, e, plan)
    case Deliver(e) => CanDeliver(s, e)
    case Callback(e) => CanCallback(s, e)
    case Receive(r) => CanReceive(s, r)
    case Return(r) => CanReturn(s, r)
    case Cancel(r) => CanCancel(s, r)
    case OtherLock(c) => c !in s.mutex
    case OtherUnlock(c) => c in s.mutex && s.mutex[c].ByOther?
  }

  function Apply(max: nat, s: State, a: Action): State
    requires Enabled(s, a)
  {
    match a
    case Arrive(key, conn) => DoArrive(s, key, conn)
    case LockConn(r) => DoLockConn(s, r)
    case Load(r) => DoLoad(s, r)
    case Store(r) => DoStore(s, r)
    case Retry(r, g) => SetPc(s, r, Loading)
    case Append(r, g) => DoAppend(max, s, r, g)
    case Arm(r, g) => DoArm(s, r, g)
    case Unlink(r, g) => DoUnlink(s, r, g)
    case StopTimer(r, g) => DoStopTimer(s, r, g)
    case Spawn(r, g) => DoSpawn(s, r, g)
    case Fire(g) => DoFire(s, g)
    case Drain(e) => DoDrain(s, e)
    case Detach(e) => DoDetach(s, e)
    case Execute(e, plan) => DoExecute(s, e, plan)
    case Deliver(e) => DoDeliver(s, e)
    case Callback(e) => DoCallback(s, e)
    case Receive(r) => DoReceive(s, r)
    case Return(r) => DoReturn(s, r)
    case Cancel(r) => SetPc(s, r, Cancelled)
    case OtherLock(c) => s.(mutex := s.mutex[c := ByOther])
    case OtherUnlock(c) => s.(mutex := s.mutex - {c})
  }

  /** `t` is reached from `s` by the actions `run`, in any interleaving. */
  ghost predicate Reaches(max: nat, s: State, run: seq<Action>, t: State)
    decreases |run|
  {
    if run == [] then s == t
    else Enabled(s, run[0]) && Reaches(max, Apply(max, s, run[0]), run[1..], t)
  }

  // ---------------------------------------------------------------- invariants

  ghost predicate WellFormed(s: State) {
    && (forall k <- s.mapped :: IsGroup(s, s.mapped[k]) && s.groups[s.mapped[k]].key == k)
    && (forall r | 0 <= r < |s.calls| :: s.calls[r].pc.Found? || HoldsOrFires(s.calls[r].pc) ==>
          IsGroup(s, s.calls[r].pc.g) && s.groups[s.calls[r].pc.g].key == s.calls[r].key)
    && (forall e | 0 <= e < |s.execs| :: IsGroup(s, s.execs[e].group))
  }

  /** A group lock is held exactly by the caller that is inside its critical section. */
  ghost predicate Locks(s: State) {
    && (forall g | 0 <= g < |s.groups| :: s.groups[g].lock.Some? ==>
          IsCall(s, s.groups[g].lock.value) && InSection(s.calls[s.groups[g].lock.value].pc, g))
    && (forall r | 0 <= r < |s.calls| :: s.calls[r].pc.Arming? || s.calls[r].pc.Unlinking? ==>
          IsGroup(s, s.calls[r].pc.g) && s.groups[s.calls[r].pc.g].lock == Some(r))
  }

  predicate InSection(pc: Pc, g: nat) { pc == Arming(g) || pc == Unlinking(g) }

  predicate BeforeAppend(pc: Pc) { pc.Start? || pc.Loading? || pc.Storing? || pc.Found? }

  ghost predicate QueueOk(s: State, g: nat, q: seq<nat>) {
    forall i | 0 <= i < |q| :: IsCall(s, q[i]) && s.calls[q[i]].place == Queued(g, i)
  }

  ghost predicate BatchOk(s: State, e: nat, b: seq<nat>) {
    forall i | 0 <= i < |b| :: IsCall(s, b[i]) && s.calls[b[i]].place == Drained(e, i)
  }

  /** Each appended request sits at exactly one position of one queue or of one batch. */
  ghost predicate Places(s: State) {
    && (forall g | 0 <= g < |s.groups| :: s.groups[g].requests.Some? ==> QueueOk(s, g, s.groups[g].requests.value))
    && (forall e | 0 <= e < |s.execs| :: BatchOk(s, e, s.execs[e].batch))
    && (forall r | 0 <= r < |s.calls| :: PlaceOk(s, r, s.calls[r].place))
  }

  ghost predicate PlaceOk(s: State, r: nat, place: Place)
    requires IsCall(s, r)
  {
    match place
    case Unqueued => BeforeAppend(s.calls[r].pc)
    case Queued(g, i) => !BeforeAppend(s.calls[r].pc) && IsGroup(s, g) && s.groups[g].requests.Some? &&
                         i < |s.groups[g].requests.value| && s.groups[g].requests.value[i] == r
    case Drained(e, i) => !BeforeAppend(s.calls[r].pc) && IsExec(s, e) && i < |s.execs[e].batch| && s.execs[e].batch[i] == r
  }

  predicate ExecOk(x: Exec) {
    && (x.stage.Triggered? ==> x.batch == [])
    && (x.stage.Running? ==> x.batch != [])
    && (!x.stage.Delivering? ==> x.next == 0 && x.plan == [])
    && (x.stage.Delivering? ==> InDelivery(x.plan, x.next, |x.batch|, true))
  }

  /** How many results the request has been sent, by where it is. */
  ghost predicate ResultOk(s: State, c: Call) {
    && c.sent == (if c.place.Drained? && IsExec(s, c.place.e) && c.place.i < s.execs[c.place.e].next then 1 else 0)
    && (if c.pc.Answered? || c.pc.Returned? then c.sent == 1 && c.buffered == 0 else c.buffered == c.sent)
  }

  ghost predicate Results(s: State) {
    && (forall e | 0 <= e < |s.execs| :: ExecOk(s.execs[e]))
    && (forall r | 0 <= r < |s.calls| :: ResultOk(s, s.calls[r]))
  }

  /** Something will still run executeBatch on the group. */
  ghost predicate HasTrigger(s: State, g: nat)
    requires IsGroup(s, g)
  {
    || s.groups[g].timer.Armed?
    || (exists r :: 0 <= r < |s.calls| && OwesTrigger(s.calls[r].pc, g))
    || (exists e :: 0 <= e < |s.execs| && IsTriggered(s.execs[e], g))
  }

  predicate OwesTrigger(pc: Pc, g: nat) { HoldsOrFires(pc) && pc.g == g }

  predicate IsTriggered(x: Exec, g: nat) { x.stage.Triggered? && x.group == g }

  predicate IsDetaching(x: Exec, g: nat) { x.stage.Detaching? && x.group == g }

  predicate NonEmpty(group: Group) { group.requests.Some? && group.requests.value != [] }

  ghost predicate NoLostRequest(s: State) {
    forall g | 0 <= g < |s.groups| :: NonEmpty(s.groups[g]) ==> HasTrigger(s, g)
  }

  /** A drained group still in the map is about to be unlinked by its own executor. */
  ghost predicate DeadGroupsDetach(s: State) {
    forall k <- s.mapped :: IsGroup(s, s.mapped[k]) && s.groups[s.mapped[k]].requests.None? ==>
      exists e :: 0 <= e < |s.execs| && IsDetaching(s.execs[e], s.mapped[k])
  }

  /** A group that lookups can still find is not full, or its lock holder is about to unlink it. */
  ghost predicate MappedNotFull(max: nat, s: State) {
    max >= 2 ==> forall k <- s.mapped :: IsGroup(s, s.mapped[k]) && NotFull(max, s.groups[s.mapped[k]])
  }

  predicate NotFull(max: nat, group: Group) {
    group.requests.None? || |group.requests.value| < max || (group.lock.Some? && |group.requests.value| == max)
  }

  /** While a full group's lock is held, its holder is about to unlink it. */
  ghost predicate SectionOk(s: State) {
    forall r | 0 <= r < |s.calls| :: (s.calls[r].pc.Arming? || s.calls[r].pc.Unlinking?) && IsGroup(s, s.calls[r].pc.g) ==>
      var group := s.groups[s.calls[r].pc.g];
      group.requests.Some? && (s.calls[r].pc.Arming? ==> |group.requests.value| == 1)
  }

  predicate HoldsMutex(pc: Pc) { !pc.Start? && !pc.Returned? && !pc.Cancelled? }

  ghost predicate Mutexes(s: State) {
    && (forall c <- s.mutex :: s.mutex[c].ByCall? ==>
          IsCall(s, s.mutex[c].r) && s.calls[s.mutex[c].r].conn == Some(c) && HoldsMutex(s.calls[s.mutex[c].r].pc))
    && (forall r | 0 <= r < |s.calls| :: MutexOk(s, r, s.calls[r]))
  }

  ghost predicate MutexOk(s: State, r: nat, c: Call) {
    && (c.conn.None? ==> !c.pc.Start?)
    && (c.conn.Some? ==> !c.pc.Cancelled?)
    && (c.conn.Some? && HoldsMutex(c.pc) ==> c.conn.value in s.mutex && s.mutex[c.conn.value] == ByCall(r))
  }

  /** A drain that contains a call happened after the call began, and a connection's mutex
      was taken after every drain that contains an earlier call of that connection. */
  ghost predicate DrainOrder(s: State) {
    && (forall r | 0 <= r < |s.calls| :: DrainedSince(s, s.calls[r]))
    && (forall c <- s.mutex :: s.mutex[c].ByCall? && IsCall(s, s.mutex[c].r) ==> HolderIsNewest(s, c, s.mutex[c].r))
  }

  ghost predicate DrainedSince(s: State, c: Call) {
    && c.since <= s.drains
    && (c.place.Drained? && IsExec(s, c.place.e) ==> c.since <= s.execs[c.place.e].drainedAt < s.drains)
  }

  ghost predicate HolderIsNewest(s: State, c: Conn, r: nat)
    requires IsCall(s, r)
  {
    forall q | 0 <= q < |s.calls| :: q != r && s.calls[q].conn == Some(c) && s.calls[q].place.Drained? && IsExec(s, s.calls[q].place.e) ==>
      s.execs[s.calls[q].place.e].drainedAt < s.calls[r].since
  }

  ghost predicate Structure(s: State) {
    WellFormed(s) && Locks(s) && Places(s) && SectionOk(s)
  }

  ghost predicate Traffic(s: State) {
    Results(s) && Mutexes(s) && DrainOrder(s)
  }

  ghost predicate Discipline(max: nat, s: State) {
    NoLostRequest(s) && DeadGroupsDetach(s) && MappedNotFull(max, s)
  }

  ghost predicate Inv(max: nat, s: State) {
    Structure(s) && Traffic(s) && Discipline(max, s)
  }
}
