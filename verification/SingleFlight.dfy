/** The cold-cache single-flight protocol of the query cache and of the text-query handlers
    that use it, as a step machine.

    Handlers look a key up, register or join a flight, fetch from the backend and notify.
    Each action is one step other goroutines can observe: one operation on the store, on the
    in-flight `sync.Map` or on a flight's channel. What the store returns is up to the action
    (entries may expire or be evicted at any time), and so is the backend's answer.
    `role`, `timedOut`, `answer`, `leader` and `taker` are history: no guard reads them. */
module SingleFlight {
  import opened Options

  type Key = string

  datatype Pc =
    | Probing          // before the handler's own cache.Get
    | Getting          // GetOrWait, before its Get
    | Registering      // GetOrWait, before inflight.LoadOrStore
    | Blocked(f: nat)  // GetOrWait, in the select
    | Waking           // GetOrWait, before the Get after the wait
    | Fetching         // querying the backend
    | Notifying        // SetAndNotify or CancelInflight, before LoadAndDelete
    | Closing(f: nat)  // before close(done)
    | Done
    | Leaked           // returned for LOCAL INFILE without notifying

  datatype Role = Outsider | Leader(f: nat) | Waiter(f: nat)

  /** Where a handler's answer to its client came from. */
  datatype Answer = NotYet | FromCache | FromBackend

  datatype Handler = Handler(key: Key, pc: Pc, role: Role, timedOut: bool, answer: Answer)

  /** `closes` counts the calls of close(done); a second one would panic. */
  datatype Flight = Flight(key: Key, leader: nat, taker: Option<nat>, closes: nat)

  datatype State = State(inflight: map<Key, nat>, flights: seq<Flight>, handlers: seq<Handler>)

  datatype Action =
    | Arrive(key: Key)              // a cacheable text query
    | ArriveDirect(key: Key)        // a PostgreSQL Execute, which notifies without having registered
    | Probe(h: nat, served: bool)
    | Get(h: nat, hit: bool)
    | Register(h: nat)
    | WakeUp(h: nat)
    | TimeOut(h: nat)
    | GetAgain(h: nat, hit: bool)
    | Fetched(h: nat)               // with a result to store or with an error
    | Infile(h: nat)
    | TakeFlight(h: nat)
    | Close(h: nat)

  function Init(): State { State(map[], [], []) }

  predicate IsHandler(s: State, h: nat) { h < |s.handlers| }
  predicate IsFlight(s: State, f: nat) { f < |s.flights| }

  predicate At(s: State, h: nat, pc: Pc) { IsHandler(s, h) && s.handlers[h].pc == pc }

  predicate AtFlight(s: State, h: nat) {
    && IsHandler(s, h) && (s.handlers[h].pc.Blocked? || s.handlers[h].pc.Closing?)
    && IsFlight(s, s.handlers[h].pc.f)
  }

  predicate Enabled(s: State, a: Action) {
    match a
    case Arrive(_) => true
    case ArriveDirect(_) => true
    case Probe(h, _) => At(s, h, Probing)
    case Get(h, _) => At(s, h, Getting)
    case Register(h) => At(s, h, Registering)
    case WakeUp(h) => AtFlight(s, h) && s.handlers[h].pc.Blocked? && s.flights[s.handlers[h].pc.f].closes > 0
    case TimeOut(h) => AtFlight(s, h) && s.handlers[h].pc.Blocked?
    case GetAgain(h, _) => At(s, h, Waking)
    case Fetched(h) => At(s, h, Fetching)
    case Infile(h) => At(s, h, Fetching)
    case TakeFlight(h) => At(s, h, Notifying)
    case Close(h) => AtFlight(s, h) && s.handlers[h].pc.Closing?
  }

  function Move(s: State, h: nat, pc: Pc): State
    requires IsHandler(s, h)
  {
    s.(handlers := s.handlers[h := s.handlers[h].(pc := pc)])
  }

  function Answered(s: State, h: nat, pc: Pc, answer: Answer): State
    requires IsHandler(s, h)
  {
    s.(handlers := s.handlers[h := s.handlers[h].(pc := pc, answer := answer)])
  }

  /** LoadOrStore of a fresh flight: the loser joins, the winner leads (cache.go:84-101). */
  function DoRegister(s: State, h: nat): State
    requires IsHandler(s, h)
  {
    var me := s.handlers[h];
    if me.key in s.inflight then
      var f := s.inflight[me.key];
      s.(handlers := s.handlers[h := me.(pc := Blocked(f), role := Waiter(f))])
    else
      var f := |s.flights|;
      State(s.inflight[me.key := f],
            s.flights + [Flight(me.key, h, None, 0)],
            s.handlers[h := me.(pc := Fetching, role := Leader(f))])
  }

  /** LoadAndDelete by key: takes whatever flight is registered now (cache.go:112, cache.go:120). */
  function DoTake(s: State, h: nat): State
    requires IsHandler(s, h)
  {
    var k := s.handlers[h].key;
    if k in s.inflight && IsFlight(s, s.inflight[k]) then
      var f := s.inflight[k];
      State(s.inflight - {k},
            s.flights[f := s.flights[f].(taker := Some(h))],
            s.handlers[h := s.handlers[h].(pc := Closing(f))])
    else
      Move(s, h, Done)
  }

  function DoClose(s: State, h: nat): State
    requires Enabled(s, Close(h))
  {
    var f := s.handlers[h].pc.f;
    Move(s, h, Done).(flights := s.flights[f := s.flights[f].(closes := s.flights[f].closes + 1)])
  }

  function Apply(s: State, a: Action): State
    requires Enabled(s, a)
  {
    match a
    case Arrive(k) => s.(handlers := s.handlers + [Handler(k, Probing, Outsider, false, NotYet)])
    case ArriveDirect(k) => s.(handlers := s.handlers + [Handler(k, Fetching, Outsider, false, NotYet)])
    case Probe(h, served) => if served then Answered(s, h, Done, FromCache) else Move(s, h, Getting)
    // a hit without waiting still queries the backend (mariadb.go:719-727)
    case Get(h, hit) => Move(s, h, if hit then Fetching else Registering)
    case Register(h) => DoRegister(s, h)
    case WakeUp(h) => Move(s, h, Waking)
    case TimeOut(h) => s.(handlers := s.handlers[h := s.handlers[h].(pc := Fetching, timedOut := true)])
    case GetAgain(h, hit) => if hit then Answered(s, h, Done, FromCache) else Move(s, h, Fetching)
    case Fetched(h) => Answered(s, h, Notifying, FromBackend)
    case Infile(h) => Answered(s, h, Leaked, FromBackend)
    case TakeFlight(h) => DoTake(s, h)
    case Close(h) => DoClose(s, h)
  }

  ghost predicate Reaches(s: State, run: seq<Action>, t: State)
    decreases |run|
  {
    if run == [] then s == t else Enabled(s, run[0]) && Reaches(Apply(s, run[0]), run[1..], t)
  }

  ghost predicate Reachable(s: State) { exists run :: Reaches(Init(), run, s) }

  // ---------------------------------------------------------------- invariant

  /** A registered flight is open, untaken, and its leader has yet to notify (or never will). */
  predicate MapOk(s: State, k: Key, f: nat) {
    && IsFlight(s, f) && s.flights[f].key == k && s.flights[f].taker.None?
    && IsHandler(s, s.flights[f].leader)
    && var pc := s.handlers[s.flights[f].leader].pc; pc.Fetching? || pc.Notifying? || pc.Leaked?
  }

  ghost predicate FlightOk(s: State, f: nat)
    requires IsFlight(s, f)
  {
    var flight := s.flights[f];
    && IsHandler(s, flight.leader)
    && s.handlers[flight.leader].key == flight.key && s.handlers[flight.leader].role == Leader(f)
    && match flight.taker
       case None => flight.closes == 0 && flight.key in s.inflight && s.inflight[flight.key] == f
       case Some(h) => IsHandler(s, h) && (if s.handlers[h].pc == Closing(f) then flight.closes == 0 else flight.closes == 1)
  }

  ghost predicate HandlerOk(s: State, h: nat)
    requires IsHandler(s, h)
  {
    var me := s.handlers[h];
    && (me.pc.Closing? ==> IsFlight(s, me.pc.f) && s.flights[me.pc.f].taker == Some(h))
    && (me.pc.Blocked? ==> IsFlight(s, me.pc.f) && s.flights[me.pc.f].key == me.key)
    && (me.role.Leader? ==> IsFlight(s, me.role.f) && s.flights[me.role.f].leader == h)
    && (me.pc.Probing? || me.pc.Getting? || me.pc.Registering? ==> me.role.Outsider?)
    && (me.role.Waiter? ==> IsFlight(s, me.role.f) && s.flights[me.role.f].key == me.key)
    && (me.role.Waiter? && me.pc != Blocked(me.role.f) ==> me.timedOut || s.flights[me.role.f].closes > 0)
    && (me.pc.Blocked? ==> me.role == Waiter(me.pc.f))
    && (me.answer.NotYet? <==> !me.pc.Notifying? && !me.pc.Closing? && !me.pc.Done? && !me.pc.Leaked?)
  }

  ghost predicate Inv(s: State) {
    && (forall k <- s.inflight :: MapOk(s, k, s.inflight[k]))
    && (forall f | 0 <= f < |s.flights| :: FlightOk(s, f))
    && (forall h | 0 <= h < |s.handlers| :: HandlerOk(s, h))
  }

  lemma InvStep(s: State, a: Action)
    requires Inv(s) && Enabled(s, a)
    ensures Inv(Apply(s, a))
  {
    var t := Apply(s, a);
    forall k | k in t.inflight ensures MapOk(t, k, t.inflight[k]) {
      MapStep(s, a, k);
    }
    forall f | 0 <= f < |t.flights| ensures FlightOk(t, f) {
      FlightStep(s, a, f);
    }
    forall h | 0 <= h < |t.handlers| ensures HandlerOk(t, h) {
      HandlerStep(s, a, h);
    }
  }

  lemma MapStep(s: State, a: Action, k: Key)
    requires Inv(s) && Enabled(s, a) && k in Apply(s, a).inflight
    ensures MapOk(Apply(s, a), k, Apply(s, a).inflight[k])
  {
    hide HandlerOk;
    if k in s.inflight {
      assert MapOk(s, k, s.inflight[k]) && FlightOk(s, s.inflight[k]);
    }
  }

  lemma FlightStep(s: State, a: Action, f: nat)
    requires Inv(s) && Enabled(s, a) && IsFlight(Apply(s, a), f)
    ensures FlightOk(Apply(s, a), f)
  {
    if IsFlight(s, f) {
      assert FlightOk(s, f);
      if a.Close? || a.Register? { assert HandlerOk(s, a.h); }
      if a.TakeFlight? && s.handlers[a.h].key in s.inflight { assert MapOk(s, s.handlers[a.h].key, s.inflight[s.handlers[a.h].key]); }
    }
  }

  /** Flights keep their key, leader and taker, and stay closed. */
  lemma FlightKept(s: State, a: Action, f: nat)
    requires Inv(s) && Enabled(s, a) && IsFlight(s, f)
    ensures var t := Apply(s, a);
            && IsFlight(t, f) && t.flights[f].key == s.flights[f].key && t.flights[f].leader == s.flights[f].leader
            && t.flights[f].closes >= s.flights[f].closes
            && (s.flights[f].taker.Some? ==> t.flights[f].taker == s.flights[f].taker)
  {
    hide HandlerOk;
    assert FlightOk(s, f);
    if a.TakeFlight? && s.handlers[a.h].key in s.inflight { assert MapOk(s, s.handlers[a.h].key, s.inflight[s.handlers[a.h].key]); }
  }

  lemma HandlerOfOthers(s: State, a: Action, h: nat)
    requires Inv(s) && Enabled(s, a) && IsHandler(s, h) && (Arrival(a) || a.h != h)
    ensures IsHandler(Apply(s, a), h) && Apply(s, a).handlers[h] == s.handlers[h]
  {
    hide HandlerOk, FlightOk, MapOk;
  }

  lemma OwnStep(s: State, a: Action)
    requires Inv(s) && Enabled(s, a) && !Arrival(a)
    ensures IsHandler(s, a.h) && IsHandler(Apply(s, a), a.h) && HandlerOk(Apply(s, a), a.h)
  {
    hide FlightOk;
    assert HandlerOk(s, a.h);
    if s.handlers[a.h].key in s.inflight { assert MapOk(s, s.handlers[a.h].key, s.inflight[s.handlers[a.h].key]); }
  }

  lemma HandlerStep(s: State, a: Action, h: nat)
    requires Inv(s) && Enabled(s, a) && IsHandler(Apply(s, a), h)
    ensures HandlerOk(Apply(s, a), h)
  {
    if !IsHandler(s, h) {
      NewHandler(s, a, h);
    } else if !Arrival(a) && a.h == h {
      OwnStep(s, a);
    } else {
      hide Apply;
      assert HandlerOk(s, h);
      HandlerOfOthers(s, a, h);
      var me := s.handlers[h];
      if me.pc.Closing? || me.pc.Blocked? { FlightKept(s, a, me.pc.f); }
      if !me.role.Outsider? { FlightKept(s, a, me.role.f); }
    }
  }

  lemma NewHandler(s: State, a: Action, h: nat)
    requires Enabled(s, a) && IsHandler(Apply(s, a), h) && !IsHandler(s, h)
    ensures HandlerOk(Apply(s, a), h)
  {
  }

  lemma {:induction false} InvRun(s: State, run: seq<Action>, t: State)
    requires Inv(s) && Reaches(s, run, t)
    ensures Inv(t)
    decreases |run|
  {
    if run != [] {
      InvStep(s, run[0]);
      InvRun(Apply(s, run[0]), run[1..], t);
    }
  }

  lemma ReachableInv(s: State)
    requires Reachable(s)
    ensures Inv(s)
  {
    var run :| Reaches(Init(), run, s);
    InvRun(Init(), run, s);
  }

  // ---------------------------------------------------------------- theorems

  /** Each flight has exactly one leader: one caller for which GetOrWait returned neither a value
      nor `waited`. */
  lemma OneLeaderPerFlight(s: State, f: nat)
    requires Reachable(s) && IsFlight(s, f)
    ensures exists h: nat :: IsHandler(s, h) && s.handlers[h].role == Leader(f)
    ensures forall h: nat, g: nat | IsHandler(s, h) && IsHandler(s, g) && s.handlers[h].role == s.handlers[g].role == Leader(f) :: h == g
  {
    ReachableInv(s);
    assert FlightOk(s, f);
    forall h: nat, g: nat | IsHandler(s, h) && IsHandler(s, g) && s.handlers[h].role == s.handlers[g].role == Leader(f) ensures h == g {
      assert HandlerOk(s, h) && HandlerOk(s, g);
    }
  }

  /** No channel is closed twice: whoever is about to close one finds it open, and is alone. */
  lemma ClosedAtMostOnce(s: State, h: nat)
    requires Reachable(s) && AtFlight(s, h) && s.handlers[h].pc.Closing?
    ensures s.flights[s.handlers[h].pc.f].closes == 0
    ensures forall g: nat | At(s, g, s.handlers[h].pc) :: g == h
  {
    ReachableInv(s);
    var f := s.handlers[h].pc.f;
    assert HandlerOk(s, h) && FlightOk(s, f);
    forall g: nat | At(s, g, s.handlers[h].pc) ensures g == h {
      assert HandlerOk(s, g);
    }
  }

  /** A blocked waiter's flight is registered, about to be closed by its taker, or closed. */
  lemma WaiterIsServed(s: State, h: nat)
    requires Reachable(s) && AtFlight(s, h) && s.handlers[h].pc.Blocked?
    ensures var f := s.handlers[h].pc.f; var k := s.handlers[h].key;
      || (k in s.inflight && s.inflight[k] == f)
      || (exists g: nat :: At(s, g, Closing(f)))
      || s.flights[f].closes == 1
  {
    ReachableInv(s);
    var f := s.handlers[h].pc.f;
    assert HandlerOk(s, h) && FlightOk(s, f);
    if s.flights[f].taker.Some? && s.flights[f].closes == 0 {
      assert At(s, s.flights[f].taker.value, Closing(f));
    }
  }

  /** A caller that joined a flight waits: it goes on only when the flight is closed or its own wait has
      timed out. */
  lemma JoinersWait(s: State, h: nat)
    requires Reachable(s) && IsHandler(s, h) && s.handlers[h].role.Waiter?
    ensures IsFlight(s, s.handlers[h].role.f) && s.flights[s.handlers[h].role.f].key == s.handlers[h].key
    ensures s.handlers[h].pc == Blocked(s.handlers[h].role.f) || s.handlers[h].timedOut || s.flights[s.handlers[h].role.f].closes > 0
  {
    ReachableInv(s);
    assert HandlerOk(s, h);
  }

  /** Nobody ends, or even notifies, without an answer: from the cache, or from its own fetch. */
  lemma EndsWithAnswer(s: State, h: nat)
    requires Reachable(s) && IsHandler(s, h)
    ensures s.handlers[h].pc.Done? || s.handlers[h].pc.Leaked? || s.handlers[h].pc.Notifying? || s.handlers[h].pc.Closing? <==>
            s.handlers[h].answer != NotYet
  {
    ReachableInv(s);
    assert HandlerOk(s, h);
  }

  ghost predicate NoTimeout(run: seq<Action>) { forall i | 0 <= i < |run| :: !run[i].TimeOut? }

  lemma {:induction false} NobodyTimedOut(s: State, run: seq<Action>, t: State)
    requires Reaches(s, run, t) && NoTimeout(run) && forall h | 0 <= h < |s.handlers| :: !s.handlers[h].timedOut
    ensures forall h | 0 <= h < |t.handlers| :: !t.handlers[h].timedOut
    decreases |run|
  {
    if run != [] {
      assert !run[0].TimeOut?;
      forall i | 0 <= i < |run[1..]| ensures !run[1..][i].TimeOut? { assert run[1..][i] == run[i + 1]; }
      NobodyTimedOut(Apply(s, run[0]), run[1..], t);
    }
  }

  /** Without timeouts, until a flight is closed its leader is the only one of those registered on it that
      does not wait: nobody else fetches, notifies or has returned. */
  lemma OnlyLeaderFetches(run: seq<Action>, s: State, f: nat, h: nat)
    requires Reaches(Init(), run, s) && NoTimeout(run) && IsFlight(s, f) && s.flights[f].closes == 0
    requires IsHandler(s, h) && (s.handlers[h].role == Leader(f) || s.handlers[h].role == Waiter(f))
    ensures s.handlers[h].pc == Blocked(f) <==> h != s.flights[f].leader
  {
    assert Reachable(s);
    ReachableInv(s);
    NobodyTimedOut(Init(), run, s);
    assert HandlerOk(s, h) && FlightOk(s, f) && HandlerOk(s, s.flights[f].leader);
  }

  /** A second handler of a cold key does wait. */
  lemma SecondHandlerBlocks(k: Key) returns (run: seq<Action>, s: State)
    ensures Reaches(Init(), run, s) && |s.handlers| == 2
    ensures s.handlers[0] == Handler(k, Fetching, Leader(0), false, NotYet) && s.handlers[1] == Handler(k, Blocked(0), Waiter(0), false, NotYet)
  {
    hide Reaches;
    var leader, flights, map1 := Handler(k, Fetching, Leader(0), false, NotYet), [Flight(k, 0, None, 0)], map[k := 0];
    var s4 := State(map1, flights, [leader]);
    var s5, s6 := Joining(k, Probing), Joining(k, Getting);
    var s7 := Joining(k, Registering);
    s := State(map1, flights, [leader, Handler(k, Blocked(0), Waiter(0), false, NotYet)]);
    ReachesHere(s);
    run := [];
    run := StepFirst(s7, Register(1), s, run, s);
    run := StepFirst(s6, Get(1, false), s7, run, s);
    run := StepFirst(s5, Probe(1, false), s6, run, s);
    run := StepFirst(s4, Arrive(k), s5, run, s);
    run := FromColdKey(k, run, s);
  }

  function Joining(k: Key, pc: Pc): State {
    State(map[k := 0], [Flight(k, 0, None, 0)], [Handler(k, Fetching, Leader(0), false, NotYet), Handler(k, pc, Outsider, false, NotYet)])
  }

  lemma FromColdKey(k: Key, run: seq<Action>, s: State) returns (longer: seq<Action>)
    requires Reaches(State(map[k := 0], [Flight(k, 0, None, 0)], [Handler(k, Fetching, Leader(0), false, NotYet)]), run, s)
    ensures Reaches(Init(), longer, s)
  {
    hide Reaches;
    var s4 := State(map[k := 0], [Flight(k, 0, None, 0)], [Handler(k, Fetching, Leader(0), false, NotYet)]);
    longer := StepFirst(OneHandler(k, Registering), Register(0), s4, run, s);
    longer := StepFirst(OneHandler(k, Getting), Get(0, false), OneHandler(k, Registering), longer, s);
    longer := StepFirst(OneHandler(k, Probing), Probe(0, false), OneHandler(k, Getting), longer, s);
    longer := StepFirst(Init(), Arrive(k), OneHandler(k, Probing), longer, s);
  }

  predicate Running(pc: Pc) { !pc.Done? && !pc.Leaked? }

  /** When no handler runs, a flight that is still registered was left by a leader that
      returned for LOCAL INFILE; without such a return, none is left. */
  lemma NoFlightLeftBehind(s: State)
    requires Reachable(s) && forall h | 0 <= h < |s.handlers| :: !Running(s.handlers[h].pc)
    ensures forall k <- s.inflight :: exists h: nat :: At(s, h, Leaked) && s.handlers[h].key == k && s.handlers[h].role == Leader(s.inflight[k])
    ensures (forall h | 0 <= h < |s.handlers| :: !s.handlers[h].pc.Leaked?) ==> s.inflight == map[]
  {
    ReachableInv(s);
    forall k | k in s.inflight
      ensures exists h: nat :: At(s, h, Leaked) && s.handlers[h].key == k && s.handlers[h].role == Leader(s.inflight[k])
    {
      var f := s.inflight[k];
      assert MapOk(s, k, f) && FlightOk(s, f);
      assert At(s, s.flights[f].leader, Leaked);
    }
  }

  /** A LOCAL INFILE answer does leave its flight registered for good: this run ends with one
      handler, not running, and its flight in the map. */
  lemma InfileLeaksFlight(k: Key) returns (run: seq<Action>, s: State)
    ensures Reaches(Init(), run, s) && |s.handlers| == 1 && s.handlers[0].pc == Leaked && k in s.inflight
  {
    hide Reaches;
    var s4 := State(map[k := 0], [Flight(k, 0, None, 0)], [Handler(k, Fetching, Leader(0), false, NotYet)]);
    s := State(map[k := 0], [Flight(k, 0, None, 0)], [Handler(k, Leaked, Leader(0), false, FromBackend)]);
    ReachesHere(s);
    run := [];
    run := StepFirst(s4, Infile(0), s, run, s);
    run := FromColdKey(k, run, s);
  }

  function OneHandler(k: Key, pc: Pc): State { State(map[], [], [Handler(k, pc, Outsider, false, NotYet)]) }

  lemma ReachesHere(s: State)
    ensures Reaches(s, [], s)
  {
  }

  lemma StepFirst(s: State, a: Action, next: State, run: seq<Action>, t: State) returns (longer: seq<Action>)
    requires Enabled(s, a) && Apply(s, a) == next && Reaches(next, run, t)
    ensures longer == [a] + run && Reaches(s, longer, t)
  {
    longer := [a] + run;
    assert longer[1..] == run;
  }

  // ---------------------------------------------------------------- the wait is not needed

  /** Work left for a handler. */
  function Rank(pc: Pc): nat {
    match pc
    case Probing => 8
    case Getting => 7
    case Registering => 6
    case Blocked(_) => 5
    case Waking => 4
    case Fetching => 3
    case Notifying => 2
    case Closing(_) => 1
    case Done => 0
    case Leaked => 0
  }

  function TotalRank(hs: seq<Handler>): nat {
    if hs == [] then 0 else Rank(hs[0].pc) + TotalRank(hs[1..])
  }

  lemma {:induction false} TotalRankDown(hs: seq<Handler>, h: nat, x: Handler)
    requires h < |hs| && Rank(x.pc) < Rank(hs[h].pc)
    ensures TotalRank(hs[h := x]) < TotalRank(hs)
  {
    if h == 0 {
      assert hs[h := x][1..] == hs[1..];
    } else {
      assert hs[h := x][1..] == hs[1..][h - 1 := x];
      TotalRankDown(hs[1..], h - 1, x);
    }
  }

  predicate Arrival(a: Action) { a.Arrive? || a.ArriveDirect? }

  /** Every step but an arrival brings its handler closer to its end. */
  lemma StepsRunOut(s: State, a: Action)
    requires Enabled(s, a) && !Arrival(a)
    ensures TotalRank(Apply(s, a).handlers) < TotalRank(s.handlers)
  {
    var t := Apply(s, a);
    assert t.handlers == s.handlers[a.h := t.handlers[a.h]];
    TotalRankDown(s.handlers, a.h, t.handlers[a.h]);
  }

  /** Steps of a run in which nobody arrives, times out or is answered with LOCAL INFILE. */
  predicate Regular(a: Action) { !Arrival(a) && !a.TimeOut? && !a.Infile? }

  lemma RunningHandlerMoves(s: State, h: nat) returns (a: Action)
    requires Inv(s) && IsHandler(s, h) && Running(s.handlers[h].pc) && !s.handlers[h].pc.Blocked?
    ensures Enabled(s, a) && Regular(a)
  {
    assert HandlerOk(s, h);
    match s.handlers[h].pc
    case Probing => a := Probe(h, false);
    case Getting => a := Get(h, false);
    case Registering => a := Register(h);
    case Waking => a := GetAgain(h, false);
    case Fetching => a := Fetched(h);
    case Notifying => a := TakeFlight(h);
    case Closing(_) => a := Close(h);
  }

  ghost predicate NoLeak(s: State) { forall h | 0 <= h < |s.handlers| :: !s.handlers[h].pc.Leaked? }

  /** The 15-second safety timeout is never needed to make progress: while some handler runs and no
      leader has returned for LOCAL INFILE, a regular step is enabled. */
  lemma NoTimeoutNeeded(s: State) returns (a: Action)
    requires Inv(s) && NoLeak(s) && (exists h: nat :: IsHandler(s, h) && Running(s.handlers[h].pc))
    ensures Enabled(s, a) && Regular(a)
  {
    var h: nat :| IsHandler(s, h) && Running(s.handlers[h].pc);
    if !s.handlers[h].pc.Blocked? {
      a := RunningHandlerMoves(s, h);
    } else {
      var f := s.handlers[h].pc.f;
      assert HandlerOk(s, h) && FlightOk(s, f);
      if s.flights[f].closes > 0 {
        a := WakeUp(h);
      } else if s.flights[f].taker.Some? {
        a := RunningHandlerMoves(s, s.flights[f].taker.value);
      } else {
        assert MapOk(s, s.handlers[h].key, f);
        a := RunningHandlerMoves(s, s.flights[f].leader);
      }
    }
  }

  lemma RegularStepLeaksNothing(s: State, a: Action)
    requires NoLeak(s) && Enabled(s, a) && Regular(a)
    ensures NoLeak(Apply(s, a))
  {
  }

  ghost predicate AllDone(s: State) { forall h | 0 <= h < |s.handlers| :: s.handlers[h].pc.Done? }

  ghost predicate AllRegular(run: seq<Action>) { forall i | 0 <= i < |run| :: Regular(run[i]) }

  /** From every reachable state without a leak the handlers in progress can all come to their end
      without any timeout, and then no flight is left. */
  lemma EveryHandlerCanEnd(s: State)
    requires Reachable(s) && NoLeak(s)
    ensures exists run, t :: Reaches(s, run, t) && AllRegular(run) && |t.handlers| == |s.handlers| && AllDone(t) && t.inflight == map[]
  {
    ReachableInv(s);
    var run, t := RunToEnd(s);
  }

  lemma RunToEnd(s: State) returns (run: seq<Action>, t: State)
    requires Inv(s) && NoLeak(s)
    ensures Reaches(s, run, t) && AllRegular(run) && |t.handlers| == |s.handlers| && AllDone(t) && t.inflight == map[]
    decreases TotalRank(s.handlers)
  {
    if h: nat :| IsHandler(s, h) && Running(s.handlers[h].pc) {
      hide Reaches, Inv, NoLeak, Enabled, Apply;
      var a := NoTimeoutNeeded(s);
      InvStep(s, a);
      RegularStepLeaksNothing(s, a);
      StepsRunOut(s, a);
      SameHandlers(s, a);
      var rest;
      rest, t := RunToEnd(Apply(s, a));
      run := StepFirst(s, a, Apply(s, a), rest, t);
    } else {
      run, t := [], s;
      AtRest(s);
    }
  }

  lemma SameHandlers(s: State, a: Action)
    requires Enabled(s, a) && Regular(a)
    ensures |Apply(s, a).handlers| == |s.handlers|
  {
  }

  lemma AtRest(s: State)
    requires Inv(s) && NoLeak(s) && (forall h: nat | IsHandler(s, h) :: !Running(s.handlers[h].pc))
    ensures AllDone(s) && s.inflight == map[]
  {
    forall k | k in s.inflight ensures false {
      assert MapOk(s, k, s.inflight[k]);
      assert Running(s.handlers[s.flights[s.inflight[k]].leader].pc);
    }
  }

  /** However regular and other steps are scheduled, a run without arrivals ends: its length is bounded
      by the work left at its start. */
  lemma {:induction false} RunsAreBounded(s: State, run: seq<Action>, t: State)
    requires Reaches(s, run, t) && forall i | 0 <= i < |run| :: !Arrival(run[i])
    ensures |run| + TotalRank(t.handlers) <= TotalRank(s.handlers)
    decreases |run|
  {
    if run != [] {
      StepsRunOut(s, run[0]);
      RunsAreBounded(Apply(s, run[0]), run[1..], t);
    }
  }
}
