/** The agent of internal/agent/server.go as interleaved steps: connections, the request mutex, the idle
    timer, signals, the once-only shutdown and the final cleanup, which does not take the request mutex.
    A step is what runs under one mutex, or between two. */
module Serving {
  import opened Text
  import opened Vault
  import opened Agent
  import M = Manager

  /// ## The sequential store

  /** A critical section of the Manager. */
  datatype Call = Check | TryUnlock(answers: Answers) | DoGet(addr: string) | DoSet(addr: string, value: string)
                | DoList(ns: string) | DoLock

  function Apply<S(!new)>(d: Driver<S>, call: Call, m: M.State<S>): (Reply, M.State<S>) {
    match call
    case Check => (Fine().(unlocked := m.unlocked), m)
    case TryUnlock(answers) => var (err, m') := M.Unlocked(d, Replay(answers), 1, m); (Done(err), m')
    case DoGet(addr) =>
      var (r, m') := M.Got(d, addr, m);
      (match r case Ok(v) => Fine().(value := v) case Err(e) => Refused(e), m')
    case DoSet(addr, value) => var (err, m') := M.Stored(d, addr, value, m); (Done(err), m')
    case DoList(ns) =>
      var (r, m') := M.Listed(d, ns, m);
      (match r case Ok(names) => Fine().(names := names) case Err(e) => Refused(e), m')
    case DoLock => var (err, m') := M.Locked(d, m); (Done(err), m')
  }

  /** A request that nothing interleaves with is handled as the agent handles one request: the calls are
      those of the request, with its reply and its effect. */
  lemma CallsAreHandling<S(!new)>(d: Driver<S>, msg: Message, srv: Server<S>)
    requires CallOf(msg).Some?
    ensures var (reply, after) := Handled(d, msg, srv);
            if msg.Unlock? && !srv.mgr.unlocked
            then Apply(d, TryUnlock(msg.answers), srv.mgr) == (reply, after.mgr) && after.answers == map[]
            else var (r, m) := Apply(d, CallOf(msg).value, srv.mgr);
                 reply == (if msg.Unlock? then Fine() else r) && after.mgr == m && after.answers == srv.answers
  {}

  /** One critical section in the order they happened; `who` is None for the cleanup. */
  datatype Entry = Entry(who: Option<nat>, call: Call, reply: Reply)

  function Replayed<S(!new)>(d: Driver<S>, m: M.State<S>, log: seq<Entry>): M.State<S> {
    if log == [] then m
    else Apply(d, log[|log| - 1].call, Replayed(d, m, log[..|log| - 1])).1
  }

  /** The log is a run of the sequential store from `m`, replies included. */
  ghost predicate Sequential<S(!new)>(d: Driver<S>, m: M.State<S>, log: seq<Entry>) {
    forall i | 0 <= i < |log| :: log[i].reply == Apply(d, log[i].call, Replayed(d, m, log[..i])).0
  }

  /// ## The system

  /** Where a connection's handler is. `since` is the length of the log when the request was read, `at` the
      entry its reply comes from. */
  datatype Pc =
    | Idle
    | Waiting(msg: Message, since: nat)
    | Entered(msg: Message, since: nat)       // holds the request mutex
    | Ready(msg: Message, since: nat)         // and has reset the idle timer, if it has to
    | Checked(answers: Answers, since: nat)   // an unlock that found the vault locked
    | Primed(answers: Answers, since: nat)    // its answers are in the replay prompter
    | Tried(answers: Answers, since: nat, reply: Reply, at: nat)
    | Leaving(msg: Message, since: nat, reply: Reply, at: nat)
    | Replying(msg: Message, since: nat, reply: Reply, at: nat)   // the mutex is free again
    | Closed

  predicate Holds(pc: Pc) {
    pc.Entered? || pc.Ready? || pc.Checked? || pc.Primed? || pc.Tried? || pc.Leaving?
  }

  /** The serving loop; `failed` says that it was left with an error, not by a shutdown. */
  datatype Main = Serving | Returning(failed: bool) | CleanedUp(failed: bool) | Exited(failed: bool)

  datatype Sys<S> = Sys(
    conns: map<nat, Pc>,
    owner: Option<nat>,           // who holds the request mutex
    mgr: M.State<S>,
    answers: Answers,             // in the replay prompter
    clock: int,
    deadline: int,
    armed: map<nat, int>,         // the timers that will fire, with their times
    current: Option<nat>,         // the timer field
    timers: nat,                  // timers made so far
    shutdowns: nat,               // calls of shutdown that have not run yet
    once: bool,
    closes: nat,                  // how often the done channel was closed
    listening: bool,
    main: Main,
    log: seq<Entry>)

  datatype Action =
    | Tick(time: nat) | Fire(timer: nat) | Signal | Shutdown | Accept(c: nat) | AcceptFails | Return | Cleanup | Exit
    | Read(c: nat, msg: Message) | Drop(c: nat) | Acquire(c: nat) | Reset(c: nat) | Act(c: nat)
    | Prime(c: nat) | Try(c: nat) | Clear(c: nat) | Release(c: nat) | Send(c: nat)
    | SendFails(c: nat)

  /** Stops the current timer and starts one for the new deadline; a negative idle time means never. */
  function ResetIdle<S>(idle: int, s: Sys<S>): Sys<S> {
    if idle < 0 then s
    else
      var stopped := if s.current.Some? then s.armed - {s.current.value} else s.armed;
      var at := s.clock + idle;
      s.(deadline := at, armed := stopped[s.timers := at], current := Some(s.timers), timers := s.timers + 1)
  }

  /** Runs a critical section of the Manager and logs it. */
  function Critical<S(!new)>(d: Driver<S>, who: Option<nat>, call: Call, s: Sys<S>): Sys<S> {
    var (reply, m) := Apply(d, call, s.mgr);
    s.(mgr := m, log := s.log + [Entry(who, call, reply)])
  }

  function At<S>(s: Sys<S>, c: nat): Pc {
    if c in s.conns then s.conns[c] else Closed
  }

  function Move<S>(s: Sys<S>, c: nat, pc: Pc): Sys<S> {
    s.(conns := s.conns[c := pc])
  }

  /** The Manager call a message makes once it is ready; unlock looks first. */
  function CallOf(msg: Message): Option<Call> {
    match msg
    case Unlock(_) => Some(Check)
    case Get(addr) => Some(DoGet(addr))
    case Set(addr, value) => Some(DoSet(addr, value))
    case List(ns) => Some(DoList(ns))
    case Status => Some(Check)
    case Lock => Some(DoLock)
    case Other => None
  }

  function Acted<S(!new)>(d: Driver<S>, c: nat, msg: Message, since: nat, s: Sys<S>): Sys<S> {
    if CallOf(msg).None? then Move(s, c, Leaving(msg, since, Refused({}), |s.log|))
    else
      var s' := Critical(d, Some(c), CallOf(msg).value, s);
      var reply := s'.log[|s.log|].reply;
      if !msg.Unlock? then Move(s', c, Leaving(msg, since, reply, |s.log|))
      else if reply.unlocked then Move(s', c, Leaving(msg, since, Fine(), |s.log|))
      else Move(s', c, Checked(msg.answers, since))
  }

  /** One step, or None where it cannot be taken. */
  function Step<S(!new)>(d: Driver<S>, idle: int, s: Sys<S>, a: Action): Option<Sys<S>> {
    if s.main.Exited? then None
    else
      match a
      case Tick(time) => Some(s.(clock := s.clock + time))
      case Fire(t) =>
        if t in s.armed && s.armed[t] <= s.clock then Some(s.(armed := s.armed - {t}, shutdowns := s.shutdowns + 1)) else None
      case Signal => Some(s.(shutdowns := s.shutdowns + 1))
      case Shutdown =>
        if s.shutdowns == 0 then None
        else if s.once then Some(s.(shutdowns := s.shutdowns - 1))
        else Some(s.(shutdowns := s.shutdowns - 1, once := true, closes := s.closes + 1, listening := false))
      case Accept(c) => if s.main.Serving? && s.listening && c !in s.conns then Some(Move(s, c, Idle)) else None
      case AcceptFails => if s.main.Serving? then Some(s.(main := Returning(!s.once))) else None
      case Return => if s.main.Serving? && !s.listening then Some(s.(main := Returning(false))) else None
      case Cleanup => if s.main.Returning? then Some(Critical(d, None, DoLock, s).(main := CleanedUp(s.main.failed))) else None
      case Exit => if s.main.CleanedUp? then Some(s.(main := Exited(s.main.failed))) else None
      case Read(c, msg) => if At(s, c).Idle? then Some(Move(s, c, Waiting(msg, |s.log|))) else None
      case Drop(c) => if At(s, c).Idle? then Some(Move(s, c, Closed)) else None
      case Acquire(c) =>
        if At(s, c).Waiting? && s.owner.None?
        then Some(Move(s.(owner := Some(c)), c, Entered(At(s, c).msg, At(s, c).since))) else None
      case Reset(c) =>
        if !At(s, c).Entered? then None
        else
          var s' := if At(s, c).msg.Status? then s else ResetIdle(idle, s);
          Some(Move(s', c, Ready(At(s, c).msg, At(s, c).since)))
      case Act(c) => if At(s, c).Ready? then Some(Acted(d, c, At(s, c).msg, At(s, c).since, s)) else None
      case Prime(c) =>
        if At(s, c).Checked?
        then Some(Move(s.(answers := At(s, c).answers), c, Primed(At(s, c).answers, At(s, c).since))) else None
      case Try(c) =>
        if !At(s, c).Primed? then None
        else
          var s' := Critical(d, Some(c), TryUnlock(s.answers), s);
          Some(Move(s', c, Tried(At(s, c).answers, At(s, c).since, s'.log[|s.log|].reply, |s.log|)))
      case Clear(c) =>
        if At(s, c).Tried?
        then Some(Move(s.(answers := map[]), c,
                       Leaving(Unlock(At(s, c).answers), At(s, c).since, At(s, c).reply, At(s, c).at))) else None
      case Release(c) =>
        if At(s, c).Leaving?
        then Some(Move(s.(owner := None), c, Replying(At(s, c).msg, At(s, c).since, At(s, c).reply, At(s, c).at))) else None
      case Send(c) =>
        if !At(s, c).Replying? then None
        else if At(s, c).msg.Lock? && At(s, c).reply.ok then Some(Move(s.(shutdowns := s.shutdowns + 1), c, Closed))
        else Some(Move(s, c, Idle))
      case SendFails(c) => if At(s, c).Replying? then Some(Move(s, c, Closed)) else None
  }

  /** The agent when it starts to serve: configured and locked, with the first timer running. */
  function Start<S>(idle: int, m: M.State<S>, now: int): Sys<S> {
    ResetIdle(idle, Sys(map[], None, m, map[], now, now, map[], None, 0, 0, false, 0, true, Serving, []))
  }

  /// ## What every step keeps

  /** The reply comes from a critical section of this request, logged after the request was read. */
  ghost predicate FromLog<S>(s: Sys<S>, c: nat, msg: Message, since: nat, reply: Reply, at: nat) {
    match CallOf(msg)
    case None => reply == Refused({})
    case Some(call) =>
      && since <= at < |s.log| && s.log[at].who == Some(c)
      && if !msg.Unlock? then s.log[at].call == call && reply == s.log[at].reply
         else || (s.log[at].call == Check && s.log[at].reply.unlocked && reply == Fine())
              || (s.log[at].call == TryUnlock(msg.answers) && reply == s.log[at].reply)
  }

  ghost predicate PcOk<S>(s: Sys<S>, c: nat) {
    match At(s, c)
    case Idle => true
    case Waiting(_, since) => since <= |s.log|
    case Entered(_, since) => since <= |s.log|
    case Ready(_, since) => since <= |s.log|
    case Checked(_, since) => since <= |s.log|
    case Primed(answers, since) => since <= |s.log| && s.answers == answers
    case Tried(answers, since, reply, at) => FromLog(s, c, Unlock(answers), since, reply, at)
    case Leaving(msg, since, reply, at) => FromLog(s, c, msg, since, reply, at)
    case Replying(msg, since, reply, at) => FromLog(s, c, msg, since, reply, at)
    case Closed => true
  }

  ghost predicate Inv<S(!new)>(d: Driver<S>, m: M.State<S>, s: Sys<S>) {
    // one request at a time
    && (forall c: nat :: Holds(At(s, c)) <==> s.owner == Some(c))
    // no answers lie around unless an unlock is under way
    && (s.answers != map[] ==> s.owner.Some? && (At(s, s.owner.value).Primed? || At(s, s.owner.value).Tried?))
    && (forall c: nat :: PcOk(s, c))
    // the Manager went through the log, one entry after the other
    && Sequential(d, m, s.log) && s.mgr == Replayed(d, m, s.log)
    // at most one timer, for the current deadline
    && (forall t | t in s.armed :: s.current == Some(t) && t < s.timers && s.armed[t] == s.deadline)
    && (s.current.Some? ==> s.current.value < s.timers)
    // shut down at most once
    && s.closes == (if s.once then 1 else 0) && s.listening == !s.once
    // the loop is left by a shutdown or with an error
    && (!s.main.Serving? && !s.main.failed ==> s.once)
  }

  lemma {:induction false} SequentialSnoc<S(!new)>(d: Driver<S>, m: M.State<S>, log: seq<Entry>, e: Entry)
    requires Sequential(d, m, log) && e.reply == Apply(d, e.call, Replayed(d, m, log)).0
    ensures Sequential(d, m, log + [e])
    ensures Replayed(d, m, log + [e]) == Apply(d, e.call, Replayed(d, m, log)).1
  {
    var more := log + [e];
    assert more[..|log|] == log;
    forall i | 0 <= i < |more| ensures more[i].reply == Apply(d, more[i].call, Replayed(d, m, more[..i])).0 {
      if i < |log| {
        assert more[..i] == log[..i];
      }
    }
  }

  lemma StartInv<S(!new)>(d: Driver<S>, idle: int, m: M.State<S>, now: int)
    ensures Inv(d, m, Start(idle, m, now))
  {}

  lemma LogGrows<S>(s: Sys<S>, s': Sys<S>, c: nat, msg: Message, since: nat, reply: Reply, at: nat)
    requires s.log <= s'.log && FromLog(s, c, msg, since, reply, at)
    ensures FromLog(s', c, msg, since, reply, at)
  {}

  /** A connection that did not move is as well off as before, if the prompter was not touched under it. */
  lemma PcKept<S>(s: Sys<S>, s': Sys<S>, c: nat)
    requires s.log <= s'.log && At(s', c) == At(s, c) && PcOk(s, c) && (At(s, c).Primed? ==> s'.answers == s.answers)
    ensures PcOk(s', c)
  {
    if At(s, c).Tried? {
      LogGrows(s, s', c, Unlock(At(s, c).answers), At(s, c).since, At(s, c).reply, At(s, c).at);
    } else if At(s, c).Leaving? || At(s, c).Replying? {
      LogGrows(s, s', c, At(s, c).msg, At(s, c).since, At(s, c).reply, At(s, c).at);
    }
  }

  lemma CriticalInv<S(!new)>(d: Driver<S>, m: M.State<S>, who: Option<nat>, call: Call, s: Sys<S>)
    requires Inv(d, m, s)
    ensures var s' := Critical(d, who, call, s);
            Inv(d, m, s') && s'.log == s.log + [Entry(who, call, Apply(d, call, s.mgr).0)] && s'.answers == s.answers
  {
    var s' := Critical(d, who, call, s);
    SequentialSnoc(d, m, s.log, s'.log[|s.log|]);
    hide Apply, Replayed, Sequential, PcOk;
    forall c: nat ensures PcOk(s', c) {
      PcKept(s, s', c);
    }
  }

  /** A step of one connection that leaves the log and the prompter alone. */
  lemma MovedInv<S(!new)>(d: Driver<S>, m: M.State<S>, s: Sys<S>, s': Sys<S>, c: nat, pc: Pc)
    requires Inv(d, m, s) && s' == Move(s.(owner := s'.owner, answers := s'.answers, shutdowns := s'.shutdowns), c, pc)
    requires s'.owner == if Holds(pc) then Some(c) else if Holds(At(s, c)) then None else s.owner
    requires Holds(pc) ==> s.owner.None? || s.owner == Some(c)
    requires PcOk(s', c)
    requires s'.answers != s.answers ==> Holds(At(s, c))
    requires s'.answers != map[] ==> if pc.Primed? || pc.Tried? then true else s.owner != Some(c) && s.answers != map[]
    ensures Inv(d, m, s')
  {
    hide Apply, Replayed, Sequential, PcOk;
    forall x: nat ensures PcOk(s', x) {
      if x != c {
        if s'.answers != s.answers {
          OthersDoNotHold(d, m, s, c, x);
        }
        PcKept(s, s', x);
      }
    }
  }

  lemma OthersDoNotHold<S(!new)>(d: Driver<S>, m: M.State<S>, s: Sys<S>, c: nat, x: nat)
    requires Inv(d, m, s) && x != c && Holds(At(s, c))
    ensures !Holds(At(s, x))
  {}

  lemma ResetInv<S(!new)>(d: Driver<S>, idle: int, m: M.State<S>, s: Sys<S>)
    requires Inv(d, m, s)
    ensures Inv(d, m, ResetIdle(idle, s))
  {
    hide Apply, Replayed, Sequential, PcOk;
    forall c: nat ensures PcOk(ResetIdle(idle, s), c) {
      PcKept(s, ResetIdle(idle, s), c);
    }
  }

  lemma ActedInv<S(!new)>(d: Driver<S>, m: M.State<S>, s: Sys<S>, c: nat)
    requires Inv(d, m, s) && At(s, c).Ready?
    ensures Inv(d, m, Acted(d, c, At(s, c).msg, At(s, c).since, s))
  {
    hide Apply, Replayed, Sequential;
    assert PcOk(s, c) && s.owner == Some(c);
    if CallOf(At(s, c).msg).None? {
      var msg, since := At(s, c).msg, At(s, c).since;
      MovedInv(d, m, s, Acted(d, c, msg, since, s), c, Leaving(msg, since, Refused({}), |s.log|));
    } else {
      CalledInv(d, m, s, c);
    }
  }

  lemma CalledInv<S(!new)>(d: Driver<S>, m: M.State<S>, s: Sys<S>, c: nat)
    requires Inv(d, m, s) && At(s, c).Ready? && CallOf(At(s, c).msg).Some?
    ensures Inv(d, m, Acted(d, c, At(s, c).msg, At(s, c).since, s))
  {
    hide Apply, Replayed, Sequential;
    var msg := At(s, c).msg;
    assert PcOk(s, c) && s.owner == Some(c);
    var s' := Acted(d, c, msg, At(s, c).since, s);
    var s1 := Critical(d, Some(c), CallOf(msg).value, s);
    CriticalInv(d, m, Some(c), CallOf(msg).value, s);
    hide Inv;
    MovedInv(d, m, s1, s', c, At(s', c));
  }

  lemma IncomingInv<S(!new)>(d: Driver<S>, idle: int, m: M.State<S>, s: Sys<S>, a: Action)
    requires Inv(d, m, s) && Step(d, idle, s, a).Some? && (a.Accept? || a.Read? || a.Drop?)
    ensures Inv(d, m, Step(d, idle, s, a).value)
  {
    hide Apply, Replayed, Sequential, FromLog, Acted, ResetIdle, Critical;
    assert !Holds(At(s, a.c)) && PcOk(s, a.c);
    var s' := Step(d, idle, s, a).value;
    MovedInv(d, m, s, s', a.c, At(s', a.c));
  }

  lemma SentInv<S(!new)>(d: Driver<S>, idle: int, m: M.State<S>, s: Sys<S>, a: Action)
    requires Inv(d, m, s) && Step(d, idle, s, a).Some? && (a.Send? || a.SendFails?)
    ensures Inv(d, m, Step(d, idle, s, a).value)
  {
    hide Apply, Replayed, Sequential, FromLog, Acted, ResetIdle, Critical;
    assert !Holds(At(s, a.c)) && PcOk(s, a.c);
    var s' := Step(d, idle, s, a).value;
    MovedInv(d, m, s, s', a.c, At(s', a.c));
  }

  lemma MutexInv<S(!new)>(d: Driver<S>, idle: int, m: M.State<S>, s: Sys<S>, a: Action)
    requires Inv(d, m, s) && Step(d, idle, s, a).Some? && (a.Acquire? || a.Release?)
    ensures Inv(d, m, Step(d, idle, s, a).value)
  {
    hide Apply, Replayed, Sequential;
    assert PcOk(s, a.c) && (Holds(At(s, a.c)) <==> s.owner == Some(a.c));
    var s' := Step(d, idle, s, a).value;
    MovedInv(d, m, s, s', a.c, At(s', a.c));
  }

  lemma PrompterInv<S(!new)>(d: Driver<S>, idle: int, m: M.State<S>, s: Sys<S>, a: Action)
    requires Inv(d, m, s) && Step(d, idle, s, a).Some? && (a.Prime? || a.Clear?)
    ensures Inv(d, m, Step(d, idle, s, a).value)
  {
    hide Apply, Replayed, Sequential;
    assert PcOk(s, a.c) && s.owner == Some(a.c);
    var s' := Step(d, idle, s, a).value;
    MovedInv(d, m, s, s', a.c, At(s', a.c));
  }

  lemma ReadyInv<S(!new)>(d: Driver<S>, idle: int, m: M.State<S>, s: Sys<S>, c: nat)
    requires Inv(d, m, s) && Step(d, idle, s, Reset(c)).Some?
    ensures Inv(d, m, Step(d, idle, s, Reset(c)).value)
  {
    hide Apply, Replayed, Sequential;
    assert PcOk(s, c) && s.owner == Some(c);
    ResetInv(d, idle, m, s);
    var s' := Step(d, idle, s, Reset(c)).value;
    MovedInv(d, m, if At(s, c).msg.Status? then s else ResetIdle(idle, s), s', c, At(s', c));
  }

  lemma TryInv<S(!new)>(d: Driver<S>, idle: int, m: M.State<S>, s: Sys<S>, c: nat)
    requires Inv(d, m, s) && Step(d, idle, s, Try(c)).Some?
    ensures Inv(d, m, Step(d, idle, s, Try(c)).value)
  {
    hide Apply, Replayed, Sequential;
    assert PcOk(s, c) && s.owner == Some(c);
    CriticalInv(d, m, Some(c), TryUnlock(s.answers), s);
    var s' := Step(d, idle, s, Try(c)).value;
    MovedInv(d, m, Critical(d, Some(c), TryUnlock(s.answers), s), s', c, At(s', c));
  }

  lemma ElsewhereInv<S(!new)>(d: Driver<S>, idle: int, m: M.State<S>, s: Sys<S>, a: Action)
    requires Inv(d, m, s) && Step(d, idle, s, a).Some?
    requires a.Tick? || a.Fire? || a.Signal? || a.Shutdown? || a.AcceptFails? || a.Return? || a.Exit? || a.Cleanup?
    ensures Inv(d, m, Step(d, idle, s, a).value)
  {
    hide Apply, Replayed, Sequential, PcOk;
    if a.Cleanup? {
      CriticalInv(d, m, None, DoLock, s);
    }
    var s' := Step(d, idle, s, a).value;
    forall c: nat ensures PcOk(s', c) {
      PcKept(s, s', c);
    }
  }

  /** Every step of every interleaving keeps the invariant. */
  lemma StepInv<S(!new)>(d: Driver<S>, idle: int, m: M.State<S>, s: Sys<S>, a: Action)
    requires Inv(d, m, s) && Step(d, idle, s, a).Some?
    ensures Inv(d, m, Step(d, idle, s, a).value)
  {
    if a.Act? {
      ActedInv(d, m, s, a.c);
    } else {
      hide Step, Inv;
      if a.Accept? || a.Read? || a.Drop? {
        IncomingInv(d, idle, m, s, a);
      } else if a.Send? || a.SendFails? {
        SentInv(d, idle, m, s, a);
      } else if a.Acquire? || a.Release? {
        MutexInv(d, idle, m, s, a);
      } else if a.Prime? || a.Clear? {
        PrompterInv(d, idle, m, s, a);
      } else if a.Reset? {
        ReadyInv(d, idle, m, s, a.c);
      } else if a.Try? {
        TryInv(d, idle, m, s, a.c);
      } else {
        ElsewhereInv(d, idle, m, s, a);
      }
    }
  }

  /// ## Whole runs

  ghost predicate IsRun<S(!new)>(d: Driver<S>, idle: int, states: seq<Sys<S>>, actions: seq<Action>) {
    && |states| == |actions| + 1
    && forall i | 0 <= i < |actions| :: Step(d, idle, states[i], actions[i]) == Some(states[i + 1])
  }

  /** Every state of every run from the start satisfies the invariant: one request at a time, no answers in
      the prompter while the mutex is free, at most one timer, the done channel closed at most once, and
      the Manager where the log of its critical sections, run one after the other, puts it. */
  lemma {:induction false} RunInv<S(!new)>(d: Driver<S>, idle: int, m: M.State<S>, now: int, states: seq<Sys<S>>,
                                           actions: seq<Action>, n: nat)
    requires IsRun(d, idle, states, actions) && states[0] == Start(idle, m, now) && n < |states|
    ensures Inv(d, m, states[n])
  {
    if n == 0 {
      StartInv(d, idle, m, now);
    } else {
      RunInv(d, idle, m, now, states, actions, n - 1);
      assert Step(d, idle, states[n - 1], actions[n - 1]) == Some(states[n - 1 + 1]);
      StepInv(d, idle, m, states[n - 1], actions[n - 1]);
    }
  }

  /** A reply about to be sent is that of a critical section of its own request, logged between reading the
      request and now: the log is a linearization. */
  lemma Linearizes<S(!new)>(d: Driver<S>, m: M.State<S>, s: Sys<S>, c: nat)
    requires Inv(d, m, s) && At(s, c).Replying? && CallOf(At(s, c).msg).Some?
    ensures var pc := At(s, c);
            && Sequential(d, m, s.log) && pc.since <= pc.at < |s.log| && s.log[pc.at].who == Some(c)
            && (!pc.msg.Unlock? ==>
                 pc.reply == Apply(d, CallOf(pc.msg).value, Replayed(d, m, s.log[..pc.at])).0)
            && (pc.msg.Unlock? && pc.reply.ok ==>
                 var before := Replayed(d, m, s.log[..pc.at]);
                 before.unlocked || M.Unlocked(d, Replay(pc.msg.answers), 1, before).0.None?)
  {
    assert PcOk(s, c);
  }

  /** A status reply tells whether the vault was unlocked at some point between reading the request and now. */
  lemma StatusTells<S(!new)>(d: Driver<S>, m: M.State<S>, s: Sys<S>, c: nat)
    requires Inv(d, m, s) && At(s, c).Replying? && At(s, c).msg.Status?
    ensures var pc := At(s, c);
            pc.since <= pc.at < |s.log| && pc.reply.ok && (pc.reply.unlocked <==> Replayed(d, m, s.log[..pc.at]).unlocked)
  {
    assert PcOk(s, c);
  }

  /** No connection is accepted once the server has shut down, and nothing happens once it has exited. */
  lemma NoneAccepted<S(!new)>(d: Driver<S>, idle: int, m: M.State<S>, s: Sys<S>, a: Action)
    requires Inv(d, m, s) && Step(d, idle, s, a).Some?
    ensures !s.main.Exited? && (a.Accept? ==> !s.once && s.main.Serving?)
  {
    hide Apply;
  }

  /// ## Locked and unlocked

  lemma LogStep<S(!new)>(d: Driver<S>, m: M.State<S>, log: seq<Entry>, i: nat)
    requires Sequential(d, m, log) && i < |log|
    ensures var before := Replayed(d, m, log[..i]);
            (log[i].reply, Replayed(d, m, log[..i + 1])) == Apply(d, log[i].call, before)
  {
    assert log[..i + 1][..i] == log[..i];
  }

  lemma OnlyUnlockUnlocks<S(!new)>(d: Driver<S>, call: Call, m: M.State<S>)
    ensures call.DoLock? ==> !Apply(d, call, m).1.unlocked
    ensures !call.TryUnlock? && !call.DoLock? ==> Apply(d, call, m).1.unlocked == m.unlocked
    ensures call.TryUnlock? && m.configured ==> (Apply(d, call, m).0.ok <==> Apply(d, call, m).1.unlocked)
    ensures (call.DoGet? || call.DoSet? || call.DoList?) && Apply(d, call, m).0.ok ==> m.unlocked
    ensures !call.DoLock? && m.unlocked ==> Apply(d, call, m).1.unlocked
  {
    if call.TryUnlock? {
      M.UnlockMeaning(d, Replay(call.answers), 1, m);
      hide M.Unlocked;
    }
  }

  /** An unlock that succeeded, with no lock since, before point `i` of the log. */
  ghost predicate Opens(log: seq<Entry>, j: nat, i: nat) {
    j < i <= |log| && log[j].call.TryUnlock? && log[j].reply.ok && forall k | j < k < i :: !log[k].call.DoLock?
  }

  /** What one entry of the log does to the lock. */
  lemma LockStep<S(!new)>(d: Driver<S>, m: M.State<S>, log: seq<Entry>, n: nat)
    requires Sequential(d, m, log) && m.configured && n < |log|
    ensures var was, now := Replayed(d, m, log[..n]).unlocked, Replayed(d, m, log[..n + 1]).unlocked;
            match log[n].call
            case DoLock => !now
            case TryUnlock(_) => (log[n].reply.ok <==> now) && (was ==> now)
            case _ => now == was
  {
    LogStep(d, m, log, n);
    StaysConfigured(d, m, log[..n]);
    OnlyUnlockUnlocks(d, log[n].call, Replayed(d, m, log[..n]));
    hide Apply, Sequential, Replayed;
  }

  /** If the store is unlocked at a point of the log after being locked at an earlier one, an unlock succeeded
      between the two with no lock since. */
  lemma {:induction false} UnlockBefore<S(!new)>(d: Driver<S>, m: M.State<S>, log: seq<Entry>, from: nat, i: nat) returns (j: nat)
    requires Sequential(d, m, log) && m.configured && from <= i <= |log|
    requires !Replayed(d, m, log[..from]).unlocked && Replayed(d, m, log[..i]).unlocked
    ensures from <= j && Opens(log, j, i)
  {
    hide Sequential, Replayed;
    var n: int := i - 1;
    assert i > from;
    LockStep(d, m, log, n);
    if log[n].call.TryUnlock? {
      j := n;
    } else {
      j := UnlockBefore(d, m, log, from, n);
    }
  }

  /** And such an unlock leaves it unlocked. */
  lemma {:induction false} UnlockedSince<S(!new)>(d: Driver<S>, m: M.State<S>, log: seq<Entry>, j: nat, i: nat)
    requires Sequential(d, m, log) && m.configured && Opens(log, j, i)
    ensures Replayed(d, m, log[..i]).unlocked
  {
    hide Sequential, Replayed;
    var n: int := i - 1;
    LockStep(d, m, log, n);
    if n > j {
      UnlockedSince(d, m, log, j, n);
    }
  }

  /** After a lock, the store is unlocked exactly if an unlock has succeeded since, with no lock after it. */
  lemma UnlockedSinceIff<S(!new)>(d: Driver<S>, m: M.State<S>, log: seq<Entry>, k: nat)
    requires Sequential(d, m, log) && m.configured && k < |log| && log[k].call.DoLock?
    ensures Replayed(d, m, log).unlocked <==> exists j :: k < j && Opens(log, j, |log|)
  {
    assert log[..|log|] == log;
    hide Sequential, Replayed;
    LockStep(d, m, log, k);
    if Replayed(d, m, log).unlocked {
      var j := UnlockBefore(d, m, log, k + 1, |log|);
    }
    if exists j :: k < j && Opens(log, j, |log|) {
      var j :| k < j && Opens(log, j, |log|);
      UnlockedSince(d, m, log, j, |log|);
    }
  }

  lemma {:induction false} StaysConfigured<S(!new)>(d: Driver<S>, m: M.State<S>, log: seq<Entry>)
    ensures Replayed(d, m, log).configured == m.configured
  {
    if log != [] {
      var init, call := log[..|log| - 1], log[|log| - 1].call;
      StaysConfigured(d, m, init);
      if call.TryUnlock? {
        M.UnlockMeaning(d, Replay(call.answers), 1, Replayed(d, m, init));
      }
    }
  }

  /** A connection is given a value, a listing or a stored secret's acknowledgement only between a
      successful unlock and the next lock. */
  lemma AccessOnlyWhileUnlocked<S(!new)>(d: Driver<S>, m: M.State<S>, s: Sys<S>, c: nat) returns (j: nat)
    requires Inv(d, m, s) && m.configured && !m.unlocked
    requires At(s, c).Replying? && At(s, c).reply.ok && (At(s, c).msg.Get? || At(s, c).msg.Set? || At(s, c).msg.List?)
    ensures var at := At(s, c).at;
            at < |s.log| && s.log[at].who == Some(c) && Opens(s.log, j, at)
  {
    var at := At(s, c).at;
    assert PcOk(s, c);
    OnlyUnlockUnlocks(d, s.log[at].call, Replayed(d, m, s.log[..at]));
    j := UnlockBefore(d, m, s.log, 0, at);
  }

  /// ## The idle timer

  /** A request other than status, and nothing else, moves the deadline, to a full idle time from now, and then one
      timer is left, for that deadline; with a negative idle time there is none. */
  lemma DeadlineMoves<S(!new)>(d: Driver<S>, idle: int, m: M.State<S>, s: Sys<S>, a: Action)
    requires Inv(d, m, s) && Step(d, idle, s, a).Some?
    ensures var s' := Step(d, idle, s, a).value;
            if a.Reset? && !At(s, a.c).msg.Status? && idle >= 0
            then s'.deadline == s.clock + idle && s'.current.Some? && s'.armed == map[s'.current.value := s'.deadline]
            else s'.deadline == s.deadline && s'.current == s.current
  {
    if a.Act? {
      ActsOnNoTimer(d, s, a.c, At(s, a.c).msg, At(s, a.c).since);
    } else if a.Reset? {
      ResetTimer(d, idle, m, s);
    }
    hide Apply, Acted, ResetIdle, Inv;
  }

  lemma ActsOnNoTimer<S(!new)>(d: Driver<S>, s: Sys<S>, c: nat, msg: Message, since: nat)
    ensures var s' := Acted(d, c, msg, since, s); s'.deadline == s.deadline && s'.current == s.current
  {
    hide Apply;
  }

  lemma ResetTimer<S(!new)>(d: Driver<S>, idle: int, m: M.State<S>, s: Sys<S>)
    requires Inv(d, m, s)
    ensures var s' := ResetIdle(idle, s);
            if idle >= 0
            then s'.deadline == s.clock + idle && s'.current.Some? && s'.armed == map[s'.current.value := s'.deadline]
            else s' == s
  {}

  /** The timer fires at the deadline or later, never before. */
  lemma FiresAtTheDeadline<S(!new)>(d: Driver<S>, idle: int, m: M.State<S>, s: Sys<S>, t: nat)
    requires Inv(d, m, s) && Step(d, idle, s, Fire(t)).Some?
    ensures s.deadline <= s.clock && Step(d, idle, s, Fire(t)).value.armed == map[]
  {
    forall x | x in s.armed ensures x == t {
      assert s.current == Some(x) && s.current == Some(t);
    }
  }

  /// ## What brings a shutdown

  /** The idle timer, a signal, and a lock that succeeded, once its reply is sent. */
  predicate Triggers<S>(s: Sys<S>, a: Action) {
    || a.Fire? || a.Signal?
    || (a.Send? && At(s, a.c).Replying? && At(s, a.c).msg.Lock? && At(s, a.c).reply.ok)
  }

  /** A shutdown has run, or is bound to. */
  predicate ShuttingDown<S>(s: Sys<S>) {
    s.once || s.shutdowns > 0
  }

  lemma ShutdownStep<S(!new)>(d: Driver<S>, idle: int, s: Sys<S>, a: Action)
    requires Step(d, idle, s, a).Some?
    ensures ShuttingDown(Step(d, idle, s, a).value) <==> ShuttingDown(s) || Triggers(s, a)
  {
    if a.Act? {
      ActsOnNoShutdown(d, s, a.c, At(s, a.c).msg, At(s, a.c).since);
    } else if a.Reset? {
      ResetKeeps(idle, s);
    }
    hide Apply, Acted, ResetIdle;
  }

  /** The server is shutting down exactly if its timer has fired, a signal has come, or a lock has succeeded. */
  lemma {:induction false} ShutdownIff<S(!new)>(d: Driver<S>, idle: int, m: M.State<S>, now: int, states: seq<Sys<S>>,
                                                actions: seq<Action>, n: nat)
    requires IsRun(d, idle, states, actions) && states[0] == Start(idle, m, now) && n < |states|
    ensures ShuttingDown(states[n]) <==> exists i :: 0 <= i < n && Triggers(states[i], actions[i])
  {
    hide Step, Triggers;
    if n > 0 {
      ShutdownIff(d, idle, m, now, states, actions, n - 1);
      assert Step(d, idle, states[n - 1], actions[n - 1]) == Some(states[n - 1 + 1]);
      ShutdownStep(d, idle, states[n - 1], actions[n - 1]);
    }
  }

  /** A connection is closed by the reply to a lock that succeeded, by a reply that cannot be sent and by its client, and
      stays open after any other reply. */
  lemma ConnectionEnds<S(!new)>(d: Driver<S>, idle: int, s: Sys<S>, a: Action, c: nat)
    requires Step(d, idle, s, a).Some? && (a == Send(c) || a == SendFails(c) || a == Drop(c))
    ensures var s' := Step(d, idle, s, a).value;
            c in s'.conns && s'.conns[c] == if a.Send? && !Triggers(s, a) then Idle else Closed
  {
    hide Apply;
  }

  /** For good. */
  lemma ClosedForGood<S(!new)>(d: Driver<S>, idle: int, s: Sys<S>, a: Action, c: nat)
    requires Step(d, idle, s, a).Some? && c in s.conns && s.conns[c].Closed?
    ensures var s' := Step(d, idle, s, a).value; c in s'.conns && s'.conns[c].Closed?
  {
    if a.Act? {
      ActsOnConnections(d, s, a.c, At(s, a.c).msg, At(s, a.c).since);
    } else if a.Reset? {
      ResetKeeps(idle, s);
    }
    hide Apply, Acted, ResetIdle;
  }

  lemma ActsOnConnections<S(!new)>(d: Driver<S>, s: Sys<S>, c: nat, msg: Message, since: nat)
    ensures var s' := Acted(d, c, msg, since, s);
            forall x | x in s.conns && x != c :: x in s'.conns && s'.conns[x] == s.conns[x]
  {
    hide Apply;
  }

  /// ## After the cleanup

  lemma LogGrowsByStep<S(!new)>(d: Driver<S>, idle: int, s: Sys<S>, a: Action)
    requires Step(d, idle, s, a).Some?
    ensures s.log <= Step(d, idle, s, a).value.log
  {
    if a.Act? {
      ActsOnItself(d, s, a.c, At(s, a.c).msg, At(s, a.c).since);
    } else if a.Reset? {
      ResetKeeps(idle, s);
    }
    hide Apply, Acted, ResetIdle;
  }

  lemma ActsOnItself<S(!new)>(d: Driver<S>, s: Sys<S>, c: nat, msg: Message, since: nat)
    ensures var s' := Acted(d, c, msg, since, s);
            (forall x: nat | x != c :: At(s', x) == At(s, x)) && (!msg.Unlock? ==> At(s', c).Leaving?)
            && s.log <= s'.log
  {
    hide Apply;
  }

  lemma ActsOnNoShutdown<S(!new)>(d: Driver<S>, s: Sys<S>, c: nat, msg: Message, since: nat)
    ensures var s' := Acted(d, c, msg, since, s); s'.once == s.once && s'.shutdowns == s.shutdowns
  {
    hide Apply;
  }

  lemma ResetKeeps<S>(idle: int, s: Sys<S>)
    ensures var s' := ResetIdle(idle, s);
            s'.conns == s.conns && s'.log == s.log && s'.once == s.once && s'.shutdowns == s.shutdowns
  {}

  lemma {:induction false} LogGrowsInRun<S(!new)>(d: Driver<S>, idle: int, states: seq<Sys<S>>, actions: seq<Action>,
                                                  i: nat, n: nat)
    requires IsRun(d, idle, states, actions) && i <= n < |states|
    ensures states[i].log <= states[n].log
  {
    hide Step;
    if i < n {
      LogGrowsInRun(d, idle, states, actions, i, n - 1);
      assert Step(d, idle, states[n - 1], actions[n - 1]) == Some(states[n - 1 + 1]);
      LogGrowsByStep(d, idle, states[n - 1], actions[n - 1]);
    }
  }

  lemma CleanupStep<S(!new)>(d: Driver<S>, idle: int, s: Sys<S>, a: Action)
    requires Step(d, idle, s, a).Some?
    ensures var s' := Step(d, idle, s, a).value;
            (s'.main.CleanedUp? || s'.main.Exited?) <==> s.main.CleanedUp? || s.main.Exited? || a.Cleanup?
  {
    if a.Act? {
      ActsOnNoLoop(d, s, a.c, At(s, a.c).msg, At(s, a.c).since);
    }
    hide Apply, Acted;
  }

  lemma ActsOnNoLoop<S(!new)>(d: Driver<S>, s: Sys<S>, c: nat, msg: Message, since: nat)
    ensures Acted(d, c, msg, since, s).main == s.main
  {
    hide Apply;
  }

  /** The server exits only after the cleanup, however its loop was left. */
  lemma {:induction false} CleanedUpIff<S(!new)>(d: Driver<S>, idle: int, m: M.State<S>, now: int, states: seq<Sys<S>>,
                                                 actions: seq<Action>, n: nat)
    requires IsRun(d, idle, states, actions) && states[0] == Start(idle, m, now) && n < |states|
    ensures states[n].main.CleanedUp? || states[n].main.Exited? <==> exists i :: 0 <= i < n && actions[i].Cleanup?
  {
    hide Step;
    if n > 0 {
      CleanedUpIff(d, idle, m, now, states, actions, n - 1);
      assert Step(d, idle, states[n - 1], actions[n - 1]) == Some(states[n - 1 + 1]);
      CleanupStep(d, idle, states[n - 1], actions[n - 1]);
    }
  }

  /** Once the cleanup has run, the Manager is unlocked exactly if an unlock has succeeded since the cleanup's
      lock, with no lock after it. */
  lemma UnlockedAfterCleanupIff<S(!new)>(d: Driver<S>, idle: int, m: M.State<S>, now: int, states: seq<Sys<S>>,
                                         actions: seq<Action>, i: nat, n: nat)
    requires IsRun(d, idle, states, actions) && states[0] == Start(idle, m, now) && m.configured
    requires i < n < |states| && actions[i] == Cleanup
    ensures var k, log := |states[i].log|, states[n].log;
            && k < |log| && log[k].who.None? && log[k].call.DoLock?
            && (states[n].mgr.unlocked <==> exists j :: k < j && Opens(log, j, |log|))
  {
    assert Step(d, idle, states[i], actions[i]) == Some(states[i + 1]);
    CleanupLogs(d, idle, states[i]);
    LogGrowsInRun(d, idle, states, actions, i + 1, n);
    RunInv(d, idle, m, now, states, actions, n);
    UnlockedSinceIff(d, m, states[n].log, |states[i].log|);
  }

  lemma CleanupLogs<S(!new)>(d: Driver<S>, idle: int, s: Sys<S>)
    requires Step(d, idle, s, Cleanup).Some?
    ensures var log := Step(d, idle, s, Cleanup).value.log;
            |log| == |s.log| + 1 && log[|s.log|].who.None? && log[|s.log|].call.DoLock?
  {
    hide Apply;
  }

  /** A connection that has asked for an unlock that may still be tried. */
  predicate Unlocking(pc: Pc) {
    ((pc.Waiting? || pc.Entered? || pc.Ready?) && pc.msg.Unlock?) || pc.Checked? || pc.Primed?
  }

  ghost predicate NobodyUnlocking<S>(s: Sys<S>) {
    forall c: nat :: !Unlocking(At(s, c))
  }

  /** A connection comes to unlock only by a request that is read. */
  lemma StaysNotUnlocking<S(!new)>(d: Driver<S>, idle: int, s: Sys<S>, a: Action, c: nat)
    requires !Unlocking(At(s, c)) && Step(d, idle, s, a).Some? && (a.Read? ==> !a.msg.Unlock?)
    ensures !Unlocking(At(Step(d, idle, s, a).value, c))
  {
    if a.Act? {
      hide Apply, ResetIdle, CallOf, Acted;
      ActsOnItself(d, s, a.c, At(s, a.c).msg, At(s, a.c).since);
    } else if a.Reset? {
      ResetNotUnlocking(d, idle, s, a.c, c);
    } else if a.Read? || a.Drop? || a.Send? || a.SendFails? || a.Accept? {
      OutsideNotUnlocking(d, idle, s, a, c);
    } else {
      InsideNotUnlocking(d, idle, s, a, c);
    }
  }

  lemma ResetNotUnlocking<S(!new)>(d: Driver<S>, idle: int, s: Sys<S>, own: nat, c: nat)
    requires !Unlocking(At(s, c)) && Step(d, idle, s, Reset(own)).Some?
    ensures !Unlocking(At(Step(d, idle, s, Reset(own)).value, c))
  {
    hide Apply, ResetIdle, CallOf, Acted, Critical;
    ResetKeeps(idle, s);
  }

  lemma OutsideNotUnlocking<S(!new)>(d: Driver<S>, idle: int, s: Sys<S>, a: Action, c: nat)
    requires !Unlocking(At(s, c)) && Step(d, idle, s, a).Some? && (a.Read? ==> !a.msg.Unlock?)
    requires a.Read? || a.Drop? || a.Send? || a.SendFails? || a.Accept?
    ensures !Unlocking(At(Step(d, idle, s, a).value, c))
  {
    hide Apply, ResetIdle, CallOf, Acted, Critical;
  }

  lemma InsideNotUnlocking<S(!new)>(d: Driver<S>, idle: int, s: Sys<S>, a: Action, c: nat)
    requires !Unlocking(At(s, c)) && Step(d, idle, s, a).Some?
    requires !(a.Act? || a.Reset? || a.Read? || a.Drop? || a.Send? || a.SendFails? || a.Accept?)
    ensures !Unlocking(At(Step(d, idle, s, a).value, c))
  {
    hide Apply, ResetIdle, CallOf, Acted;
  }

  /** Nothing but the turn of a connection that is unlocking tries one. */
  lemma TriesOnlyUnlocking<S(!new)>(d: Driver<S>, idle: int, s: Sys<S>, a: Action)
    requires NobodyUnlocking(s) && Step(d, idle, s, a).Some?
    ensures var log := Step(d, idle, s, a).value.log;
            forall j | |s.log| <= j < |log| :: !log[j].call.TryUnlock?
  {
    hide Apply;
    assert a.Try? ==> Unlocking(At(s, a.c));
  }

  lemma NobodyUnlocks<S(!new)>(d: Driver<S>, idle: int, s: Sys<S>, a: Action)
    requires NobodyUnlocking(s) && Step(d, idle, s, a).Some? && (a.Read? ==> !a.msg.Unlock?)
    ensures var s' := Step(d, idle, s, a).value;
            NobodyUnlocking(s') && forall j | |s.log| <= j < |s'.log| :: !s'.log[j].call.TryUnlock?
  {
    TriesOnlyUnlocking(d, idle, s, a);
    hide Step, Unlocking;
    forall c: nat ensures !Unlocking(At(Step(d, idle, s, a).value, c)) {
      assert !Unlocking(At(s, c));
      StaysNotUnlocking(d, idle, s, a, c);
    }
  }

  lemma {:induction false} NobodyUnlocksInRun<S(!new)>(d: Driver<S>, idle: int, states: seq<Sys<S>>, actions: seq<Action>,
                                                       i: nat, n: nat)
    requires IsRun(d, idle, states, actions) && i <= n < |states| && NobodyUnlocking(states[i])
    requires forall l | i <= l < n && actions[l].Read? :: !actions[l].msg.Unlock?
    ensures states[i].log <= states[n].log && NobodyUnlocking(states[n])
    ensures forall j | |states[i].log| <= j < |states[n].log| :: !states[n].log[j].call.TryUnlock?
  {
    hide Step, NobodyUnlocking;
    if i < n {
      NobodyUnlocksInRun(d, idle, states, actions, i, n - 1);
      assert Step(d, idle, states[n - 1], actions[n - 1]) == Some(states[n - 1 + 1]);
      LogGrowsByStep(d, idle, states[n - 1], actions[n - 1]);
      NobodyUnlocks(d, idle, states[n - 1], actions[n - 1]);
    }
  }

  /** If no connection is unlocking at the cleanup and no unlock is read afterwards, the vault stays locked. */
  lemma LockedAfterCleanup<S(!new)>(d: Driver<S>, idle: int, m: M.State<S>, now: int, states: seq<Sys<S>>,
                                    actions: seq<Action>, i: nat, n: nat)
    requires IsRun(d, idle, states, actions) && states[0] == Start(idle, m, now) && m.configured
    requires i < n < |states| && actions[i] == Cleanup && NobodyUnlocking(states[i])
    requires forall l | i <= l < n && actions[l].Read? :: !actions[l].msg.Unlock?
    ensures !states[n].mgr.unlocked
  {
    UnlockedAfterCleanupIff(d, idle, m, now, states, actions, i, n);
    NobodyUnlocksInRun(d, idle, states, actions, i, n);
  }

  /// ## A run that ends unlocked

  /** One more step of a run. */
  lemma OneMore<S(!new)>(d: Driver<S>, idle: int, states: seq<Sys<S>>, actions: seq<Action>, a: Action)
    returns (states': seq<Sys<S>>, actions': seq<Action>)
    requires IsRun(d, idle, states, actions) && Step(d, idle, states[|states| - 1], a).Some?
    ensures IsRun(d, idle, states', actions') && |states'| == |actions'| + 1 && states'[0] == states[0]
    ensures states'[|states'| - 1] == Step(d, idle, states[|states| - 1], a).value
  {
    hide Step;
    states', actions' := states + [Step(d, idle, states[|states| - 1], a).value], actions + [a];
  }

  /** A connection has sent a request and holds the mutex for it. */
  lemma RequestEntered<S(!new)>(d: Driver<S>, m: M.State<S>, msg: Message)
    returns (states: seq<Sys<S>>, actions: seq<Action>)
    ensures IsRun(d, -1, states, actions) && |states| == |actions| + 1 && states[0] == Start(-1, m, 0)
    ensures states[|states| - 1] == states[0].(owner := Some(0), conns := map[0 := Entered(msg, 0)])
  {
    SingleState(d, Start(-1, m, 0));
    hide IsRun, Apply, Acted;
    states, actions := [Start(-1, m, 0)], [];
    var s := states[0];
    states, actions := OneMore(d, -1, states, actions, Accept(0));
    assert states[|states| - 1] == s.(conns := map[0 := Idle]);
    states, actions := OneMore(d, -1, states, actions, Read(0, msg));
    assert states[|states| - 1] == s.(conns := map[0 := Waiting(msg, 0)]);
    states, actions := OneMore(d, -1, states, actions, Acquire(0));
  }

  /** A connection's unlock has found the vault locked. */
  lemma UnlockUnderWay<S(!new)>(d: Driver<S>, m: M.State<S>, answers: Answers)
    returns (states: seq<Sys<S>>, actions: seq<Action>)
    requires !m.unlocked
    ensures IsRun(d, -1, states, actions) && states[0] == Start(-1, m, 0)
    ensures var s := states[|states| - 1];
            At(s, 0) == Checked(answers, 0) && s.mgr == m && s.main.Serving? && !s.once && s.shutdowns == 0
  {
    states, actions := RequestEntered(d, m, Unlock(answers));
    hide IsRun, Apply, Acted;
    states, actions := OneMore(d, -1, states, actions, Reset(0));
    var s := states[|states| - 1];
    assert At(s, 0) == Ready(Unlock(answers), 0) && s.mgr == m && s.main.Serving? && !s.once && s.shutdowns == 0;
    states, actions := OneMore(d, -1, states, actions, Act(0));
    FoundLocked(d, answers, s);
  }

  lemma FoundLocked<S(!new)>(d: Driver<S>, answers: Answers, s: Sys<S>)
    requires !s.mgr.unlocked
    ensures var s' := Acted(d, 0, Unlock(answers), 0, s);
            s' == Move(s.(log := s'.log), 0, Checked(answers, 0))
  {}

  lemma SingleState<S(!new)>(d: Driver<S>, s: Sys<S>)
    ensures IsRun(d, -1, [s], [])
  {}

  /** The cleanup locks the Manager but does not wait for a request under way: an unlock that had looked
      before it still goes through, and the vault is unlocked when the process ends. */
  lemma UnlockedAfterCleanup<S(!new)>(d: Driver<S>, m: M.State<S>, answers: Answers)
    returns (states: seq<Sys<S>>, actions: seq<Action>)
    requires m.configured && !m.unlocked
    requires var after := M.Locked(d, m).1; M.Unlocked(d, Replay(answers), 1, after).0.None?
    ensures IsRun(d, -1, states, actions) && states[0] == Start(-1, m, 0)
    ensures var end := states[|states| - 1]; end.main.CleanedUp? && end.mgr.unlocked
  {
    states, actions := UnlockUnderWay(d, m, answers);
    hide IsRun, ResetIdle, Apply, Acted;
    states, actions := OneMore(d, -1, states, actions, Signal);
    states, actions := OneMore(d, -1, states, actions, Shutdown);
    states, actions := OneMore(d, -1, states, actions, Return);
    var s := states[|states| - 1];
    states, actions := OneMore(d, -1, states, actions, Cleanup);
    assert Apply(d, DoLock, m).1 == M.Locked(d, m).1 by {
      ApplyIs(d, answers, m);
    }
    states, actions := OneMore(d, -1, states, actions, Prime(0));
    states, actions := OneMore(d, -1, states, actions, Try(0));
    ApplyIs(d, answers, M.Locked(d, m).1);
    M.UnlockMeaning(d, Replay(answers), 1, M.Locked(d, m).1);
  }

  lemma ApplyIs<S(!new)>(d: Driver<S>, answers: Answers, m: M.State<S>)
    ensures Apply(d, DoLock, m).1 == M.Locked(d, m).1
    ensures Apply(d, TryUnlock(answers), m).1 == M.Unlocked(d, Replay(answers), 1, m).1
  {}
}
