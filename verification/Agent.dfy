/** The agent and the proxy in front of it: internal/agent's server.go (one request at a time), prompter.go,
    client.go and proxy.go. */
module Agent {
  import opened Text
  import opened Vault
  import opened Protocol
  import M = Manager

  datatype Message =
    | Unlock(answers: Answers) | Get(addr: string) | Set(addr: string, value: string) | List(ns: string)
    | Status | Lock | Other

  datatype Reply = Reply(ok: bool, value: string, names: seq<string>, code: string, unlocked: bool)

  function Fine(): Reply {
    Reply(true, "", [], "", false)
  }

  function Refused(e: Error): Reply {
    Reply(false, "", [], ErrorCode(e), false)
  }

  function Done(err: Option<Error>): Reply {
    if err.None? then Fine() else Refused(err.value)
  }

  /// ## The replay prompter

  /** The forwarded answers that were asked for; a required one that is missing is an error. */
  function Replayed(answers: Answers, reqs: seq<Request>): Result<Answers, Error> {
    if exists i | 0 <= i < |reqs| :: !reqs[i].optional && reqs[i].id !in answers then Err({ErrPromptUnavailable})
    else Ok(map id | id in answers && id in Ids(reqs) :: answers[id])
  }

  function Replay(answers: Answers): Prompter {
    (k: nat, reqs: seq<Request>) => Replayed(answers, reqs)
  }

  class ReplayPrompter {
    var answers: Answers

    constructor ()
      ensures answers == map[]
    {
      answers := map[];
    }

    method SetAnswers(answers: Answers)
      modifies this
      ensures this.answers == answers
    {
      this.answers := answers;
    }

    method Clear()
      modifies this
      ensures answers == map[]
    {
      answers := map[];
    }

    method Dispatch(reqs: seq<Request>) returns (r: Result<Answers, Error>)
      ensures r == Replayed(answers, reqs)
      ensures r.Err? <==> exists i :: 0 <= i < |reqs| && !reqs[i].optional && reqs[i].id !in answers
      ensures r.Err? ==> r.error == {ErrPromptUnavailable}
      ensures r.Ok? ==> Answered(reqs, r.value) && r.value.Keys == answers.Keys * Ids(reqs)
                        && forall id | id in r.value :: r.value[id] == answers[id]
    {
      var out: Answers := map[];
      for i := 0 to |reqs|
        invariant forall j | 0 <= j < i && !reqs[j].optional :: reqs[j].id in answers
        invariant out == map id | id in answers && id in Ids(reqs[..i]) :: answers[id]
      {
        assert Ids(reqs[..i + 1]) == Ids(reqs[..i]) + {reqs[i].id} by {
          assert forall j | 0 <= j < i :: reqs[..i + 1][j] == reqs[..i][j];
        }
        var id := reqs[i].id;
        if id in answers {
          out := out[id := answers[id]];
        } else if !reqs[i].optional {
          return Err({ErrPromptUnavailable});
        }
      }
      assert reqs[..|reqs|] == reqs;
      r := Ok(out);
    }
  }

  /// ## The server

  /** The Manager inside the agent, and the answers its prompter would replay. */
  datatype Server<S> = Server(mgr: M.State<S>, answers: Answers)

  function Handled<S(!new)>(d: Driver<S>, msg: Message, srv: Server<S>): (Reply, Server<S>) {
    match msg
    case Unlock(answers) =>
      if srv.mgr.unlocked then (Fine(), srv)
      else
        var (err, m) := M.Unlocked(d, Replay(answers), 1, srv.mgr);
        (Done(err), Server(m, map[]))
    case Get(addr) =>
      var (r, m) := M.Got(d, addr, srv.mgr);
      (match r case Ok(v) => Fine().(value := v) case Err(e) => Refused(e), srv.(mgr := m))
    case Set(addr, value) =>
      var (err, m) := M.Stored(d, addr, value, srv.mgr);
      (Done(err), srv.(mgr := m))
    case List(ns) =>
      var (r, m) := M.Listed(d, ns, srv.mgr);
      (match r case Ok(names) => Fine().(names := names) case Err(e) => Refused(e), srv.(mgr := m))
    case Status => (Fine().(unlocked := srv.mgr.unlocked), srv)
    case Lock =>
      var (err, m) := M.Locked(d, srv.mgr);
      (Done(err), srv.(mgr := m))
    case Other => (Refused({}), srv)
  }

  /** One agent: it owns a Manager that allows one attempt, and prompts nobody. */
  class AgentServer<S(!new)> {
    const manager: M.Manager<S>
    const replay: ReplayPrompter

    constructor (manager: M.Manager<S>)
      requires manager.retries == 1
      ensures this.manager == manager && fresh(replay) && replay.answers == map[] && Valid()
    {
      this.manager := manager;
      replay := new ReplayPrompter();
    }

    predicate Valid() {
      manager.retries == 1
    }

    ghost function Now(): Server<S>
      reads manager, replay
    {
      Server(manager.Now(), replay.answers)
    }

    method Handle(msg: Message) returns (r: Reply)
      requires Valid()
      modifies manager, replay
      ensures (r, Now()) == Handled(manager.driver, msg, old(Now()))
    {
      match msg
      case Unlock(answers) =>
        if manager.unlocked {
          return Fine();
        }
        replay.SetAnswers(answers);
        var err := manager.Unlock(Replay(replay.answers));
        replay.Clear();
        r := Done(err);
      case Get(addr) =>
        var v := manager.Get(addr);
        r := match v case Ok(x) => Fine().(value := x) case Err(e) => Refused(e);
      case Set(addr, value) =>
        var err := manager.Set(addr, value);
        r := Done(err);
      case List(ns) =>
        var v := manager.List(ns);
        r := match v case Ok(x) => Fine().(names := x) case Err(e) => Refused(e);
      case Status => r := Fine().(unlocked := manager.unlocked);
      case Lock =>
        var err := manager.Lock();
        r := Done(err);
      case Other => r := Refused({});
    }
  }

  /// ## The proxy

  /** The proxy's connection. A connection that failed once stays failed. */
  datatype Link = NoLink | Live | Dead

  /** What a proxy sees: the agent behind the socket, if one runs, and its own connection. */
  datatype World<S> = World(agent: Option<Server<S>>, link: Link)

  /** The fixed surroundings: the real driver and its state when built, whether this process can host an
      agent, whether one can be started, and the encodings. */
  datatype Host<!S> = Host(driver: Driver<S>, built: S, wired: bool, starts: bool, req: Codec<Message>, rep: Codec<Reply>)

  /** The state of an agent that has just started, if it could configure its driver. */
  function Started<S(!new)>(host: Host<S>): Option<Server<S>> {
    var (err, m) := M.Configured(host.driver, M.State(false, false, host.built, 0));
    if host.starts && err.None? then Some(Server(m, map[])) else None
  }

  /** One request and its reply over a live connection. After a successful lock the agent is gone. */
  function RoundTrip<S(!new)>(host: Host<S>, msg: Message, w: World<S>): (Result<Reply, Error>, World<S>) {
    if w.agent.None? || !w.link.Live? then (Err({}), w.(link := Dead))
    else
      match Delivered(host.req, msg)
      case None => (Err({}), w.(link := Dead))
      case Some(m) =>
        var (reply, srv) := Handled(host.driver, m, w.agent.value);
        var w' := if m.Lock? && reply.ok then World(None, Dead) else World(Some(srv), w.link);
        match Delivered(host.rep, reply)
        case None => (Err({}), w'.(link := Dead))
        case Some(r) => (if r.ok then Ok(r) else Err(CodeError(r.code)), w')
  }

  /** A connection for Get, Set and List: the one at hand, or a new one if an agent runs. */
  function Connected<S>(w: World<S>): Option<World<S>> {
    if !w.link.NoLink? then Some(w) else if w.agent.Some? then Some(w.(link := Live)) else None
  }

  /** The proxy as a driver over its world. */
  function Proxy<S(!new)>(host: Host<S>): Driver<World<S>> {
    Driver(
      (w: World<S>) => (None, w),
      (w: World<S>) => if w.agent.Some? then [] else host.driver.credentials(host.built),
      (w: World<S>, answers: Answers) => ProxyUnlock(host, answers, w),
      (w: World<S>, addr: string) =>
        if Connected(w).None? then (Err({ErrLocked}), w)
        else
          var (r, w') := RoundTrip(host, Get(addr), Connected(w).value);
          (match r case Ok(reply) => Ok(reply.value) case Err(e) => Err(e), w'),
      (w: World<S>, addr: string, value: string) =>
        if Connected(w).None? then (Some({ErrLocked}), w)
        else
          var (r, w') := RoundTrip(host, Set(addr, value), Connected(w).value);
          (match r case Ok(_) => None case Err(e) => Some(e), w'),
      (w: World<S>, ns: string) =>
        if Connected(w).None? then (Err({ErrLocked}), w)
        else
          var (r, w') := RoundTrip(host, List(ns), Connected(w).value);
          (match r case Ok(reply) => Ok(reply.names) case Err(e) => Err(e), w'),
      (w: World<S>) => (None, w.(link := NoLink)))
  }

  /** Starts an agent if none runs and forwards the answers over a new connection, which is kept only if
      the agent unlocked. */
  function ProxyUnlock<S(!new)>(host: Host<S>, answers: Answers, w: World<S>): (Option<Error>, World<S>) {
    if w.agent.None? && !host.wired then (Some({ErrAgentUnavailable}), w)
    else if w.agent.None? && Started(host).None? then (Some({}), w)
    else
      var agent := if w.agent.None? then Started(host) else w.agent;
      var (r, w') := RoundTrip(host, Unlock(answers), World(agent, Live));
      match r
      case Ok(_) => (None, w')
      case Err(e) => (Some(e), w'.(link := w.link))
  }

  /** The socket's side of the world: at most one agent. */
  class Machine<S(!new)> {
    var agent: AgentServer?<S>

    constructor ()
      ensures agent == null
    {
      agent := null;
    }
  }

  class ProxyDriver<S(!new)> {
    const host: Host<S>
    const machine: Machine<S>
    var link: Link
    var unlocked: bool

    constructor (host: Host<S>, machine: Machine<S>)
      requires machine.agent != null ==> machine.agent.Valid() && machine.agent.manager.driver == host.driver
      ensures this.host == host && this.machine == machine && Valid() && link == NoLink && !unlocked
    {
      this.host, this.machine, link, unlocked := host, machine, NoLink, false;
    }

    ghost predicate Valid()
      reads machine
    {
      machine.agent != null ==> machine.agent.Valid() && machine.agent.manager.driver == host.driver
    }

    /** What the agent of the moment is made of. */
    ghost function Parts(): set<object>
      reads machine
    {
      if machine.agent == null then {} else {machine.agent.manager, machine.agent.replay}
    }

    ghost function Now(): World<S>
      reads this`link, machine, Parts()
    {
      World(if machine.agent == null then None else Some(machine.agent.Now()), link)
    }

    method Credentials() returns (reqs: seq<Request>)
      requires Valid()
      ensures reqs == Proxy(host).credentials(Now())
    {
      reqs := if machine.agent != null then [] else host.driver.credentials(host.built);
    }

    method Send(msg: Message) returns (r: Result<Reply, Error>)
      requires Valid()
      modifies this`link, machine, Parts()
      ensures Valid() && fresh(Parts() - old(Parts()))
      ensures (r, Now()) == RoundTrip(host, msg, old(Now()))
    {
      if machine.agent == null || !link.Live? {
        link := Dead;
        return Err({});
      }
      var m := Deliver(host.req, msg);
      if m.None? {
        link := Dead;
        return Err({});
      }
      var reply := machine.agent.Handle(m.value);
      if m.value.Lock? && reply.ok {
        machine.agent, link := null, Dead;
      }
      var back := Deliver(host.rep, reply);
      if back.None? {
        link := Dead;
        return Err({});
      }
      r := if back.value.ok then Ok(back.value) else Err(CodeError(back.value.code));
    }

    /** Starts an agent around the real driver. */
    method Start() returns (ok: bool)
      requires Valid() && machine.agent == null
      modifies machine
      ensures Valid() && fresh(Parts()) && (ok <==> Started(host).Some?)
      ensures ok ==> machine.agent != null && machine.agent.Now() == Started(host).value
      ensures !ok ==> machine.agent == null
    {
      var manager := new M.Manager(host.driver, host.built, 1);
      var err := manager.Configure();
      ok := host.starts && err.None?;
      if ok {
        machine.agent := new AgentServer(manager);
      }
    }

    method Unlock(answers: Answers) returns (err: Option<Error>)
      requires Valid()
      modifies this, machine, Parts()
      ensures Valid() && fresh(Parts() - old(Parts()))
      ensures (err, Now()) == Proxy(host).unlock(old(Now()), answers)
      ensures unlocked <==> old(unlocked) || err.None?
    {
      hide RoundTrip;
      if machine.agent == null {
        if !host.wired {
          return Some({ErrAgentUnavailable});
        }
        var ok := Start();
        if !ok {
          return Some({});
        }
      }
      err := Forward(answers);
      unlocked := unlocked || err.None?;
    }

    /** Hands the answers to the agent over a new connection, which replaces the old one on success. */
    method Forward(answers: Answers) returns (err: Option<Error>)
      requires Valid() && machine.agent != null
      modifies this`link, machine, Parts()
      ensures Valid() && fresh(Parts() - old(Parts()))
      ensures (err, Now()) == ProxyUnlock(host, answers, old(Now()))
    {
      hide RoundTrip;
      var before := link;
      link := Live;
      var r := Send(Message.Unlock(answers));
      if r.Err? {
        link := before;
        return Some(r.error);
      }
      err := None;
    }

    method Connect() returns (ok: bool)
      requires Valid()
      modifies this`link
      ensures Valid() && Parts() == old(Parts()) && (ok <==> Connected(old(Now())).Some?)
      ensures if ok then Now() == Connected(old(Now())).value else Now() == old(Now())
    {
      if link.NoLink? {
        if machine.agent == null {
          return false;
        }
        link := Live;
      }
      ok := true;
    }

    method Get(addr: string) returns (r: Result<string, Error>)
      requires Valid()
      modifies this`link, machine, Parts()
      ensures Valid() && (r, Now()) == Proxy(host).get(old(Now()), addr)
    {
      var ok := Connect();
      if !ok {
        return Err({ErrLocked});
      }
      var reply := Send(Message.Get(addr));
      r := match reply case Ok(x) => Ok(x.value) case Err(e) => Err(e);
    }

    method Set(addr: string, value: string) returns (err: Option<Error>)
      requires Valid()
      modifies this`link, machine, Parts()
      ensures Valid() && (err, Now()) == Proxy(host).set_(old(Now()), addr, value)
    {
      var ok := Connect();
      if !ok {
        return Some({ErrLocked});
      }
      var reply := Send(Message.Set(addr, value));
      err := match reply case Ok(_) => None case Err(e) => Some(e);
    }

    method List(ns: string) returns (r: Result<seq<string>, Error>)
      requires Valid()
      modifies this`link, machine, Parts()
      ensures Valid() && (r, Now()) == Proxy(host).list(old(Now()), ns)
    {
      var ok := Connect();
      if !ok {
        return Err({ErrLocked});
      }
      var reply := Send(Message.List(ns));
      r := match reply case Ok(x) => Ok(x.names) case Err(e) => Err(e);
    }

    /** Drops the connection. The agent stays. */
    method Lock()
      requires Valid()
      modifies this
      ensures Valid() && !unlocked && Now() == Proxy(host).lock(old(Now())).1
    {
      link, unlocked := NoLink, false;
    }
  }
}
