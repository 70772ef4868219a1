/** A Manager over the proxy behaves as a Manager over the driver: through the proxy, the frames, the
    error codes, the server, the replay prompter and the Manager inside the agent. */
module Simulation {
  import opened Text
  import opened Address
  import opened Vault
  import opened Protocol
  import opened Agent
  import opened M = Manager

  /// ## Hypotheses

  /** The encodings lose nothing, and a reply that carries no data fits a frame. */
  ghost predicate Faithful<S(!new)>(host: Host<S>) {
    && Lossless(host.req) && Lossless(host.rep)
    && |host.rep.encode(Fine())| <= MAX_FRAME && forall e: Error :: |host.rep.encode(Refused(e))| <= MAX_FRAME
  }

  /** The credentials a driver asks for come from its settings: a refused unlock does not change them. */
  ghost predicate FixedCredentials<S(!new)>(host: Host<S>) {
    && (forall s, a :: host.driver.credentials(host.driver.unlock(s, a).1) == host.driver.credentials(s))
    && host.driver.credentials(host.driver.configure(host.built).1) == host.driver.credentials(host.built)
  }

  /** The prompter obeys the answer contract, with answers that fit a frame. */
  ghost predicate Obliging<S(!new)>(host: Host<S>, p: Prompter, reqs: seq<Request>) {
    forall k: nat | p(k, reqs).Ok? ::
      Answered(reqs, p(k, reqs).value) && |host.req.encode(Unlock(p(k, reqs).value))| <= MAX_FRAME
  }

  /** Every error of an unlock has at most one coded sentinel. */
  ghost predicate SimpleUnlocks<S(!new)>(d: Driver<S>) {
    forall s, a | d.unlock(s, a).0.Some? :: Simple(d.unlock(s, a).0.value)
  }

  /// ## The simulation relation

  /** The agent behind the proxy, or the one that would be started. */
  function Behind<S(!new)>(host: Host<S>, w: World<S>): Server<S>
    requires Started(host).Some?
  {
    if w.agent.Some? then w.agent.value else Started(host).value
  }

  /** The two stacks are in step: same lifecycle state, same driver state, same number of prompts, and no
      answers lie around in the agent. */
  ghost predicate InStep<S(!new)>(host: Host<S>, md: State<S>, ma: State<World<S>>) {
    && Started(host).Some? && host.wired
    && md.configured && ma.configured && md.unlocked == ma.unlocked && md.asked == ma.asked
    && Behind(host, ma.driver) == Server(State(true, md.unlocked, md.driver, Behind(host, ma.driver).mgr.asked), map[])
    && (md.unlocked ==> ma.driver.agent.Some? && ma.driver.link.Live?)
  }

  lemma ReplayedWhole(answers: Answers, reqs: seq<Request>)
    requires Answered(reqs, answers)
    ensures Replayed(answers, reqs) == Ok(answers)
  {
    assert answers == map id | id in answers && id in Ids(reqs) :: answers[id];
  }

  /** A message and its reply, when both fit. */
  lemma RoundTripWhole<S(!new)>(host: Host<S>, msg: Message, w: World<S>)
    requires Lossless(host.req) && Lossless(host.rep) && w.agent.Some? && w.link.Live? && !msg.Lock?
    requires |host.req.encode(msg)| <= MAX_FRAME
    requires |host.rep.encode(Handled(host.driver, msg, w.agent.value).0)| <= MAX_FRAME
    ensures var (reply, srv) := Handled(host.driver, msg, w.agent.value);
            RoundTrip(host, msg, w) == (if reply.ok then Ok(reply) else Err(CodeError(reply.code)), World(Some(srv), Live))
  {
    DeliveredWhole(host.req, msg);
    DeliveredWhole(host.rep, Handled(host.driver, msg, w.agent.value).0);
  }

  /// ## Unlocking

  /** The agent tries the driver on exactly the answers the prompter gave. */
  lemma HandledUnlock<S(!new)>(d: Driver<S>, answers: Answers, srv: Server<S>)
    requires srv.mgr.configured && !srv.mgr.unlocked && Answered(d.credentials(srv.mgr.driver), answers)
    ensures var (err, s) := d.unlock(srv.mgr.driver, answers);
            Handled(d, Unlock(answers), srv) == (Done(err), Server(State(true, err.None?, s, srv.mgr.asked + 1), map[]))
  {
    ReplayedWhole(answers, d.credentials(srv.mgr.driver));
    assert Replay(answers)(srv.mgr.asked, d.credentials(srv.mgr.driver)) == Ok(answers);
  }

  lemma ProxyUnlockWhole<S(!new)>(host: Host<S>, answers: Answers, w: World<S>)
    requires Faithful(host) && host.wired && Started(host).Some?
    requires var srv := Behind(host, w);
             srv.mgr.configured && !srv.mgr.unlocked && Answered(host.driver.credentials(srv.mgr.driver), answers)
    requires |host.req.encode(Unlock(answers))| <= MAX_FRAME
    ensures var srv := Behind(host, w);
            var (err, s) := host.driver.unlock(srv.mgr.driver, answers);
            var after := Some(Server(State(true, err.None?, s, srv.mgr.asked + 1), map[]));
            ProxyUnlock(host, answers, w)
              == if err.None? then (None, World(after, Live)) else (Some(Transported(err.value)), World(after, w.link))
  {
    HandledUnlock(host.driver, answers, Behind(host, w));
    RoundTripWhole(host, Unlock(answers), World(Some(Behind(host, w)), Live));
  }

  /** One attempt on either stack. */
  lemma AttemptInStep<S(!new)>(host: Host<S>, p: Prompter, reqs: seq<Request>, md: State<S>, ma: State<World<S>>)
    requires Faithful(host) && FixedCredentials(host) && Obliging(host, p, reqs)
    requires InStep(host, md, ma) && !md.unlocked && reqs == host.driver.credentials(md.driver)
    ensures var (ed, md') := Attempt(host.driver, p, reqs, md);
            var (ea, ma') := Attempt(Proxy(host), p, reqs, ma);
            && InStep(host, md', ma') && reqs == host.driver.credentials(md'.driver)
            && (ed.None? <==> ea.None?)
            && (ed.Some? ==> ea.value == if p(md.asked, reqs).Err? then ed.value else Transported(ed.value))
  {
    if p(md.asked, reqs).Ok? {
      ProxyUnlockWhole(host, p(md.asked, reqs).value, ma.driver);
    }
  }

  /** How the error of an unlock that has prompted `asked` times in all reaches the proxied caller: the
      prompter's own error as it is, the driver's over the wire. */
  function Crossed(p: Prompter, reqs: seq<Request>, asked: nat, e: Error): Error {
    if asked > 0 && p(asked - 1, reqs).Err? then e else Transported(e)
  }

  lemma {:induction false} AttemptsInStep<S(!new)>(host: Host<S>, p: Prompter, reqs: seq<Request>, left: nat,
                                                   md: State<S>, ma: State<World<S>>)
    requires Faithful(host) && FixedCredentials(host) && Obliging(host, p, reqs) && SimpleUnlocks(host.driver)
    requires left > 0 && InStep(host, md, ma) && !md.unlocked && reqs == host.driver.credentials(md.driver)
    ensures var (ed, md') := Attempts(host.driver, p, reqs, left, md);
            var (ea, ma') := Attempts(Proxy(host), p, reqs, left, ma);
            && InStep(host, md', ma') && md'.asked > 0
            && (ed.None? <==> ea.None?)
            && (ed.Some? ==> ea.value == Crossed(p, reqs, md'.asked, ed.value) && Coded(ea.value) == Coded(ed.value))
  {
    AttemptInStep(host, p, reqs, md, ma);
    var (ed, md') := Attempt(host.driver, p, reqs, md);
    var (ea, ma') := Attempt(Proxy(host), p, reqs, ma);
    if ed.Some? {
      TransportedIff(ed.value);
      assert ErrAuth in ed.value <==> ErrAuth in Coded(ed.value);
      assert ErrAuth in ea.value <==> ErrAuth in Coded(ea.value);
      assert Coded(Coded(ed.value)) == Coded(ed.value);
    }
    hide Attempt, InStep, Obliging, FixedCredentials, Faithful, Transported;
    assert Retries(host.driver, p, reqs, md) <==> Retries(Proxy(host), p, reqs, ma);
    if left > 1 && Retries(host.driver, p, reqs, md) {
      AttemptsInStep(host, p, reqs, left - 1, md', ma');
    }
  }

  /// ## Access

  datatype Op = OpGet(addr: string) | OpSet(addr: string, value: string) | OpList(ns: string)

  datatype Outcome = Value(v: Result<string, Error>) | Written(err: Option<Error>) | Names(names: Result<seq<string>, Error>)

  function Step<S>(d: Driver<S>, op: Op, m: State<S>): (Outcome, State<S>) {
    match op
    case OpGet(addr) => var (r, m') := Got(d, addr, m); (Value(r), m')
    case OpSet(addr, value) => var (r, m') := Stored(d, addr, value, m); (Written(r), m')
    case OpList(ns) => var (r, m') := Listed(d, ns, m); (Names(r), m')
  }

  /** The same outcome with its error as it comes over the wire. */
  function OverWire(o: Outcome): Outcome {
    match o
    case Value(r) => Value(if r.Err? then Err(Transported(r.error)) else r)
    case Written(err) => Written(if err.Some? then Some(Transported(err.value)) else None)
    case Names(r) => Names(if r.Err? then Err(Transported(r.error)) else r)
  }

  function NormalForm(addr: string): string
    requires ParseAddress(addr).Some?
  {
    Joined(ParseAddress(addr).value.0, ParseAddress(addr).value.1)
  }

  /** The message an access becomes. */
  function Sent(op: Op): Option<Message> {
    match op
    case OpGet(addr) => if ParseAddress(addr).None? then None else Some(Get(NormalForm(addr)))
    case OpSet(addr, value) => if ParseAddress(addr).None? then None else Some(Set(NormalForm(addr), value))
    case OpList(ns) => Some(List(ns))
  }

  /** The reply that carries an outcome. */
  function Answer(o: Outcome): Reply {
    match o
    case Value(r) => if r.Ok? then Fine().(value := r.value) else Refused(r.error)
    case Written(err) => Done(err)
    case Names(r) => if r.Ok? then Fine().(names := r.value) else Refused(r.error)
  }

  /** The request of an access and its reply fit a frame. */
  ghost predicate Carried<S>(host: Host<S>, op: Op, m: State<S>) {
    m.unlocked && Sent(op).Some? ==>
      && |host.req.encode(Sent(op).value)| <= MAX_FRAME
      && |host.rep.encode(Answer(Step(host.driver, op, m).0))| <= MAX_FRAME
  }

  lemma LocalErrors()
    ensures Transported({ErrLocked}) == {ErrLocked} && Transported({ErrNotConfigured}) == {ErrNotConfigured}
    ensures Transported({}) == {}
  {
    CodeFromIs({}, 0);
    TransportedIff({ErrLocked});
    TransportedIff({ErrNotConfigured});
  }

  /** Handling an access inside the agent is the access itself: the address parses again to itself. */
  lemma HandledAccess<S(!new)>(d: Driver<S>, op: Op, m: State<S>, srv: Server<S>)
    requires m.configured && m.unlocked && Sent(op).Some?
    requires srv == Server(State(true, true, m.driver, srv.mgr.asked), map[])
    ensures var (o, m') := Step(d, op, m);
            Handled(d, Sent(op).value, srv) == (Answer(o), Server(State(true, true, m'.driver, srv.mgr.asked), map[]))
  {
    if !op.OpList? {
      ParseAgain(op.addr);
    }
  }

  /** What the proxy makes of a reply. */
  function FromReply(op: Op, r: Result<Reply, Error>): Outcome {
    match op
    case OpGet(_) => Value(match r case Ok(x) => Ok(x.value) case Err(e) => Err(e))
    case OpSet(_, _) => Written(match r case Ok(_) => None case Err(e) => Some(e))
    case OpList(_) => Names(match r case Ok(x) => Ok(x.names) case Err(e) => Err(e))
  }

  lemma ProxyStep<S(!new)>(host: Host<S>, op: Op, ma: State<World<S>>)
    requires ma.configured && ma.unlocked && ma.driver.link.Live? && Sent(op).Some?
    ensures var (r, w) := RoundTrip(host, Sent(op).value, ma.driver);
            Step(Proxy(host), op, ma) == (FromReply(op, r), ma.(driver := w))
  {
    var w := ma.driver;
    assert Connected(w) == Some(w);
    var d := Proxy(host);
    match op
    case OpGet(addr) =>
      var a := Joined(ParseAddress(addr).value.0, ParseAddress(addr).value.1);
      assert d.get(w, a).1 == RoundTrip(host, Get(a), w).1;
    case OpSet(addr, value) =>
      var a := Joined(ParseAddress(addr).value.0, ParseAddress(addr).value.1);
      assert d.set_(w, a, value).1 == RoundTrip(host, Set(a, value), w).1;
    case OpList(ns) =>
      assert d.list(w, ns).1 == RoundTrip(host, List(ns), w).1;
  }

  lemma ReplyIsOutcome<S>(d: Driver<S>, op: Op, m: State<S>)
    ensures var o := Step(d, op, m).0;
            var reply := Answer(o);
            FromReply(op, if reply.ok then Ok(reply) else Err(CodeError(reply.code))) == OverWire(o)
  {
    hide ErrorCode, CodeError;
  }

  /** One access on either stack: the same outcome but for the error's way over the wire. */
  lemma StepInStep<S(!new)>(host: Host<S>, op: Op, md: State<S>, ma: State<World<S>>)
    requires Faithful(host) && InStep(host, md, ma) && Carried(host, op, md)
    ensures var (od, md') := Step(host.driver, op, md);
            var (oa, ma') := Step(Proxy(host), op, ma);
            InStep(host, md', ma') && oa == OverWire(od)
  {
    LocalErrors();
    if md.unlocked && Sent(op).Some? {
      HandledAccess(host.driver, op, md, ma.driver.agent.value);
      RoundTripWhole(host, Sent(op).value, ma.driver);
      ReplyIsOutcome(host.driver, op, md);
      ProxyStep(host, op, ma);
      StepKeeps(host.driver, op, md);
      hide Step, Handled, RoundTrip, FromReply, OverWire, Answer, Sent;
    } else {
      hide Transported;
    }
  }

  lemma StepKeeps<S>(d: Driver<S>, op: Op, m: State<S>)
    ensures var m' := Step(d, op, m).1; m' == m.(driver := m'.driver)
  {}

  function Run<S>(d: Driver<S>, ops: seq<Op>, m: State<S>): (seq<Outcome>, State<S>) {
    if ops == [] then ([], m)
    else
      var (before, m1) := Run(d, ops[..|ops| - 1], m);
      var (o, m2) := Step(d, ops[|ops| - 1], m1);
      (before + [o], m2)
  }

  ghost predicate AllCarried<S(!new)>(host: Host<S>, ops: seq<Op>, m: State<S>) {
    forall i | 0 <= i < |ops| :: Carried(host, ops[i], Run(host.driver, ops[..i], m).1)
  }

  function AllOverWire(os: seq<Outcome>): seq<Outcome> {
    seq(|os|, i requires 0 <= i < |os| => OverWire(os[i]))
  }

  lemma {:induction false} RunInStep<S(!new)>(host: Host<S>, ops: seq<Op>, md: State<S>, ma: State<World<S>>)
    requires Faithful(host) && InStep(host, md, ma) && AllCarried(host, ops, md)
    ensures var (od, md') := Run(host.driver, ops, md);
            var (oa, ma') := Run(Proxy(host), ops, ma);
            InStep(host, md', ma') && oa == AllOverWire(od)
  {
    hide Step, InStep, Faithful, Carried, OverWire;
    if ops != [] {
      var init, last := ops[..|ops| - 1], ops[|ops| - 1];
      assert forall i | 0 <= i < |init| :: init[..i] == ops[..i];
      RunInStep(host, init, md, ma);
      StepInStep(host, last, Run(host.driver, init, md).1, Run(Proxy(host), init, ma).1);
    }
  }

  /// ## The theorem

  /** A new Manager over the real driver, configured; and one over the proxy with no agent running. */
  function Direct<S(!new)>(host: Host<S>): State<S> {
    Configured(host.driver, State(false, false, host.built, 0)).1
  }

  function Proxied<S(!new)>(host: Host<S>): State<World<S>> {
    Configured(Proxy(host), State(false, false, World(None, NoLink), 0)).1
  }

  /** From no agent running, one Unlock and then any accesses: the two stacks prompt equally often, succeed
      together, return the same values, and fail with the same error if it is the prompter's and with one of
      the same class if not. */
  lemma AgentSimulatesDirect<S(!new)>(host: Host<S>, p: Prompter, retries: int, ops: seq<Op>)
    requires Faithful(host) && FixedCredentials(host) && SimpleUnlocks(host.driver)
    requires host.wired && Started(host).Some?
    requires Obliging(host, p, host.driver.credentials(host.built))
    requires AllCarried(host, ops, Unlocked(host.driver, p, retries, Direct(host)).1)
    ensures var (ed, md) := Unlocked(host.driver, p, retries, Direct(host));
            var (ea, ma) := Unlocked(Proxy(host), p, retries, Proxied(host));
            && (ed.None? <==> ea.None?)
            && (ed.Some? ==>
                 && ea.value == Crossed(p, host.driver.credentials(host.built), md.asked, ed.value)
                 && Coded(ea.value) == Coded(ed.value))
            && ma.asked == md.asked
            && var (od, md') := Run(host.driver, ops, md);
               var (oa, ma') := Run(Proxy(host), ops, ma);
               oa == AllOverWire(od) && ma'.asked == md'.asked
  {
    var reqs := host.driver.credentials(host.built);
    var n: nat := if retries < 1 then 1 else retries;
    AttemptsInStep(host, p, reqs, n, Direct(host), Proxied(host));
    hide Attempts;
    var (ed, md) := Unlocked(host.driver, p, retries, Direct(host));
    var (ea, ma) := Unlocked(Proxy(host), p, retries, Proxied(host));
    RunInStep(host, ops, md, ma);
  }

  /// ## Connections and the end of the agent

  /** What an access reports when it fails without a class. */
  function Failed(op: Op): Outcome {
    match op
    case OpGet(_) => Value(Err({}))
    case OpSet(_, _) => Written(Some({}))
    case OpList(_) => Names(Err({}))
  }

  /** A connection that has failed once fails every access from then on, and the agent hears of none. */
  lemma BrokenLinkStaysBroken<S(!new)>(host: Host<S>, op: Op, m: State<World<S>>)
    requires m.configured && m.unlocked && m.driver.link.Dead?
    ensures Step(Proxy(host), op, m) == (Failed(op), m)
  {
    var w := m.driver;
    assert Connected(w) == Some(w) && w.(link := Dead) == w && m.(driver := w) == m;
    forall msg ensures RoundTrip(host, msg, w) == (Err({}), w) {}
    hide RoundTrip, ParseAddress;
  }

  /** A request that arrives is handled, also when its reply does not get through; one that does not arrive is not. In
      both cases the connection is of no more use. */
  lemma HandledIfItArrives<S(!new)>(host: Host<S>, msg: Message, srv: Server<S>)
    requires !msg.Lock? && (Delivered(host.req, msg).Some? ==> Delivered(host.req, msg) == Some(msg))
    ensures var (r, w) := RoundTrip(host, msg, World(Some(srv), Live));
            if Delivered(host.req, msg).None? then r == Err({}) && w == World(Some(srv), Dead)
            else
              var (reply, after) := Handled(host.driver, msg, srv);
              && w.agent == Some(after)
              && (if Delivered(host.rep, reply).None? then r == Err({}) && w.link.Dead? else w.link.Live?)
  {
    hide Handled, Delivered;
  }

  /** Locking a proxied Manager drops its connection and nothing else: the agent stays as it is. */
  lemma ProxyLockKeepsAgent<S(!new)>(host: Host<S>, m: State<World<S>>)
    ensures var (err, m') := Locked(Proxy(host), m);
            err.None? && !m'.unlocked && m'.driver.link.NoLink? && m'.driver.agent == m.driver.agent
  {}

  /** A proxy without a connection makes one for an access if an agent runs; if none does, the vault is locked. */
  lemma AccessConnects<S(!new)>(host: Host<S>, addr: string, value: string, ns: string, w: World<S>)
    requires w.link.NoLink?
    ensures var d, w' := Proxy(host), w.(link := Live);
            if w.agent.Some? then
              && d.get(w, addr) == d.get(w', addr) && d.set_(w, addr, value) == d.set_(w', addr, value)
              && d.list(w, ns) == d.list(w', ns)
            else
              && d.get(w, addr) == (Err({ErrLocked}), w) && d.set_(w, addr, value) == (Some({ErrLocked}), w)
              && d.list(w, ns) == (Err({ErrLocked}), w)
  {}

  /** Without an agent an unlock starts one, which is then there, whatever comes of the answers; where the program is not
      wired to host an agent, or none can be started, the unlock fails, nothing is sent, and the world stays as it is. */
  lemma UnlockStartsAgent<S(!new)>(host: Host<S>, answers: Answers, link: Link)
    requires Delivered(host.req, Unlock(answers)).Some? ==> Delivered(host.req, Unlock(answers)) == Some(Unlock(answers))
    ensures var w := World(None, link);
            var (err, w') := Proxy(host).unlock(w, answers);
            && (!host.wired ==> err == Some({ErrAgentUnavailable}) && w' == w)
            && (host.wired && Started(host).None? ==> err == Some({}) && w' == w)
            && (host.wired && Started(host).Some? ==> w'.agent.Some?)
  {}

  /** A lock request locks the agent's driver. If the driver says it is locked, the agent ends; if not, the error comes
      back and the agent stays, with a Manager that counts as locked. */
  lemma LockRequest<S(!new)>(host: Host<S>, srv: Server<S>)
    requires Faithful(host) && |host.req.encode(Message.Lock)| <= MAX_FRAME
    ensures var (err, s) := host.driver.lock(srv.mgr.driver);
            RoundTrip(host, Message.Lock, World(Some(srv), Live))
              == if err.None? then (Ok(Fine()), World(None, Dead))
                 else (Err(Transported(err.value)), World(Some(srv.(mgr := srv.mgr.(unlocked := false, driver := s))), Live))
  {
    DeliveredWhole(host.req, Message.Lock);
    DeliveredWhole(host.rep, Handled(host.driver, Message.Lock, srv).0);
  }

  /// ## Why the hypotheses are there

  /** An agent that runs but is locked cannot be unlocked by a Manager that comes to it: the proxy asks for
      no credentials because an agent runs, so a required one is never collected, and the driver is not
      even tried. */
  lemma LockedAgentStaysLocked<S(!new)>(host: Host<S>, p: Prompter, retries: int, srv: Server<S>, i: nat)
    requires Faithful(host) && srv.mgr.configured && !srv.mgr.unlocked
    requires i < |host.driver.credentials(srv.mgr.driver)| && !host.driver.credentials(srv.mgr.driver)[i].optional
    requires p(0, []) == Ok(map[]) && |host.req.encode(Unlock(map[]))| <= MAX_FRAME
    ensures var m := State(true, false, World(Some(srv), NoLink), 0);
            var same := Server(srv.mgr.(asked := srv.mgr.asked + 1), map[]);
            Unlocked(Proxy(host), p, retries, m) == (Some({}), State(true, false, World(Some(same), NoLink), 1))
  {
    LockedAgentRefuses(host, srv, i);
    var w := World(Some(srv), NoLink);
    var d, m := Proxy(host), State(true, false, w, 0);
    assert d.credentials(w) == [] && d.unlock(w, map[]) == ProxyUnlock(host, map[], w);
    hide Proxy, ProxyUnlock, Faithful;
    assert Attempt(d, p, [], m).0 == Some({});
    OneAttempt(d, p, [], if retries < 1 then 1 else retries, m);
    hide Attempts;
  }

  lemma OneAttempt<S(!new)>(d: Driver<S>, p: Prompter, reqs: seq<Request>, left: nat, m: State<S>)
    requires left > 0 && !Retries(d, p, reqs, m)
    ensures Attempts(d, p, reqs, left, m) == Attempt(d, p, reqs, m)
  {}

  lemma LockedAgentRefuses<S(!new)>(host: Host<S>, srv: Server<S>, i: nat)
    requires Faithful(host) && srv.mgr.configured && !srv.mgr.unlocked && |host.req.encode(Unlock(map[]))| <= MAX_FRAME
    requires i < |host.driver.credentials(srv.mgr.driver)| && !host.driver.credentials(srv.mgr.driver)[i].optional
    ensures ProxyUnlock(host, map[], World(Some(srv), NoLink))
              == (Some({}), World(Some(Server(srv.mgr.(asked := srv.mgr.asked + 1), map[])), NoLink))
  {
    RefusedWithoutAnswers(host.driver, srv, i);
    CodeFromIs({ErrPromptUnavailable}, 0);
    RoundTripWhole(host, Unlock(map[]), World(Some(srv), Live));
    hide Handled, RoundTrip, ErrorCode;
  }

  lemma RefusedWithoutAnswers<S(!new)>(d: Driver<S>, srv: Server<S>, i: nat)
    requires srv.mgr.configured && !srv.mgr.unlocked
    requires i < |d.credentials(srv.mgr.driver)| && !d.credentials(srv.mgr.driver)[i].optional
    ensures Handled(d, Unlock(map[]), srv)
              == (Refused({ErrPromptUnavailable}), Server(srv.mgr.(asked := srv.mgr.asked + 1), map[]))
  {
    var reqs := d.credentials(srv.mgr.driver);
    assert Replayed(map[], reqs) == Err({ErrPromptUnavailable});
    assert Replay(map[])(srv.mgr.asked, reqs) == Err({ErrPromptUnavailable});
  }

  /** The driver accepts no answers at all within so many attempts, each but the last refused as one that may
      be tried again. */
  predicate AcceptsNothing<S(!new)>(d: Driver<S>, s: S, left: nat) {
    left > 0 &&
    var (err, s') := d.unlock(s, map[]);
    err.None? || (ErrAuth in Transported(err.value) && AcceptsNothing(d, s', left - 1))
  }

  predicate NothingRequired(reqs: seq<Request>) {
    forall i | 0 <= i < |reqs| :: reqs[i].optional
  }

  /** A proxied Manager before a running agent. */
  function Facing<S>(srv: Server<S>, link: Link, asked: nat): State<World<S>> {
    State(true, false, World(Some(srv), link), asked)
  }

  /** One attempt at a running agent: nothing is asked, and the agent tries the driver on nothing if that can do. */
  lemma RunningAttempt<S(!new)>(host: Host<S>, p: Prompter, srv: Server<S>, link: Link, asked: nat)
    requires Faithful(host) && srv.mgr.configured && |host.req.encode(Unlock(map[]))| <= MAX_FRAME
    requires p(asked, []) == Ok(map[])
    ensures var (err, m) := Attempt(Proxy(host), p, [], Facing(srv, link, asked));
            if srv.mgr.unlocked then err.None?
            else if !NothingRequired(host.driver.credentials(srv.mgr.driver)) then err == Some({})
            else
              var (e, s) := host.driver.unlock(srv.mgr.driver, map[]);
              if e.None? then err.None?
              else err == Some(Transported(e.value))
                   && m == Facing(Server(State(true, false, s, srv.mgr.asked + 1), map[]), link, asked + 1)
  {
    var w := World(Some(srv), link);
    assert Proxy(host).unlock(w, map[]) == ProxyUnlock(host, map[], w);
    if srv.mgr.unlocked {
      RoundTripWhole(host, Unlock(map[]), World(Some(srv), Live));
    } else if NothingRequired(host.driver.credentials(srv.mgr.driver)) {
      HandledUnlock(host.driver, map[], srv);
      RoundTripWhole(host, Unlock(map[]), World(Some(srv), Live));
    } else {
      var i :| 0 <= i < |host.driver.credentials(srv.mgr.driver)| && !host.driver.credentials(srv.mgr.driver)[i].optional;
      RefusedWithoutAnswers(host.driver, srv, i);
      CodeFromIs({ErrPromptUnavailable}, 0);
      RoundTripWhole(host, Unlock(map[]), World(Some(srv), Live));
    }
  }

  lemma {:induction false} RunningAttempts<S(!new)>(host: Host<S>, p: Prompter, left: nat, srv: Server<S>, link: Link, asked: nat)
    requires Faithful(host) && FixedCredentials(host) && left > 0
    requires srv.mgr.configured && |host.req.encode(Unlock(map[]))| <= MAX_FRAME && forall k: nat :: p(k, []) == Ok(map[])
    ensures Attempts(Proxy(host), p, [], left, Facing(srv, link, asked)).0.None? <==>
            srv.mgr.unlocked || (NothingRequired(host.driver.credentials(srv.mgr.driver))
                                 && AcceptsNothing(host.driver, srv.mgr.driver, left))
    decreases left
  {
    RunningAttempt(host, p, srv, link, asked);
    var m := Facing(srv, link, asked);
    var err := Attempt(Proxy(host), p, [], m).0;
    assert Retries(Proxy(host), p, [], m) <==> err.Some? && ErrAuth in err.value;
    hide Proxy, Attempt, Faithful, Transported;
    if !srv.mgr.unlocked && NothingRequired(host.driver.credentials(srv.mgr.driver)) {
      var (e, s) := host.driver.unlock(srv.mgr.driver, map[]);
      if left > 1 && e.Some? && ErrAuth in Transported(e.value) {
        RunningAttempts(host, p, left - 1, Server(State(true, false, s, srv.mgr.asked + 1), map[]), link, asked + 1);
      }
    }
  }

  /** When Unlock succeeds against an agent that already runs: exactly if the agent is unlocked, or the driver
      requires no credential and accepts none given within the attempts allowed. */
  lemma RunningAgentUnlocksIff<S(!new)>(host: Host<S>, p: Prompter, retries: int, srv: Server<S>, link: Link, asked: nat)
    requires Faithful(host) && FixedCredentials(host)
    requires srv.mgr.configured && |host.req.encode(Unlock(map[]))| <= MAX_FRAME && forall k: nat :: p(k, []) == Ok(map[])
    ensures Unlocked(Proxy(host), p, retries, Facing(srv, link, asked)).0.None? <==>
            srv.mgr.unlocked || (NothingRequired(host.driver.credentials(srv.mgr.driver))
                                 && AcceptsNothing(host.driver, srv.mgr.driver, if retries < 1 then 1 else retries))
  {
    RunningAttempts(host, p, if retries < 1 then 1 else retries, srv, link, asked);
    assert Proxy(host).credentials(World(Some(srv), link)) == [];
    hide Attempts, Proxy, AcceptsNothing;
  }

  /** An unlock error with two coded sentinels: the direct Manager tries again, the other does not. */
  lemma TwoSentinelsStopTheRetry<S(!new)>(host: Host<S>, p: Prompter, reqs: seq<Request>, md: State<S>, ma: State<World<S>>)
    requires Faithful(host) && FixedCredentials(host) && Obliging(host, p, reqs)
    requires InStep(host, md, ma) && !md.unlocked && reqs == host.driver.credentials(md.driver)
    requires p(md.asked, reqs).Ok? && host.driver.unlock(md.driver, p(md.asked, reqs).value).0 == Some({ErrLocked, ErrAuth})
    ensures Retries(host.driver, p, reqs, md) && !Retries(Proxy(host), p, reqs, ma)
  {
    AttemptInStep(host, p, reqs, md, ma);
    AuthCanBeLost();
  }
}
