/** The lifecycle of flexvault/manager.go: configured, unlocked, and the retry loop between them. */
module Manager {
  import opened Text
  import opened Address
  import opened Vault

  /** A Manager's state with its driver's, and how often it has prompted. */
  datatype State<S> = State(configured: bool, unlocked: bool, driver: S, asked: nat)

  /// ## The meaning of each operation

  function Configured<S>(d: Driver<S>, m: State<S>): (Option<Error>, State<S>) {
    var (err, s) := d.configure(m.driver);
    (err, m.(configured := m.configured || err.None?, driver := s))
  }

  /** One attempt: prompt, then try. */
  function Attempt<S>(d: Driver<S>, p: Prompter, reqs: seq<Request>, m: State<S>): (Option<Error>, State<S>) {
    match p(m.asked, reqs)
    case Err(e) => (Some(e), m.(asked := m.asked + 1))
    case Ok(answers) =>
      var (err, s) := d.unlock(m.driver, answers);
      (err, State(m.configured, err.None?, s, m.asked + 1))
  }

  /** Whether an attempt is worth another one: the prompter answered and the driver refused the answers. */
  predicate Retries<S(!new)>(d: Driver<S>, p: Prompter, reqs: seq<Request>, m: State<S>) {
    p(m.asked, reqs).Ok? && var err := Attempt(d, p, reqs, m).0; err.Some? && ErrAuth in err.value
  }

  function Attempts<S(!new)>(d: Driver<S>, p: Prompter, reqs: seq<Request>, left: nat, m: State<S>): (Option<Error>, State<S>)
    requires left > 0
  {
    if left > 1 && Retries(d, p, reqs, m) then Attempts(d, p, reqs, left - 1, Attempt(d, p, reqs, m).1)
    else Attempt(d, p, reqs, m)
  }

  function Unlocked<S(!new)>(d: Driver<S>, p: Prompter, retries: int, m: State<S>): (Option<Error>, State<S>) {
    if !m.configured then (Some({ErrNotConfigured}), m)
    else if m.unlocked then (None, m)
    else Attempts(d, p, d.credentials(m.driver), if retries < 1 then 1 else retries, m)
  }

  function Guard<S>(m: State<S>): Option<Error> {
    if !m.configured then Some({ErrNotConfigured}) else if !m.unlocked then Some({ErrLocked}) else None
  }

  function Got<S>(d: Driver<S>, addr: string, m: State<S>): (Result<string, Error>, State<S>) {
    if Guard(m).Some? then (Err(Guard(m).value), m)
    else
      match ParseAddress(addr)
      case None => (Err({}), m)
      case Some((ns, key)) =>
        var (r, s) := d.get(m.driver, Joined(ns, key));
        (r, m.(driver := s))
  }

  function Stored<S>(d: Driver<S>, addr: string, value: string, m: State<S>): (Option<Error>, State<S>) {
    if Guard(m).Some? then (Guard(m), m)
    else
      match ParseAddress(addr)
      case None => (Some({}), m)
      case Some((ns, key)) =>
        var (r, s) := d.set_(m.driver, Joined(ns, key), value);
        (r, m.(driver := s))
  }

  function Listed<S>(d: Driver<S>, ns: string, m: State<S>): (Result<seq<string>, Error>, State<S>) {
    if Guard(m).Some? then (Err(Guard(m).value), m)
    else
      var (r, s) := d.list(m.driver, ns);
      (r, m.(driver := s))
  }

  function Locked<S>(d: Driver<S>, m: State<S>): (Option<Error>, State<S>) {
    var (err, s) := d.lock(m.driver);
    (err, m.(unlocked := false, driver := s))
  }

  /// ## The Manager

  class Manager<S(!new)> {
    const driver: Driver<S>
    const retries: int
    var configured: bool
    var unlocked: bool
    var inner: S          // the driver's state
    var asked: nat

    constructor (driver: Driver<S>, inner: S, retries: int)
      ensures this.driver == driver && this.retries == retries
      ensures Now() == State(false, false, inner, 0)
    {
      this.driver, this.retries := driver, retries;
      configured, unlocked, this.inner, asked := false, false, inner, 0;
    }

    ghost function Now(): State<S>
      reads this
    {
      State(configured, unlocked, inner, asked)
    }

    method Configure() returns (err: Option<Error>)
      modifies this
      ensures (err, Now()) == Configured(driver, old(Now()))
      ensures (err, inner) == driver.configure(old(inner)) && (configured <==> old(configured) || err.None?)
    {
      var r := driver.configure(inner);
      err, inner := r.0, r.1;
      if err.None? {
        configured := true;
      }
    }

    /** Prompts and tries until the driver accepts, fails otherwise than on the answers, or the attempts
        are used up. The prompter is the one installed at the time. */
    method Unlock(prompter: Prompter) returns (err: Option<Error>)
      modifies this
      ensures (err, Now()) == Unlocked(driver, prompter, retries, old(Now()))
    {
      if !configured {
        return Some({ErrNotConfigured});
      }
      if unlocked {
        return None;
      }
      var reqs := driver.credentials(inner);
      var attempts := retries;
      if attempts < 1 {
        attempts := 1;
      }
      err := None;
      for attempt := 0 to attempts
        invariant attempt < attempts ==>
          Attempts(driver, prompter, reqs, attempts - attempt, Now()) == Attempts(driver, prompter, reqs, attempts, old(Now()))
        invariant attempt == attempts ==> (err, Now()) == Attempts(driver, prompter, reqs, attempts, old(Now()))
      {
        ghost var before := Now();
        var answers := prompter(asked, reqs);
        asked := asked + 1;
        if answers.Err? {
          return Some(answers.error);
        }
        var r := driver.unlock(inner, answers.value);
        err, inner := r.0, r.1;
        unlocked := err.None?;
        assert (err, Now()) == Attempt(driver, prompter, reqs, before);
        if err.None? || ErrAuth !in err.value {
          return;
        }
      }
    }

    method Get(addr: string) returns (r: Result<string, Error>)
      modifies this
      ensures (r, Now()) == Got(driver, addr, old(Now()))
      ensures configured == old(configured) && unlocked == old(unlocked) && asked == old(asked)
      ensures if !old(configured) then r == Err({ErrNotConfigured}) && inner == old(inner)
              else if !old(unlocked) then r == Err({ErrLocked}) && inner == old(inner)
              else
                match ParseAddress(addr)
                case None => r == Err({}) && inner == old(inner)
                case Some((ns, key)) => (r, inner) == driver.get(old(inner), ns + "/" + key)
    {
      if !configured {
        return Err({ErrNotConfigured});
      }
      if !unlocked {
        return Err({ErrLocked});
      }
      var a := ParseAddress(addr);
      if a.None? {
        return Err({});
      }
      var out := driver.get(inner, Joined(a.value.0, a.value.1));
      r, inner := out.0, out.1;
    }

    method Set(addr: string, value: string) returns (err: Option<Error>)
      modifies this
      ensures (err, Now()) == Stored(driver, addr, value, old(Now()))
      ensures configured == old(configured) && unlocked == old(unlocked) && asked == old(asked)
      ensures if !old(configured) then err == Some({ErrNotConfigured}) && inner == old(inner)
              else if !old(unlocked) then err == Some({ErrLocked}) && inner == old(inner)
              else
                match ParseAddress(addr)
                case None => err == Some({}) && inner == old(inner)
                case Some((ns, key)) => (err, inner) == driver.set_(old(inner), ns + "/" + key, value)
    {
      if !configured {
        return Some({ErrNotConfigured});
      }
      if !unlocked {
        return Some({ErrLocked});
      }
      var a := ParseAddress(addr);
      if a.None? {
        return Some({});
      }
      var out := driver.set_(inner, Joined(a.value.0, a.value.1), value);
      err, inner := out.0, out.1;
    }

    method List(ns: string) returns (r: Result<seq<string>, Error>)
      modifies this
      ensures (r, Now()) == Listed(driver, ns, old(Now()))
      ensures configured == old(configured) && unlocked == old(unlocked) && asked == old(asked)
      ensures if !old(configured) then r == Err({ErrNotConfigured}) && inner == old(inner)
              else if !old(unlocked) then r == Err({ErrLocked}) && inner == old(inner)
              else (r, inner) == driver.list(old(inner), ns)
    {
      if !configured {
        return Err({ErrNotConfigured});
      }
      if !unlocked {
        return Err({ErrLocked});
      }
      var out := driver.list(inner, ns);
      r, inner := out.0, out.1;
    }

    /** Forgets that the vault is unlocked and locks the driver, whose error it reports. */
    method Lock() returns (err: Option<Error>)
      modifies this
      ensures (err, Now()) == Locked(driver, old(Now()))
      ensures (err, inner) == driver.lock(old(inner)) && !unlocked && configured == old(configured) && asked == old(asked)
    {
      unlocked := false;
      var r := driver.lock(inner);
      err, inner := r.0, r.1;
    }
  }

  /// ## Unlocking

  /** The state after `k` attempts. */
  function After<S(!new)>(d: Driver<S>, p: Prompter, reqs: seq<Request>, k: nat, m: State<S>): State<S> {
    if k == 0 then m else Attempt(d, p, reqs, After(d, p, reqs, k - 1, m)).1
  }

  lemma {:induction false} AfterFirst<S(!new)>(d: Driver<S>, p: Prompter, reqs: seq<Request>, k: nat, m: State<S>)
    requires k > 0
    ensures After(d, p, reqs, k, m) == After(d, p, reqs, k - 1, Attempt(d, p, reqs, m).1)
  {
    if k > 1 {
      AfterFirst(d, p, reqs, k - 1, m);
    }
  }

  /** Unlocking makes `k` attempts: each but the last was refused on its answers, and the last was not,
      unless the cap was reached; the outcome is that of the last. */
  lemma {:induction false} AttemptsMeaning<S(!new)>(d: Driver<S>, p: Prompter, reqs: seq<Request>, left: nat, m: State<S>)
    returns (k: nat)
    requires left > 0
    ensures 1 <= k <= left
    ensures Attempts(d, p, reqs, left, m) == Attempt(d, p, reqs, After(d, p, reqs, k - 1, m))
    ensures forall i: nat | i < k - 1 :: Retries(d, p, reqs, After(d, p, reqs, i, m))
    ensures k == left || !Retries(d, p, reqs, After(d, p, reqs, k - 1, m))
    ensures Attempts(d, p, reqs, left, m).1.asked == m.asked + k
  {
    if left > 1 && Retries(d, p, reqs, m) {
      var next := Attempt(d, p, reqs, m).1;
      var j := AttemptsMeaning(d, p, reqs, left - 1, next);
      k := j + 1;
      assert After(d, p, reqs, 0, m) == m;
      forall i: nat | 0 < i <= k ensures After(d, p, reqs, i, m) == After(d, p, reqs, i - 1, next) {
        AfterFirst(d, p, reqs, i, m);
      }
    } else {
      k := 1;
    }
  }

  /** A Manager is unlocked after Unlock just when it said so, and prompts at most as often as it may. */
  lemma UnlockMeaning<S(!new)>(d: Driver<S>, p: Prompter, retries: int, m: State<S>)
    ensures var (err, m') := Unlocked(d, p, retries, m);
            && (err.None? <==> m.configured && m'.unlocked)
            && m'.configured == m.configured
            && m.asked <= m'.asked <= m.asked + (if retries < 1 then 1 else retries)
            && (m'.asked == m.asked <==> !m.configured || m.unlocked)
  {
    if m.configured && !m.unlocked {
      var reqs := d.credentials(m.driver);
      var k := AttemptsMeaning(d, p, reqs, if retries < 1 then 1 else retries, m);
      AfterConfigured(d, p, reqs, k - 1, m);
      var last := After(d, p, reqs, k - 1, m);
      if k > 1 {
        assert Retries(d, p, reqs, After(d, p, reqs, k - 2, m));
      }
      assert !last.unlocked;
    }
  }

  /** The driver's state once `k` answers have been tried, from the prompt with number `first`. */
  function Tried<S>(d: Driver<S>, p: Prompter, reqs: seq<Request>, first: nat, s: S, k: nat): S {
    if k == 0 then s
    else
      var before := Tried(d, p, reqs, first, s, k - 1);
      match p(first + k - 1, reqs)
      case Err(_) => before
      case Ok(answers) => d.unlock(before, answers).1
  }

  /** What comes of the next answers. */
  function Tries<S>(d: Driver<S>, p: Prompter, reqs: seq<Request>, first: nat, s: S, k: nat): Option<Error> {
    match p(first + k, reqs)
    case Err(e) => Some(e)
    case Ok(answers) => d.unlock(Tried(d, p, reqs, first, s, k), answers).0
  }

  /** The driver refuses them for what they are. */
  predicate Refuses<S>(d: Driver<S>, p: Prompter, reqs: seq<Request>, first: nat, s: S, k: nat) {
    var e := Tries(d, p, reqs, first, s, k);
    p(first + k, reqs).Ok? && e.Some? && ErrAuth in e.value
  }

  /** What Unlock does with a locked vault, told by the driver and the prompter alone: answers are asked for and
      tried until the driver does not refuse them for what they are, or the attempts are used up; the last try
      gives the outcome. */
  lemma UnlockTries<S(!new)>(d: Driver<S>, p: Prompter, retries: int, m: State<S>) returns (k: nat)
    requires m.configured && !m.unlocked
    ensures var reqs, most := d.credentials(m.driver), if retries < 1 then 1 else retries;
            && k < most && (forall i: nat | i < k :: Refuses(d, p, reqs, m.asked, m.driver, i))
            && (k == most - 1 || !Refuses(d, p, reqs, m.asked, m.driver, k))
            && var e := Tries(d, p, reqs, m.asked, m.driver, k);
               Unlocked(d, p, retries, m)
                 == (e, State(true, e.None?, Tried(d, p, reqs, m.asked, m.driver, k + 1), m.asked + k + 1))
  {
    var reqs, most := d.credentials(m.driver), if retries < 1 then 1 else retries;
    var n := AttemptsMeaning(d, p, reqs, most, m);
    k := n - 1;
    AfterTried(d, p, reqs, k, m);
    forall i: nat | i < k ensures Refuses(d, p, reqs, m.asked, m.driver, i) {
      AfterTried(d, p, reqs, i, m);
      assert Retries(d, p, reqs, After(d, p, reqs, i, m));
    }
    hide Attempts, After;
  }

  /** Attempts that were all refused leave the vault locked, and the driver where its own answers have put it. */
  lemma {:induction false} AfterTried<S(!new)>(d: Driver<S>, p: Prompter, reqs: seq<Request>, k: nat, m: State<S>)
    requires m.configured && !m.unlocked && forall i: nat | i < k :: Retries(d, p, reqs, After(d, p, reqs, i, m))
    ensures After(d, p, reqs, k, m) == State(true, false, Tried(d, p, reqs, m.asked, m.driver, k), m.asked + k)
  {
    if k > 0 {
      AfterTried(d, p, reqs, k - 1, m);
      assert Retries(d, p, reqs, After(d, p, reqs, k - 1, m));
    }
  }

  lemma {:induction false} AfterConfigured<S(!new)>(d: Driver<S>, p: Prompter, reqs: seq<Request>, k: nat, m: State<S>)
    ensures After(d, p, reqs, k, m).configured == m.configured
    ensures After(d, p, reqs, k, m).asked == m.asked + k
  {
    if k > 0 {
      AfterConfigured(d, p, reqs, k - 1, m);
    }
  }
}
