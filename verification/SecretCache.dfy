/** The Loader's cache of unlocked vault Managers, flexconf/secret.go. Which vaults there are is fixed; the
    policy only decides which driver a vault is reached through. */
module SecretCache {
  import opened Text
  import opened Vault
  import opened Address
  import M = Manager

  /** A vault: the driver it is reached through and the driver's state when built. */
  datatype VaultConf<!S> = VaultConf(driver: Driver<S>, built: S)

  datatype Vaults<!S> = Vaults(default_: string, confs: map<string, VaultConf<S>>)

  /** The vault a name means: the default for the empty name. */
  function Effective<S>(vaults: Vaults<S>, name: string): (r: Option<string>)
    ensures r.Some? ==> r.value in vaults.confs && r.value != "" && (name != "" ==> r.value == name)
  {
    var n := if name == "" then vaults.default_ else name;
    if n == "" || n !in vaults.confs then None else Some(n)
  }

  /** A name means a vault exactly if the vault is there and has a name: the one it is, or the default for none. */
  lemma EffectiveIff<S>(vaults: Vaults<S>, name: string, vault: string)
    ensures Effective(vaults, name) == Some(vault) <==>
            vault in vaults.confs && vault != "" && (name == vault || (name == "" && vaults.default_ == vault))
  {}

  /** A reference is `[vault:]namespace/key`. */
  function ParseRef(path: string): Option<(string, string)> {
    var slash, colon := IndexByte(path, '/'), IndexByte(path, ':');
    if colon.Some? && (slash.None? || colon.value < slash.value) then
      var vault, addr := path[..colon.value], path[colon.value + 1..];
      if vault == "" || ':' in addr then None else Some((vault, addr))
    else if ':' in path then None
    else Some(("", path))
  }

  /** Exactly the references with a vault of neither slash nor colon, or with no colon at all. */
  lemma ParseRefIff(path: string, vault: string, addr: string)
    ensures ParseRef(path) == Some((vault, addr)) <==>
            && ':' !in addr && ':' !in vault && '/' !in vault
            && path == if vault == "" then addr else vault + ":" + addr
  {
    var colon, slash := IndexByte(path, ':'), IndexByte(path, '/');
    if ParseRef(path) == Some((vault, addr)) && vault != "" {
      assert path == path[..colon.value] + ":" + path[colon.value + 1..];
    }
    if ':' !in addr && ':' !in vault && '/' !in vault && path == if vault == "" then addr else vault + ":" + addr {
      if vault != "" {
        IndexByteIs(vault, ':', addr);
        assert vault + [':'] + addr == path;
        assert path[..|vault|] == vault && path[|vault| + 1..] == addr;
        assert forall i | 0 <= i < |vault| :: path[i] == vault[i];
      }
    }
  }

  const RETRIES := 3

  /** The Manager is one of this vault. */
  ghost predicate Drives<S(!new)>(mgr: M.Manager<S>, conf: VaultConf<S>) {
    mgr.driver == conf.driver
  }

  /** A Manager of this vault after its driver was locked. */
  function Locked<S>(conf: VaultConf<S>, m: M.State<S>): M.State<S> {
    M.State(m.configured, false, conf.driver.lock(m.driver).1, m.asked)
  }

  /** An error is held exactly if one of those locked so far has failed, and is one of theirs. */
  ghost predicate FirstError<S(!new)>(vaults: Vaults<S>, was: map<string, M.State<S>>, todo: set<string>, err: Option<Error>) {
    && was.Keys <= vaults.confs.Keys
    && (err.None? <==> forall n | n in was && n !in todo :: vaults.confs[n].driver.lock(was[n].driver).0.None?)
    && (err.Some? ==> exists n :: n in was && err == vaults.confs[n].driver.lock(was[n].driver).0)
  }

  lemma NoError<S(!new)>(vaults: Vaults<S>, was: map<string, M.State<S>>)
    requires was.Keys <= vaults.confs.Keys
    ensures FirstError(vaults, was, was.Keys, None)
  {}

  lemma OneError<S(!new)>(vaults: Vaults<S>, was: map<string, M.State<S>>, todo: set<string>, n: string, first: Option<Error>)
    requires FirstError(vaults, was, todo, first) && n in todo && n in was
    ensures var e := vaults.confs[n].driver.lock(was[n].driver).0;
            FirstError(vaults, was, todo - {n}, if e.Some? && first.None? then e else first)
  {}

  lemma LastError<S(!new)>(vaults: Vaults<S>, was: map<string, M.State<S>>, err: Option<Error>)
    requires FirstError(vaults, was, {}, err)
    ensures was.Keys <= vaults.confs.Keys
    ensures err.None? <==> forall n | n in was :: vaults.confs[n].driver.lock(was[n].driver).0.None?
    ensures err.Some? ==> exists n :: n in was && err == vaults.confs[n].driver.lock(was[n].driver).0
  {}

  function Times(counts: map<string, nat>, n: string): nat {
    if n in counts then counts[n] else 0
  }

  class Cache<S(!new)> {
    const vaults: Vaults<S>
    var managers: map<string, M.Manager<S>>
    ghost var owned: set<M.Manager<S>>
    ghost var names: map<M.Manager<S>, string>   // the vault a Manager is cached for
    ghost var unlocks: map<string, nat>   // successful unlocks of each vault since the last close

    constructor (vaults: Vaults<S>)
      ensures this.vaults == vaults && Valid() && managers == map[] && owned == {} && unlocks == map[]
    {
      this.vaults, managers, owned, names, unlocks := vaults, map[], {}, map[], map[];
    }

    /** Each cached Manager drives the vault it is cached for, under the vault's effective name, and is
        configured and unlocked; no two vaults share one; and a vault was unlocked once since the last
        close if it is cached, and not at all if it is not. */
    ghost predicate Valid()
      reads this, owned
    {
      Caching() && Counted(managers.Keys)
    }

    ghost predicate Caching()
      reads this`managers, this`owned, this`names, owned
    {
      forall n | n in managers ::
        && managers[n] in owned && managers[n] in names && names[managers[n]] == n && n != "" && n in vaults.confs
        && Drives(managers[n], vaults.confs[n]) && managers[n].configured && managers[n].unlocked
    }

    /** These vaults were unlocked once each, and no others. */
    ghost predicate Counted(which: set<string>)
      reads this`unlocks
    {
      unlocks.Keys == which && forall n | n in unlocks :: unlocks[n] == 1
    }

    /** What a first use of a vault does with a new Manager. */
    static function Opened(conf: VaultConf<S>, p: Prompter): (Option<Error>, M.State<S>) {
      var (err, m) := M.Configured(conf.driver, M.State(false, false, conf.built, 0));
      if err.Some? then (err, m) else M.Unlocked(conf.driver, p, RETRIES, m)
    }

    /** The Manager of a vault, built and unlocked on first use. A vault already in the cache is neither
        configured nor unlocked again, and one that does not unlock is not cached. */
    method SecretManager(name: string, p: Prompter) returns (r: Result<M.Manager<S>, Error>)
      requires Valid()
      modifies this
      ensures Valid() && owned >= old(owned) && fresh(owned - old(owned))
      ensures Effective(vaults, name).None? ==> r == Err({}) && managers == old(managers)
      ensures var e := Effective(vaults, name);
              e.Some? && e.value in old(managers) ==> r == Ok(old(managers)[e.value]) && managers == old(managers)
      ensures var e := Effective(vaults, name);
              e.Some? && e.value !in old(managers) ==>
                var (err, m) := Opened(vaults.confs[e.value], p);
                match err
                case Some(x) => r == Err(x) && managers == old(managers)
                case None => r.Ok? && fresh(r.value) && managers == old(managers)[e.value := r.value] && r.value.Now() == m
      ensures r.Ok? ==> Effective(vaults, name).Some? && Effective(vaults, name).value in managers
                        && managers[Effective(vaults, name).value] == r.value && r.value in owned
    {
      hide Cache.Caching, Drives, Cache.Opened;
      var effective := Effective(vaults, name);
      if effective.None? {
        return Err({});
      }
      var n := effective.value;
      if n in managers {
        Owned(n);
        return Ok(managers[n]);
      }
      r := Open(n, vaults.confs[n], p);
      if r.Ok? {
        Add(n, r.value);
      }
    }

    lemma Owned(n: string)
      requires Valid() && n in managers
      ensures managers[n] in owned
    {}

    method Add(n: string, mgr: M.Manager<S>)
      requires Caching() && Counted(managers.Keys + {n}) && n in vaults.confs && n != "" && n !in managers && mgr !in owned
      requires Drives(mgr, vaults.confs[n]) && mgr.configured && mgr.unlocked
      modifies this`managers, this`owned, this`names
      ensures Valid() && managers == old(managers)[n := mgr] && owned == old(owned) + {mgr}
    {
      hide Drives;
      managers := managers[n := mgr];
      owned := owned + {mgr};
      names := names[mgr := n];
    }

    /** Builds, configures and unlocks a Manager; an unlock that succeeds is counted. */
    method Open(ghost n: string, conf: VaultConf<S>, p: Prompter) returns (r: Result<M.Manager<S>, Error>)
      modifies this`unlocks
      ensures var (err, m) := Opened(conf, p);
              match err
              case Some(x) => r == Err(x)
              case None => r.Ok? && fresh(r.value) && r.value.Now() == m && Drives(r.value, conf)
                           && m.configured && m.unlocked
      ensures unlocks == if r.Ok? then old(unlocks)[n := Times(old(unlocks), n) + 1] else old(unlocks)
    {
      var mgr := new M.Manager(conf.driver, conf.built, RETRIES);
      var err := mgr.Configure();
      if err.Some? {
        return Err(err.value);
      }
      M.UnlockMeaning(conf.driver, p, RETRIES, mgr.Now());
      err := mgr.Unlock(p);
      if err.Some? {
        return Err(err.value);
      }
      unlocks := unlocks[n := Times(unlocks, n) + 1];
      r := Ok(mgr);
    }

    /** The states of the cached Managers. */
    ghost function Known(): map<string, M.State<S>>
      requires Valid()
      reads this, owned
    {
      map n | n in managers :: managers[n].Now()
    }

    /** What a resolve returns: from the cached Manager, or from a new one if it unlocks. */
    static ghost function Value(vaults: Vaults<S>, known: map<string, M.State<S>>, p: Prompter, name: string, addr: string)
      : Result<string, Error>
    {
      match Effective(vaults, name)
      case None => Err({})
      case Some(n) =>
        var conf := vaults.confs[n];
        if n in known then M.Got(conf.driver, addr, known[n]).0
        else
          var (err, m) := Opened(conf, p);
          if err.Some? then Err(err.value) else M.Got(conf.driver, addr, m).0
    }

    /** Resolves `[vault:]namespace/key`. */
    method ResolveSecret(path: string, p: Prompter) returns (r: Result<string, Error>)
      requires Valid()
      modifies this, owned
      ensures Valid() && owned >= old(owned) && fresh(owned - old(owned))
      ensures managers.Keys >= old(managers).Keys && forall n | n in old(managers) :: managers[n] == old(managers)[n]
      ensures ParseRef(path).None? ==> r == Err({}) && managers == old(managers)
      ensures ParseRef(path).Some? ==> r == Value(vaults, old(Known()), p, ParseRef(path).value.0, ParseRef(path).value.1)
      ensures r.Ok? ==>
        && ParseRef(path).Some? && ParseAddress(ParseRef(path).value.1).Some?
        && Effective(vaults, ParseRef(path).value.0).Some? && Effective(vaults, ParseRef(path).value.0).value in managers
    {
      hide ParseRef, Drives, M.Got;
      assert Known().Keys == managers.Keys;
      hide Cache.Valid;
      var reference := ParseRef(path);
      if reference.None? {
        return Err({});
      }
      var (name, addr) := reference.value;
      var found := SecretManager(name, p);
      if found.Err? {
        assert Effective(vaults, name).Some? ==> Opened(vaults.confs[Effective(vaults, name).value], p).0 == Some(found.error);
        return Err(found.error);
      }
      r := GetFrom(Effective(vaults, name).value, addr);
    }

    method GetFrom(n: string, addr: string) returns (r: Result<string, Error>)
      requires Valid() && n in managers && n in vaults.confs
      modifies managers[n]
      ensures Valid() && r == M.Got(vaults.confs[n].driver, addr, old(managers[n].Now())).0
      ensures r.Ok? ==> ParseAddress(addr).Some?
    {
      r := managers[n].Get(addr);
    }

    /** Locks every cached Manager, in any order, and forgets them all, whatever the drivers say; an error of one of
        the drivers is reported. */
    method Close() returns (err: Option<Error>)
      requires Valid()
      modifies this, owned
      ensures Valid() && managers == map[] && owned == old(owned)
      ensures forall n | n in old(managers) ::
                n in vaults.confs && old(managers)[n].Now() == Locked(vaults.confs[n], old(managers[n].Now()))
      ensures err.None? <==> forall n | n in old(managers) :: vaults.confs[n].driver.lock(old(managers[n].inner)).0.None?
      ensures err.Some? ==> exists n :: n in old(managers) && err == vaults.confs[n].driver.lock(old(managers[n].inner)).0
    {
      ghost var all, was := managers, map n | n in managers :: managers[n].Now();
      Begun();
      NoError(vaults, was);
      hide Cache.Valid, Cache.Progress, FirstError;
      err := CloseEach(all, was);
      AllClosed(all, was);
      LastError(vaults, was, err);
    }

    method CloseEach(ghost all: map<string, M.Manager<S>>, ghost was: map<string, M.State<S>>) returns (err: Option<Error>)
      requires Valid() && Progress(all, was, managers.Keys) && FirstError(vaults, was, managers.Keys, None)
      modifies this, owned
      ensures Valid() && owned == old(owned) && Progress(all, was, {}) && FirstError(vaults, was, {}, err)
    {
      err := None;
      hide Cache.Valid, Cache.Progress, FirstError;
      var todo := managers.Keys;
      while todo != {}
        invariant Valid() && owned == old(owned) && Progress(all, was, todo) && FirstError(vaults, was, todo, err)
      {
        var n :| n in todo;
        NotYet(n, all, was, todo);
        err := CloseNext(n, all, was, todo, err);
        todo := todo - {n};
      }
    }

    /** How far closing has come: what is left is still cached, as it was, and the rest is locked. */
    ghost predicate Progress(all: map<string, M.Manager<S>>, was: map<string, M.State<S>>, todo: set<string>)
      reads this`managers, this`owned, owned
    {
      && (forall n | n in all :: all[n] in owned)
      && todo <= all.Keys && was.Keys == all.Keys && all.Keys <= vaults.confs.Keys
      && managers.Keys == todo && (forall n | n in todo :: managers[n] == all[n])
      && (forall n, k | n in all && k in all && n != k :: all[n] != all[k])
      && forall n | n in all :: all[n].Now() == if n in todo then was[n] else Locked(vaults.confs[n], was[n])
    }

    lemma Begun()
      requires Valid()
      ensures Progress(managers, map n | n in managers :: managers[n].Now(), managers.Keys)
    {
      Apart();
    }

    lemma NotYet(n: string, all: map<string, M.Manager<S>>, was: map<string, M.State<S>>, todo: set<string>)
      requires Valid() && Progress(all, was, todo) && n in todo
      ensures n in managers && managers[n] in owned
    {
      Owned(n);
    }

    lemma AllClosed(all: map<string, M.Manager<S>>, was: map<string, M.State<S>>)
      requires Progress(all, was, {})
      ensures managers == map[] && was.Keys == all.Keys
      ensures forall n | n in all :: n in vaults.confs && all[n].Now() == Locked(vaults.confs[n], was[n])
    {}

    /** One turn of the loop. */
    method CloseNext(n: string, ghost all: map<string, M.Manager<S>>, ghost was: map<string, M.State<S>>,
                     ghost todo: set<string>, first: Option<Error>)
      returns (err: Option<Error>)
      requires Valid() && n in todo && Progress(all, was, todo) && FirstError(vaults, was, todo, first) && n in managers
      modifies this`managers, this`unlocks, managers[n]
      ensures Valid() && Progress(all, was, todo - {n}) && FirstError(vaults, was, todo - {n}, err)
    {
      hide Cache.Valid, FirstError, Locked;
      assert managers[n] == all[n] && all[n].Now() == was[n];
      var e := CloseOne(n);
      assert forall k | k in all && k != n :: all[k].Now() == old(all[k].Now());
      err := if e.Some? && first.None? then e else first;
      OneError(vaults, was, todo, n, first);
    }

    lemma Apart()
      requires Valid()
      ensures forall n | n in managers ::
                managers[n] in owned && managers[n] in names && names[managers[n]] == n && n in vaults.confs
    {}

    method CloseOne(n: string) returns (err: Option<Error>)
      requires Valid() && n in managers && n in vaults.confs
      modifies this`managers, this`unlocks, managers[n]
      ensures Valid() && old(managers)[n].Now() == Locked(vaults.confs[n], old(managers[n].Now()))
      ensures err == vaults.confs[n].driver.lock(old(managers[n].inner)).0
      ensures managers == old(managers) - {n}
    {
      var mgr := managers[n];
      assert Drives(mgr, vaults.confs[n]);
      Forget(n);
      hide Cache.Valid;
      err := mgr.Lock();
    }

    method Forget(n: string)
      requires Valid() && n in managers
      modifies this`managers, this`unlocks
      ensures Valid() && managers == old(managers) - {n}
      ensures forall k | k in managers :: managers[k] == old(managers)[k] && managers[k] != old(managers)[n]
    {
      hide Drives;
      managers := managers - {n};
      unlocks := unlocks - {n};
    }
  }

  /// ## Whole runs

  datatype Op = Resolve(path: string) | CloseAll

  /** Over every run of resolves and closes from an empty cache: what is cached is unlocked, and no vault is
      unlocked twice between two closes. */
  method Run<S(!new)>(vaults: Vaults<S>, p: Prompter, ops: seq<Op>) returns (c: Cache<S>)
    ensures c.Valid() && c.vaults == vaults
    ensures forall n | n in c.managers :: c.managers[n].unlocked && c.managers[n].configured
    ensures forall n | n in c.unlocks :: c.unlocks[n] <= 1
  {
    c := new Cache(vaults);
    for i := 0 to |ops|
      invariant c.Valid() && c.vaults == vaults && fresh(c) && fresh(c.owned)
    {
      match ops[i]
      case Resolve(path) =>
        var r := c.ResolveSecret(path, p);
      case CloseAll =>
        var err := c.Close();
    }
  }
}
