/** The decrypted database: when the KeePass driver holds it, under a Manager, in the agent's server and in a loader's
    cache, and which answers it takes to get it. */
module Custody {
  import opened Text
  import opened Address
  import opened Vault
  import M = Manager
  import K = Keepass
  import A = Agent
  import S = Serving
  import C = SecretCache

  type State = M.State<K.State>

  /** The driver holds the database exactly while the Manager counts as unlocked. */
  predicate Kept(m: State) {
    m.unlocked <==> m.driver.db.Some?
  }

  /// ## Unlocking

  /** These answers open the vault. */
  predicate Opening(k: K.State, answers: Answers) {
    && k.configured && k.setting.opens
    && (if k.setting.hasKeyFile then k.setting.keyFileReads else "password" in answers && answers["password"] != "")
    && k.setting.decodes(if "password" in answers then answers["password"] else "").Decoded?
  }

  /** These are refused for what they are: a password that is missing where there is no key file, or a wrong one. */
  predicate Wrong(k: K.State, answers: Answers) {
    var password := if "password" in answers then answers["password"] else "";
    && k.configured && k.setting.opens
    && if k.setting.hasKeyFile then k.setting.keyFileReads && k.setting.decodes(password).WrongKey?
       else password == "" || k.setting.decodes(password).WrongKey?
  }

  /** The driver takes exactly the answers that open the vault, and asks for others exactly after wrong ones; it then
      stays as it was. */
  lemma DriverUnlocksIff(k: K.State, answers: Answers)
    ensures var (err, k') := K.AsDriver().unlock(k, answers);
            && (err.None? <==> Opening(k, answers))
            && (err.Some? && ErrAuth in err.value <==> Wrong(k, answers))
            && k' == if Opening(k, answers) then k.(db := Some(k.file)) else k
  {}

  /** The answers to the i-th prompt are wrong, or open the vault. */
  predicate WrongAt(p: Prompter, reqs: seq<Request>, m: State, i: nat) {
    p(m.asked + i, reqs).Ok? && Wrong(m.driver, p(m.asked + i, reqs).value)
  }

  predicate OpensAt(p: Prompter, reqs: seq<Request>, m: State, i: nat) {
    p(m.asked + i, reqs).Ok? && Opening(m.driver, p(m.asked + i, reqs).value)
  }

  /** A Manager over KeePass unlocks exactly if, within its attempts, answers come that open the vault after wrong ones
      only. Then it holds what the file holds, and otherwise what it held. */
  lemma UnlocksIff(p: Prompter, retries: int, m: State)
    requires m.configured && !m.unlocked
    ensures var (err, m') := M.Unlocked(K.AsDriver(), p, retries, m);
            var reqs, most := [Request("password", m.driver.setting.hasKeyFile)], if retries < 1 then 1 else retries;
            && (err.None? <==>
                  exists n: nat :: n < most && OpensAt(p, reqs, m, n) && forall i: nat | i < n :: WrongAt(p, reqs, m, i))
            && m'.driver == if err.None? then m.driver.(db := Some(m.driver.file)) else m.driver
  {
    var reqs, most := [Request("password", m.driver.setting.hasKeyFile)], if retries < 1 then 1 else retries;
    var n := M.UnlockTries(K.AsDriver(), p, retries, m);
    assert K.AsDriver().credentials(m.driver) == reqs;
    WrongLeavesItLocked(p, reqs, m, n);
    TriesNext(p, reqs, m, n);
    hide M.Unlocked, M.Tries, M.Tried, M.Refuses, OpensAt, WrongAt;
    if i: nat :| i < most && OpensAt(p, reqs, m, i) && forall j: nat | j < i :: WrongAt(p, reqs, m, j) {
      NotBoth(p, reqs, m, i);
    }
  }

  lemma {:induction false} WrongLeavesItLocked(p: Prompter, reqs: seq<Request>, m: State, n: nat)
    requires forall i: nat | i < n :: M.Refuses(K.AsDriver(), p, reqs, m.asked, m.driver, i)
    ensures M.Tried(K.AsDriver(), p, reqs, m.asked, m.driver, n) == m.driver
    ensures forall i: nat | i < n :: WrongAt(p, reqs, m, i)
  {
    hide WrongAt, OpensAt;
    if n > 0 {
      WrongLeavesItLocked(p, reqs, m, n - 1);
      assert M.Refuses(K.AsDriver(), p, reqs, m.asked, m.driver, n - 1);
      TriesNext(p, reqs, m, n - 1);
      NotBoth(p, reqs, m, n - 1);
    }
  }

  lemma TriesNext(p: Prompter, reqs: seq<Request>, m: State, n: nat)
    requires M.Tried(K.AsDriver(), p, reqs, m.asked, m.driver, n) == m.driver
    ensures var e := M.Tries(K.AsDriver(), p, reqs, m.asked, m.driver, n);
            && (e.None? <==> OpensAt(p, reqs, m, n))
            && M.Tried(K.AsDriver(), p, reqs, m.asked, m.driver, n + 1)
               == (if e.None? then m.driver.(db := Some(m.driver.file)) else m.driver)
            && (M.Refuses(K.AsDriver(), p, reqs, m.asked, m.driver, n) <==> WrongAt(p, reqs, m, n))
  {
    if p(m.asked + n, reqs).Ok? {
      DriverUnlocksIff(m.driver, p(m.asked + n, reqs).value);
    }
    hide K.Unlocked, Opening, Wrong;
  }

  lemma NotBoth(p: Prompter, reqs: seq<Request>, m: State, i: nat)
    ensures !(OpensAt(p, reqs, m, i) && WrongAt(p, reqs, m, i))
  {}

  /** The first use of a vault over KeePass gives an unlocked Manager exactly if a path is configured and one of three
      prompts brings answers that open the vault, after wrong ones only. */
  lemma FirstUseIff(conf: C.VaultConf<K.State>, p: Prompter)
    requires conf.driver == K.AsDriver()
    ensures var err := C.Cache.Opened(conf, p).0;
            var m := M.State(true, false, conf.built.(configured := true), 0);
            var reqs := [Request("password", conf.built.setting.hasKeyFile)];
            err.None? <==>
              && conf.built.setting.pathGiven
              && exists n: nat :: n < 3 && OpensAt(p, reqs, m, n) && forall i: nat | i < n :: WrongAt(p, reqs, m, i)
  {
    hide M.Unlocked, OpensAt, WrongAt;
    if conf.built.setting.pathGiven {
      UnlocksIff(p, 3, M.State(true, false, conf.built.(configured := true), 0));
    }
  }

  /// ## Locking

  /** Locking succeeds, and the driver no longer holds the database. */
  lemma LockDrops(m: State)
    ensures var (err, m') := M.Locked(K.AsDriver(), m); err.None? && m'.driver == m.driver.(db := None) && !m'.unlocked
  {}

  /** Whatever one critical section of the agent does, the database is held just while the vault is unlocked. */
  lemma CallKeeps(call: S.Call, m: State)
    requires Kept(m)
    ensures Kept(S.Apply(K.AsDriver(), call, m).1)
  {
    if call.TryUnlock? && m.configured && !m.unlocked {
      M.UnlockMeaning(K.AsDriver(), A.Replay(call.answers), 1, m);
      UnlocksIff(A.Replay(call.answers), 1, m);
    }
    hide M.Unlocked, K.Unlocked, K.Written, ParseAddress;
  }

  /** So it is from any point of a run at which it was. */
  lemma {:induction false} RunKeeps(m: State, log: seq<S.Entry>, k: nat)
    requires k <= |log| && Kept(S.Replayed(K.AsDriver(), m, log[..k]))
    ensures Kept(S.Replayed(K.AsDriver(), m, log))
    decreases |log|
  {
    hide S.Apply, Kept;
    if k == |log| {
      assert log[..k] == log;
    } else {
      var init := log[..|log| - 1];
      assert init[..k] == log[..k];
      RunKeeps(m, init, k);
      CallKeeps(log[|log| - 1].call, S.Replayed(K.AsDriver(), m, init));
    }
  }

  lemma LockKeeps(m: State)
    ensures Kept(S.Apply(K.AsDriver(), S.DoLock, m).1)
  {
    LockDrops(m);
  }

  /** Once the server's cleanup has run, the driver holds the database exactly if an unlock has succeeded since, with no
      lock after it: otherwise nothing decrypted is left in the process. */
  lemma HeldAfterCleanupIff(idle: int, m: State, now: int, states: seq<S.Sys<K.State>>, actions: seq<S.Action>, i: nat, n: nat)
    requires S.IsRun(K.AsDriver(), idle, states, actions) && states[0] == S.Start(idle, m, now) && m.configured
    requires i < n < |states| && actions[i] == S.Cleanup
    ensures var k, log := |states[i].log|, states[n].log;
            states[n].mgr.driver.db.Some? <==> exists j :: k < j && S.Opens(log, j, |log|)
  {
    var k, log := |states[i].log|, states[n].log;
    S.UnlockedAfterCleanupIff(K.AsDriver(), idle, m, now, states, actions, i, n);
    S.RunInv(K.AsDriver(), idle, m, now, states, actions, n);
    S.LogStep(K.AsDriver(), m, log, k);
    LockKeeps(S.Replayed(K.AsDriver(), m, log[..k]));
    hide S.IsRun, S.Replayed, S.Apply;
    RunKeeps(m, log, k + 1);
  }

  /** Closing a loader leaves no decrypted database with any Manager it had cached, and reports nothing. */
  method Close(c: C.Cache<K.State>) returns (err: Option<Error>)
    requires c.Valid() && forall n | n in c.vaults.confs :: c.vaults.confs[n].driver == K.AsDriver()
    modifies c, c.owned
    ensures err.None? && c.managers == map[]
    ensures forall n | n in old(c.managers) :: old(c.managers)[n].inner.db.None? && !old(c.managers)[n].unlocked
  {
    ghost var all, was := c.managers, map n | n in c.managers :: c.managers[n].Now();
    err := c.Close();
    hide C.Cache.Valid;
    forall n | n in all ensures all[n].inner.db.None? && !all[n].unlocked && n in c.vaults.confs {
      LockDrops(was[n]);
      assert all[n].Now() == C.Locked(c.vaults.confs[n], was[n]);
    }
  }
}
