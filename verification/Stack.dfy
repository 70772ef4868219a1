/** The KeePass driver behind the agent: the hypotheses of the simulation hold, and a secret stored through
    the whole stack reads back through it. */
module Stack {
  import opened Text
  import opened Address
  import opened Vault
  import opened Protocol
  import opened Agent
  import opened Simulation
  import M = Manager
  import K = Keepass

  lemma KeepassFitsTheAgent(host: Host<K.State>)
    requires host.driver == K.AsDriver()
    ensures FixedCredentials(host) && SimpleUnlocks(host.driver)
  {
    var d := host.driver;
    forall s, a ensures d.credentials(d.unlock(s, a).1) == d.credentials(s) {
      assert d.unlock(s, a) == K.Unlocked(s, a);
      assert K.Unlocked(s, a).1.setting == s.setting;
    }
    forall s, a | d.unlock(s, a).0.Some? ensures Simple(d.unlock(s, a).0.value) {
      assert d.unlock(s, a) == K.Unlocked(s, a);
    }
  }

  /** A stored secret reads back. */
  lemma StoredReadsBack(m: M.State<K.State>, addr: string, value: string)
    requires M.Stored(K.AsDriver(), addr, value, m).0.None?
    ensures M.Got(K.AsDriver(), addr, M.Stored(K.AsDriver(), addr, value, m).1).0 == Ok(value)
  {
    var (ns, key) := ParseAddress(addr).value;
    ParseAgain(addr);
    var gs := K.Root(m.driver).value;
    K.LookupWritten(gs, ns, key, value, ns, key);
    hide K.Written, K.Lookup;
  }

  /** And is listed: its namespace among the namespaces, its key under its namespace. */
  lemma StoredIsListed(m: M.State<K.State>, addr: string, value: string, ns: string, key: string)
    requires M.Stored(K.AsDriver(), addr, value, m).0.None? && ParseAddress(addr) == Some((ns, key))
    ensures var m' := M.Stored(K.AsDriver(), addr, value, m).1;
            var all, own := M.Listed(K.AsDriver(), "", m').0, M.Listed(K.AsDriver(), ns, m').0;
            && all.Ok? && ns in all.value
            && own.Ok? && key in own.value
  {
    ParseAgain(addr);
    var gs := K.Root(m.driver).value;
    K.LookupWritten(gs, ns, key, value, ns, key);
    K.ListedIff(K.Written(gs, ns, key, value), ns, key);
    hide K.Written, K.Lookup, K.Titles, K.GroupNames;
  }

  /** After one Unlock and any accesses through the agent, a Set that reports success is what Get returns. */
  lemma SetThenGetThroughTheAgent(host: Host<K.State>, p: Prompter, retries: int, ops: seq<Op>, addr: string, value: string)
    requires host.driver == K.AsDriver() && Faithful(host) && host.wired && Started(host).Some?
    requires Obliging(host, p, host.driver.credentials(host.built))
    requires AllCarried(host, ops + [OpSet(addr, value), OpGet(addr)], M.Unlocked(host.driver, p, retries, Direct(host)).1)
    ensures var all := ops + [OpSet(addr, value), OpGet(addr)];
            var os := Run(Proxy(host), all, M.Unlocked(Proxy(host), p, retries, Proxied(host)).1).0;
            |os| == |all| && (os[|ops|] == Written(None) ==> os[|ops| + 1] == Value(Ok(value)))
  {
    KeepassFitsTheAgent(host);
    var all := ops + [OpSet(addr, value), OpGet(addr)];
    AgentSimulatesDirect(host, p, retries, all);
    var md := M.Unlocked(host.driver, p, retries, Direct(host)).1;
    var m := Run(host.driver, ops, md).1;
    var up := ops + [OpSet(addr, value)];
    assert all[..|all| - 1] == up && up[..|up| - 1] == ops;
    RunLength(host.driver, ops, md);
    if M.Stored(K.AsDriver(), addr, value, m).0.None? {
      StoredReadsBack(m, addr, value);
    }
  }

  lemma {:induction false} RunLength<S>(d: Driver<S>, ops: seq<Op>, m: M.State<S>)
    ensures |Run(d, ops, m).0| == |ops|
  {
    if ops != [] {
      RunLength(d, ops[..|ops| - 1], m);
    }
  }
}
