/** Racing calls of Spawn, internal/agent/spawn.go, as interleaved steps: the file lock around check, start
    and wait, and the agent process that binds its socket in its own time. */
module Spawn {
  import opened Text

  /** A call of Spawn: before the lock, holding it before the check, waiting for the socket, returned. */
  datatype Racer = Outside | Checking | Waiting | Returned(ok: bool)

  /** An agent process: started, bound to the socket, or gone because another one was bound. */
  datatype Process = Booting | Bound | Refused

  datatype Sys = Sys(racers: seq<Racer>, flock: Option<nat>, processes: seq<Process>)

  datatype Action = Acquire(i: nat) | Check(i: nat) | Poll(i: nat) | Timeout(i: nat) | Boot(p: nat)

  /** The socket answers. */
  predicate Running(s: Sys) {
    exists p | 0 <= p < |s.processes| :: s.processes[p].Bound?
  }

  function Return(s: Sys, i: nat, ok: bool): Sys
    requires i < |s.racers|
  {
    s.(racers := s.racers[i := Returned(ok)], flock := None)
  }

  /** One step, or None where it cannot be taken. */
  function Step(s: Sys, a: Action): Option<Sys> {
    match a
    case Acquire(i) =>
      if i < |s.racers| && s.racers[i].Outside? && s.flock.None?
      then Some(s.(racers := s.racers[i := Checking], flock := Some(i))) else None
    case Check(i) =>
      if !(i < |s.racers| && s.racers[i].Checking?) then None
      else if Running(s) then Some(Return(s, i, true))
      else Some(s.(racers := s.racers[i := Waiting], processes := s.processes + [Booting]))
    case Poll(i) =>
      if !(i < |s.racers| && s.racers[i].Waiting?) then None
      else if Running(s) then Some(Return(s, i, true))
      else Some(s)
    case Timeout(i) => if i < |s.racers| && s.racers[i].Waiting? then Some(Return(s, i, false)) else None
    case Boot(p) =>
      if p < |s.processes| && s.processes[p].Booting?
      then Some(s.(processes := s.processes[p := if Running(s) then Refused else Bound])) else None
  }

  /** `k` calls, and no agent. */
  function Start(k: nat): Sys {
    Sys(seq(k, _ => Outside), None, [])
  }

  ghost predicate Inv(s: Sys) {
    && (forall i | 0 <= i < |s.racers| :: s.racers[i].Checking? || s.racers[i].Waiting? <==> s.flock == Some(i))
    && (s.flock.Some? ==> s.flock.value < |s.racers|)
    && |s.processes| <= 1
    && (|s.processes| == 1 ==> !s.processes[0].Refused?)
    && (forall i | 0 <= i < |s.racers| && s.racers[i].Waiting? :: |s.processes| == 1)
    && (|s.processes| == 1 && s.processes[0].Booting? ==> s.flock.Some? && s.racers[s.flock.value].Waiting?)
    && (forall i | 0 <= i < |s.racers| && s.racers[i].Returned? :: s.racers[i].ok && Running(s))
  }

  lemma StepInv(s: Sys, a: Action)
    requires Inv(s) && !a.Timeout? && Step(s, a).Some?
    ensures Inv(Step(s, a).value) && |Step(s, a).value.racers| == |s.racers|
  {
    var s' := Step(s, a).value;
    if Running(s) {
      assert s.processes[0].Bound? && s'.processes == s.processes;
      assert Running(s');
    } else if a.Boot? {
      assert s'.processes[0].Bound?;
      assert Running(s');
    }
  }

  ghost predicate IsRun(states: seq<Sys>, actions: seq<Action>) {
    && |states| == |actions| + 1
    && forall i | 0 <= i < |actions| :: Step(states[i], actions[i]) == Some(states[i + 1])
  }

  lemma {:induction false} RunInv(k: nat, states: seq<Sys>, actions: seq<Action>, n: nat)
    requires IsRun(states, actions) && states[0] == Start(k) && n < |states|
    requires forall i | 0 <= i < |actions| :: !actions[i].Timeout?
    ensures Inv(states[n]) && |states[n].racers| == k
  {
    if n > 0 {
      RunInv(k, states, actions, n - 1);
      assert Step(states[n - 1], actions[n - 1]) == Some(states[n - 1 + 1]);
      StepInv(states[n - 1], actions[n - 1]);
    }
  }

  ghost predicate AllReturned(s: Sys) {
    forall i | 0 <= i < |s.racers| :: s.racers[i].Returned?
  }

  /** Without timeouts, in every interleaving of `k` calls at most one agent is started, every call that has
      returned has succeeded with the socket answering, and when all have returned exactly one was started. */
  lemma OneAgent(k: nat, states: seq<Sys>, actions: seq<Action>, n: nat)
    requires IsRun(states, actions) && states[0] == Start(k) && n < |states|
    requires forall i | 0 <= i < |actions| :: !actions[i].Timeout?
    ensures var s := states[n];
            && |s.racers| == k && |s.processes| <= 1
            && (forall i | 0 <= i < k && s.racers[i].Returned? :: s.racers[i].ok && Running(s))
            && (k > 0 && AllReturned(s) ==> s.processes == [Bound])
  {
    RunInv(k, states, actions, n);
    var s := states[n];
    if k > 0 && AllReturned(s) {
      assert s.racers[0].ok && Running(s);
    }
  }

  /// ## Every call returns

  function RacerRank(r: Racer): nat {
    match r
    case Outside => 3
    case Checking => 2
    case Waiting => 1
    case Returned(_) => 0
  }

  function RanksOf(rs: seq<Racer>): nat {
    if rs == [] then 0 else RanksOf(rs[..|rs| - 1]) + RacerRank(rs[|rs| - 1])
  }

  /** What is left to do; a process that boots counts as one step. */
  function Rank(s: Sys): nat {
    2 * RanksOf(s.racers) + if |s.processes| == 1 && s.processes[0].Booting? then 1 else 0
  }

  lemma {:induction false} RanksUpdate(rs: seq<Racer>, i: nat, r: Racer)
    requires i < |rs|
    ensures RanksOf(rs[i := r]) + RacerRank(rs[i]) == RanksOf(rs) + RacerRank(r)
  {
    var init, last := rs[..|rs| - 1], |rs| - 1;
    if i == last {
      assert rs[i := r][..last] == init;
    } else {
      assert rs[i := r][..last] == init[i := r];
      RanksUpdate(init, i, r);
    }
  }

  /** Every step but a poll that finds nothing brings the calls closer to their end. */
  lemma StepsProgress(s: Sys, a: Action)
    requires Inv(s) && !a.Timeout? && Step(s, a).Some? && Step(s, a).value != s
    ensures Rank(Step(s, a).value) < Rank(s)
  {
    if !a.Boot? {
      var s' := Step(s, a).value;
      RanksUpdate(s.racers, a.i, s'.racers[a.i]);
    }
  }

  /** And until all have returned there is such a step: no call waits for ever. */
  lemma SomethingToDo(s: Sys) returns (a: Action)
    requires Inv(s) && !AllReturned(s)
    ensures !a.Timeout? && Step(s, a).Some? && Step(s, a).value != s
  {
    if s.flock.Some? {
      var i := s.flock.value;
      if s.racers[i].Checking? {
        a := Check(i);
        assert Step(s, a).value.racers[i] != s.racers[i];
      } else if Running(s) {
        a := Poll(i);
        assert Step(s, a).value.racers[i] != s.racers[i];
      } else {
        a := Boot(0);
        assert Step(s, a).value.processes[0] != s.processes[0];
      }
    } else {
      var i :| 0 <= i < |s.racers| && !s.racers[i].Returned?;
      assert s.racers[i].Outside?;
      a := Acquire(i);
      assert Step(s, a).value.racers[i] != s.racers[i];
    }
  }

  /** With timeouts it is not so: a slow agent lets a second one be started. */
  lemma TimeoutStartsTwo() returns (states: seq<Sys>, actions: seq<Action>)
    ensures IsRun(states, actions) && states[0] == Start(2) && |states[|states| - 1].processes| == 2
  {
    actions := [Acquire(0), Check(0), Timeout(0), Acquire(1), Check(1)];
    var s0 := Start(2);
    assert s0.racers == [Outside, Outside];
    states := [s0,
      Sys([Checking, Outside], Some(0), []),
      Sys([Waiting, Outside], Some(0), [Booting]),
      Sys([Returned(false), Outside], None, [Booting]),
      Sys([Returned(false), Checking], Some(1), [Booting]),
      Sys([Returned(false), Waiting], Some(1), [Booting, Booting])];
    assert [Outside, Outside][0 := Checking] == [Checking, Outside];
    assert [Checking, Outside][0 := Waiting] == [Waiting, Outside] && [] + [Booting] == [Booting];
    assert [Waiting, Outside][0 := Returned(false)] == [Returned(false), Outside];
    assert [Returned(false), Outside][1 := Checking] == [Returned(false), Checking];
    assert [Returned(false), Checking][1 := Waiting] == [Returned(false), Waiting] && [Booting] + [Booting] == [Booting, Booting];
    forall i | 0 <= i < 5 ensures Step(states[i], actions[i]) == Some(states[i + 1]) {
      assert i in {0, 1, 2, 3, 4};
    }
  }
}
