/** When the order in which the fields of structs are visited decides whether a bind succeeds. Go leaves that
    order open, and the duplicate check compares selector sets in one direction only. */
module Orders {
  import opened Trees
  import opened Schema
  import opened Binding
  import opened Variants
  import opened Running
  import opened Walks
  import opened Agreement
  import opened Events
  import opened Arrangements

  /// ## When the order decides

  /** The plan can be arranged, and two sets of different fields of one struct clash one way. */
  ghost predicate OrderDecides(used: set<Sel>, p: Plan) {
    Arrangeable(used, p) && exists x, y :: FreePair(p, x, y) && Clash(x, y) && !Clash(y, x)
  }

  /** Two sets of different fields of one struct clash. */
  ghost predicate FreeToClash(p: Plan) {
    exists x, y :: FreePair(p, x, y) && Clash(x, y)
  }

  lemma DecidesIff(used: set<Sel>, p: Plan)
    requires Placed(p)
    ensures OrderDecides(used, p)
            <==> (exists o :: End(used, EventsOf(o, p)).None?) && exists o :: End(used, EventsOf(o, p)).Some?
  {
    hide Clash, FreePair, End, Clear, Arrangeable, Placed;
    SomeOrderIff(used, p);
    if o, q :| End(used, EventsOf(o, p)).None? && End(used, EventsOf(q, p)).Some? {
      var x, y := FreeClash(used, o, q, p);
      assert FreePair(p, x, y) && Clash(x, y) && !Clash(y, x);
    }
    if OrderDecides(used, p) {
      var x, y :| FreePair(p, x, y) && Clash(x, y) && !Clash(y, x);
      var q := FreeFirst(p, x, y);
      EndIff(used, EventsOf(q, p));
      assert !Clear(used, EventsOf(q, p));
      assert End(used, EventsOf(q, p)).Some?;
    }
  }

  /** Some order does not end well exactly if the plan cannot be arranged or two sets of different fields clash. */
  lemma SomeOrderFailsIff(used: set<Sel>, p: Plan)
    requires Placed(p)
    ensures (exists o :: End(used, EventsOf(o, p)).Some?) <==> !Arrangeable(used, p) || FreeToClash(p)
  {
    hide Clash, FreePair, End, Clear, Arrangeable, Placed, EventsOf;
    SomeOrderIff(used, p);
    if q :| End(used, EventsOf(q, p)).Some? {
      if Arrangeable(used, p) {
        var o :| End(used, EventsOf(o, p)).None?;
        var x, y := FreeClash(used, o, q, p);
      }
    }
    if x, y :| FreePair(p, x, y) && Clash(x, y) {
      var q := FreeFirst(p, x, y);
      EndIff(used, EventsOf(q, p));
      assert !Clear(used, EventsOf(q, p));
      assert End(used, EventsOf(q, p)).Some?;
    }
    if !Arrangeable(used, p) {
      assert End(used, EventsOf(Order(First(""), map[]), p)).Some?;
    }
  }

  /** Where a plan can be arranged, they clash one way only. */
  lemma OneWayOnly(used: set<Sel>, p: Plan)
    requires Placed(p)
    ensures OrderDecides(used, p) <==> Arrangeable(used, p) && FreeToClash(p)
  {
    hide Clash, FreePair, End, Clear, Arrangeable, Placed, EventsOf;
    SomeOrderIff(used, p);
    if Arrangeable(used, p) && FreeToClash(p) {
      var o :| End(used, EventsOf(o, p)).None?;
      EndIff(used, EventsOf(o, p));
      var x, y :| FreePair(p, x, y) && Clash(x, y);
      FreeOneWay(used, o, p, x, y);
    }
  }

  /** What ends well in one order and not in another. */
  lemma FreeClash(used: set<Sel>, o: Order, q: Order, p: Plan) returns (x: Sel, y: Sel)
    requires End(used, EventsOf(o, p)).None? && End(used, EventsOf(q, p)).Some?
    ensures FreePair(p, x, y) && Clash(x, y) && !Clash(y, x)
  {
    hide Clash, FreePair, End, Clear, EventsOf;
    EndIff(used, EventsOf(o, p));
    EndIff(used, EventsOf(q, p));
    if forall x, y | FreePair(p, x, y) :: !Clash(x, y) {
      StaysClear(used, o, q, p);
    }
    x, y :| FreePair(p, x, y) && Clash(x, y);
    FreeOneWay(used, o, p, x, y);
  }

  lemma {:induction false} DoneCounts(used: set<Sel>, events: seq<Event>, reg: Reg)
    requires End(used, events).None?
    ensures multiset(Done(used, events))[reg] == multiset(events)[Adding(reg)]
    decreases |events|
  {
    hide Taken;
    if events != [] {
      assert events == [events[0]] + events[1..];
      DoneCounts(used + {SelOf(events[0].reg)}, events[1..], reg);
    }
  }

  lemma SameLogs(used: set<Sel>, o: Order, q: Order, p: Plan)
    requires End(used, EventsOf(o, p)).None? && End(used, EventsOf(q, p)).None?
    ensures multiset(Done(used, EventsOf(o, p))) == multiset(Done(used, EventsOf(q, p)))
  {
    hide End, Done;
    forall reg ensures multiset(Done(used, EventsOf(o, p)))[reg] == multiset(Done(used, EventsOf(q, p)))[reg] {
      DoneCounts(used, EventsOf(o, p), reg);
      DoneCounts(used, EventsOf(q, p), reg);
      SameEvents(o, q, p);
    }
  }

  /// ## Binds

  /** Two runs that succeed, with the fields of every struct visited in orders of their own, give the same value
      and the same instances. */
  lemma SameResult(env: Env, o: Order, q: Order, n: Tree, t: Schema, v: Val, path: string, used: set<Sel>)
    requires FreshVariants(env)
    requires RunValue(env, o, n, t, v, path, used).err.None? && RunValue(env, q, n, t, v, path, used).err.None?
    ensures var r, s := RunValue(env, o, n, t, v, path, used), RunValue(env, q, n, t, v, path, used);
            r.v == s.v && multiset(r.log) == multiset(s.log)
  {
    ValueRuns(env, o, n, t, v, path, used);
    ValueRuns(env, q, n, t, v, path, used);
    hide BindValue, RunValue, End, Done, FreshVariants;
    SameLogs(used, o, q, BindValue(env, n, t, v, path).plan);
  }

  lemma StructSameResult(env: Env, o: Order, q: Order, n: Tree, cs: map<string, Tree>, t: Schema, v: Val, path: string,
                         used: set<Sel>)
    requires t.StructT? && FreshVariants(env) && forall k | k in cs :: cs[k] < n
    requires RunStruct(env, o, n, cs, t, v, path, used).err.None? && RunStruct(env, q, n, cs, t, v, path, used).err.None?
    ensures var r, s := RunStruct(env, o, n, cs, t, v, path, used), RunStruct(env, q, n, cs, t, v, path, used);
            r.v == s.v && multiset(r.log) == multiset(s.log)
  {
    StructRuns(env, o, n, cs, t, v, path, used);
    StructRuns(env, q, n, cs, t, v, path, used);
    hide BindStruct, RunStruct, End, Done, FreshVariants;
    SameLogs(used, o, q, BindStruct(env, n, cs, t, v, path).plan);
  }

  lemma ValueEnds(env: Env, o: Order, n: Tree, t: Schema, v: Val, path: string, used: set<Sel>)
    requires FreshVariants(env)
    ensures var b := BindValue(env, n, t, v, path);
            RunValue(env, o, n, t, v, path, used).err.None? <==> b.ok && End(used, EventsOf(o, b.plan)).None?
  {
    hide BindValue, RunValue, End, Done, EventsOf, FreshVariants;
    ValueRuns(env, o, n, t, v, path, used);
  }

  lemma StructEnds(env: Env, o: Order, n: Tree, cs: map<string, Tree>, t: Schema, v: Val, path: string, used: set<Sel>)
    requires t.StructT? && FreshVariants(env) && forall k | k in cs :: cs[k] < n
    ensures var b := BindStruct(env, n, cs, t, v, path);
            RunStruct(env, o, n, cs, t, v, path, used).err.None? <==> b.ok && End(used, EventsOf(o, b.plan)).None?
  {
    hide BindStruct, RunStruct, End, Done, EventsOf, FreshVariants;
    StructRuns(env, o, n, cs, t, v, path, used);
  }

  /** A bind succeeds in some order exactly if nothing else is wrong with it and its registrations can be arranged, and
      fails in some order exactly if something is, or they cannot, or two of them in different fields clash. */
  lemma ValueSucceedsIff(env: Env, n: Tree, t: Schema, v: Val, path: string, used: set<Sel>)
    requires FreshVariants(env) && WF(n)
    ensures (exists o :: RunValue(env, o, n, t, v, path, used).err.None?) <==>
              BindValue(env, n, t, v, path).ok && Arrangeable(used, BindValue(env, n, t, v, path).plan)
  {
    hide BindValue, RunValue, End, EventsOf, Arrangeable, Placed, FreshVariants;
    var b := BindValue(env, n, t, v, path);
    ValuePlaced(env, n, t, v, path);
    SomeOrderIff(used, b.plan);
    if o :| RunValue(env, o, n, t, v, path, used).err.None? {
      ValueEnds(env, o, n, t, v, path, used);
    }
    if b.ok && Arrangeable(used, b.plan) {
      var o :| End(used, EventsOf(o, b.plan)).None?;
      ValueEnds(env, o, n, t, v, path, used);
    }
  }

  lemma ValueFailsIff(env: Env, n: Tree, t: Schema, v: Val, path: string, used: set<Sel>)
    requires FreshVariants(env) && WF(n)
    ensures (exists o :: RunValue(env, o, n, t, v, path, used).err.Some?) <==>
              var b := BindValue(env, n, t, v, path); !b.ok || !Arrangeable(used, b.plan) || FreeToClash(b.plan)
  {
    hide BindValue, RunValue, End, EventsOf, Arrangeable, FreeToClash, Placed, FreshVariants;
    var b := BindValue(env, n, t, v, path);
    ValuePlaced(env, n, t, v, path);
    SomeOrderFailsIff(used, b.plan);
    if !b.ok {
      var any := Order(First(""), map[]);
      ValueEnds(env, any, n, t, v, path, used);
      assert RunValue(env, any, n, t, v, path, used).err.Some?;
    } else {
      if o :| RunValue(env, o, n, t, v, path, used).err.Some? {
        ValueEnds(env, o, n, t, v, path, used);
      }
      if o :| End(used, EventsOf(o, b.plan)).Some? {
        ValueEnds(env, o, n, t, v, path, used);
      }
    }
  }

  /** The same for a struct, and so for a load. */
  lemma StructSucceedsIff(env: Env, n: Tree, cs: map<string, Tree>, t: Schema, v: Val, path: string, used: set<Sel>)
    requires t.StructT? && FreshVariants(env) && forall k | k in cs :: cs[k] < n && WF(cs[k])
    ensures (exists o :: RunStruct(env, o, n, cs, t, v, path, used).err.None?) <==>
              BindStruct(env, n, cs, t, v, path).ok && Arrangeable(used, BindStruct(env, n, cs, t, v, path).plan)
  {
    hide BindStruct, RunStruct, End, EventsOf, Arrangeable, Placed, FreshVariants;
    var b := BindStruct(env, n, cs, t, v, path);
    StructPlaced(env, n, cs, t, v, path);
    SomeOrderIff(used, b.plan);
    if o :| RunStruct(env, o, n, cs, t, v, path, used).err.None? {
      StructEnds(env, o, n, cs, t, v, path, used);
    }
    if b.ok && Arrangeable(used, b.plan) {
      var o :| End(used, EventsOf(o, b.plan)).None?;
      StructEnds(env, o, n, cs, t, v, path, used);
    }
  }

  lemma StructFailsIff(env: Env, n: Tree, cs: map<string, Tree>, t: Schema, v: Val, path: string, used: set<Sel>)
    requires t.StructT? && FreshVariants(env) && forall k | k in cs :: cs[k] < n && WF(cs[k])
    ensures (exists o :: RunStruct(env, o, n, cs, t, v, path, used).err.Some?) <==>
              var b := BindStruct(env, n, cs, t, v, path); !b.ok || !Arrangeable(used, b.plan) || FreeToClash(b.plan)
  {
    hide BindStruct, RunStruct, End, EventsOf, Arrangeable, FreeToClash, Placed, FreshVariants;
    var b := BindStruct(env, n, cs, t, v, path);
    StructPlaced(env, n, cs, t, v, path);
    SomeOrderFailsIff(used, b.plan);
    if !b.ok {
      var any := Order(First(""), map[]);
      StructEnds(env, any, n, cs, t, v, path, used);
      assert RunStruct(env, any, n, cs, t, v, path, used).err.Some?;
    } else {
      if o :| RunStruct(env, o, n, cs, t, v, path, used).err.Some? {
        StructEnds(env, o, n, cs, t, v, path, used);
      }
      if o :| End(used, EventsOf(o, b.plan)).Some? {
        StructEnds(env, o, n, cs, t, v, path, used);
      }
    }
  }

  /** The order of visits decides whether a bind succeeds exactly if nothing else is wrong with it and the order
      decides what becomes of its registrations. */
  lemma BindDecidesIff(env: Env, n: Tree, t: Schema, v: Val, path: string, used: set<Sel>)
    requires FreshVariants(env) && WF(n)
    ensures (exists o :: RunValue(env, o, n, t, v, path, used).err.None?)
            && (exists o :: RunValue(env, o, n, t, v, path, used).err.Some?)
            <==> BindValue(env, n, t, v, path).ok && OrderDecides(used, BindValue(env, n, t, v, path).plan)
  {
    hide BindValue, RunValue, OrderDecides, Arrangeable, FreeToClash, Placed, FreshVariants;
    ValuePlaced(env, n, t, v, path);
    ValueSucceedsIff(env, n, t, v, path, used);
    ValueFailsIff(env, n, t, v, path, used);
    OneWayOnly(used, BindValue(env, n, t, v, path).plan);
  }

  /** The same for a struct, and so for a load. */
  lemma StructDecidesIff(env: Env, n: Tree, cs: map<string, Tree>, t: Schema, v: Val, path: string, used: set<Sel>)
    requires t.StructT? && FreshVariants(env) && forall k | k in cs :: cs[k] < n && WF(cs[k])
    ensures (exists o :: RunStruct(env, o, n, cs, t, v, path, used).err.None?)
            && (exists o :: RunStruct(env, o, n, cs, t, v, path, used).err.Some?)
            <==> BindStruct(env, n, cs, t, v, path).ok && OrderDecides(used, BindStruct(env, n, cs, t, v, path).plan)
  {
    hide BindStruct, RunStruct, OrderDecides, Arrangeable, FreeToClash, Placed, FreshVariants;
    StructPlaced(env, n, cs, t, v, path);
    StructSucceedsIff(env, n, cs, t, v, path, used);
    StructFailsIff(env, n, cs, t, v, path, used);
    OneWayOnly(used, BindStruct(env, n, cs, t, v, path).plan);
  }

  /** Two runs in orders of their own. */
  lemma RunsAgree(env: Env, o: Order, q: Order, n: Tree, t: Schema, v: Val, path: string, used: set<Sel>)
    requires FreshVariants(env) && WF(n)
    ensures var r, s := RunValue(env, o, n, t, v, path, used), RunValue(env, q, n, t, v, path, used);
            && (!OrderDecides(used, BindValue(env, n, t, v, path).plan) ==> (r.err.None? <==> s.err.None?))
            && (r.err.None? && s.err.None? ==> r.v == s.v && multiset(r.log) == multiset(s.log))
  {
    hide BindValue, RunValue, OrderDecides, FreshVariants;
    BindDecidesIff(env, n, t, v, path, used);
    if RunValue(env, o, n, t, v, path, used).err.None? && RunValue(env, q, n, t, v, path, used).err.None? {
      SameResult(env, o, q, n, t, v, path, used);
    }
  }

  lemma {:induction false} FreeRegisters(p: Plan, x: Sel, y: Sel)
    requires FreePair(p, x, y)
    ensures Registers(p, x) && Registers(p, y)
  {
    match p
    case InTurn(first, second) => if FreePair(first, x, y) { FreeRegisters(first, x, y); } else { FreeRegisters(second, x, y); }
    case Under(_, plan) => FreeRegisters(plan, x, y);
    case AnyOrder(keys, parts) =>
      if !InTwoFields(p, keys, x, y) {
        var k :| k in parts && k in keys && FreePair(parts[k], x, y);
        FreeRegisters(parts[k], x, y);
      }
  }

  /** No order decides a bind of good families: there only equal sets clash. */
  lemma GoodFamiliesNeverDecide(env: Env, n: Tree, t: Schema, v: Val, path: string, used: set<Sel>)
    requires GoodFamilies(env)
    ensures !OrderDecides(used, BindValue(env, n, t, v, path).plan)
    ensures t.StructT? && n.Map? ==> !OrderDecides(used, BindStruct(env, n, n.children, t, v, path).plan)
  {
    hide BindValue, BindStruct;
    ValueBuilt(env, n, t, v, path);
    BuiltNeverDecide(env, used, BindValue(env, n, t, v, path).plan);
    if t.StructT? && n.Map? {
      StructBuilt(env, n, n.children, t, v, path);
      BuiltNeverDecide(env, used, BindStruct(env, n, n.children, t, v, path).plan);
    }
  }

  lemma BuiltNeverDecide(env: Env, used: set<Sel>, p: Plan)
    requires GoodFamilies(env) && AllBuiltFor(env, p)
    ensures !OrderDecides(used, p)
  {
    hide GoodFamily, Built, EqualSelectors, Registers;
    forall x, y | FreePair(p, x, y) && Clash(x, y) ensures Clash(y, x) {
      FreeRegisters(p, x, y);
      BuiltEqual(env.families[x.family], x.selectors, y.selectors);
      BuiltEqual(env.families[x.family], y.selectors, x.selectors);
    }
  }
}
