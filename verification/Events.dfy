/** What happens to the registries in a given order of visits, and what other orders have in common with it. */
module Events {
  import opened Binding
  import opened Variants
  import opened Running

  /// ## Sequences of events

  ghost predicate Occurs(events: seq<Event>, x: Sel) {
    exists i | 0 <= i < |events| :: events[i].Adding? && SelOf(events[i].reg) == x
  }

  /** No panic, and no set that clashes with one taken or with an earlier one. */
  ghost predicate Clear(used: set<Sel>, events: seq<Event>) {
    && (forall i | 0 <= i < |events| :: events[i].Adding? && !Taken(used, SelOf(events[i].reg)))
    && forall i, j | 0 <= i < j < |events| :: !Clash(SelOf(events[i].reg), SelOf(events[j].reg))
  }

  lemma ClearTogether(used: set<Sel>, a: seq<Event>, b: seq<Event>)
    ensures Clear(used, a + b)
            <==> Clear(used, a) && Clear(used, b) && forall x, y | Occurs(a, x) && Occurs(b, y) :: !Clash(x, y)
  {
    hide Taken, Clash;
    var ab := a + b;
    assert forall i | 0 <= i < |a| :: ab[i] == a[i];
    assert forall i | 0 <= i < |b| :: ab[|a| + i] == b[i];
    if Clear(used, ab) {
      forall i, j | 0 <= i < j < |b| ensures !Clash(SelOf(b[i].reg), SelOf(b[j].reg)) {
        assert ab[|a| + i] == b[i] && ab[|a| + j] == b[j];
      }
      forall x, y | Occurs(a, x) && Occurs(b, y) ensures !Clash(x, y) {
        var i :| 0 <= i < |a| && a[i].Adding? && SelOf(a[i].reg) == x;
        var j :| 0 <= j < |b| && b[j].Adding? && SelOf(b[j].reg) == y;
        assert ab[i] == a[i] && ab[|a| + j] == b[j];
      }
    }
    if Clear(used, a) && Clear(used, b) && forall x, y | Occurs(a, x) && Occurs(b, y) :: !Clash(x, y) {
      forall i, j | 0 <= i < j < |ab| ensures !Clash(SelOf(ab[i].reg), SelOf(ab[j].reg)) {
        if i < |a| <= j {
          assert ab[i] == a[i] && ab[j] == b[j - |a|];
          assert Occurs(a, SelOf(a[i].reg)) && Occurs(b, SelOf(b[j - |a|].reg));
        } else if |a| <= i {
          assert ab[i] == b[i - |a|] && ab[j] == b[j - |a|];
        }
      }
    }
  }

  lemma OccursTogether(a: seq<Event>, b: seq<Event>, x: Sel)
    ensures Occurs(a + b, x) <==> Occurs(a, x) || Occurs(b, x)
  {
    var ab := a + b;
    if Occurs(b, x) {
      var i :| 0 <= i < |b| && b[i].Adding? && SelOf(b[i].reg) == x;
      assert ab[|a| + i] == b[i];
    }
    if Occurs(a, x) {
      var i :| 0 <= i < |a| && a[i].Adding? && SelOf(a[i].reg) == x;
      assert ab[i] == a[i];
    }
  }

  lemma ClearOne(used: set<Sel>, e: Event)
    ensures Clear(used, [e]) <==> e.Adding? && !Taken(used, SelOf(e.reg))
  {
    assert [e][0] == e;
  }

  /** A sequence ends well exactly if it is clear. */
  lemma {:induction false} EndIff(used: set<Sel>, events: seq<Event>)
    ensures End(used, events).None? <==> Clear(used, events)
    decreases |events|
  {
    if events != [] {
      var e, rest := events[0], events[1..];
      assert events == [e] + rest;
      ClearTogether(used, [e], rest);
      ClearOne(used, e);
      if e.Adding? {
        var x := SelOf(e.reg);
        EndIff(used + {x}, rest);
        OnlyOccurs(e);
        TakenMore(used, x, rest);
        hide Clear, Taken, Clash, Occurs;
      }
    }
  }

  lemma OnlyOccurs(e: Event)
    requires e.Adding?
    ensures forall y :: Occurs([e], y) <==> y == SelOf(e.reg)
  {
    assert [e][0] == e;
  }

  lemma TakenMore(used: set<Sel>, x: Sel, events: seq<Event>)
    ensures Clear(used + {x}, events) <==> Clear(used, events) && forall y | Occurs(events, y) :: !Clash(x, y)
  {
    hide Clash;
    forall y ensures Taken(used + {x}, y) <==> Taken(used, y) || Clash(x, y) {}
    forall i | 0 <= i < |events| && events[i].Adding? ensures Occurs(events, SelOf(events[i].reg)) {}
  }

  /// ## What a plan registers, in every order

  lemma {:induction false} RegistersIff(o: Order, p: Plan, x: Sel)
    ensures Registers(p, x) <==> Occurs(EventsOf(o, p), x)
    decreases p, 2
  {
    match p
    case Adds(reg) => OnlyOccurs(Adding(reg));
    case Breaks => assert [Panic][0] == Panic;
    case InTurn(first, second) =>
      RegistersIff(o, first, x);
      RegistersIff(o, second, x);
      OccursTogether(EventsOf(o, first), EventsOf(o, second), x);
    case Under(step, plan) => RegistersIff(o.Below(step), plan, x);
    case AnyOrder(keys, parts) => FieldsRegister(o, p, keys, x);
    case _ =>
  }

  lemma {:induction false} FieldsRegister(o: Order, p: Plan, todo: set<string>, x: Sel)
    requires p.AnyOrder?
    ensures Occurs(FieldEvents(o, p, todo), x) <==> exists k | k in p.parts && k in todo :: Registers(p.parts[k], x)
    decreases p, 1, |todo|
  {
    hide Occurs, Registers;
    NothingOccurs(x);
    if todo != {} {
      var k := o.pick(todo);
      FieldsRegister(o, p, todo - {k}, x);
      OccursTogether(PartEvents(o, p, k), FieldEvents(o, p, todo - {k}), x);
      if k in p.parts {
        RegistersIff(o.Below(InKey(k)), p.parts[k], x);
      }
    }
  }

  lemma NothingOccurs(x: Sel)
    ensures !Occurs([], x)
  {}

  /** The same happens in every order, in another sequence. */
  lemma {:induction false} SameEvents(o: Order, q: Order, p: Plan)
    ensures multiset(EventsOf(o, p)) == multiset(EventsOf(q, p))
    decreases p, 2
  {
    match p
    case InTurn(first, second) =>
      SameEvents(o, q, first);
      SameEvents(o, q, second);
    case Under(step, plan) => SameEvents(o.Below(step), q.Below(step), plan);
    case AnyOrder(keys, parts) => SameFieldEvents(o, q, p, keys);
    case _ =>
  }

  lemma {:induction false} SameFieldEvents(o: Order, q: Order, p: Plan, todo: set<string>)
    requires p.AnyOrder?
    ensures multiset(FieldEvents(o, p, todo)) == multiset(FieldEvents(q, p, todo))
    decreases p, 1, |todo|
  {
    if todo != {} {
      var k := o.pick(todo);
      if k in p.parts {
        SameEvents(o.Below(InKey(k)), q.Below(InKey(k)), p.parts[k]);
      }
      SameFieldEvents(o, q, p, todo - {k});
      PulledOut(q, p, todo, k);
    }
  }

  /** Any field may be counted first. */
  lemma {:induction false} PulledOut(q: Order, p: Plan, todo: set<string>, k: string)
    requires p.AnyOrder? && k in todo
    ensures multiset(FieldEvents(q, p, todo))
              == multiset(PartEvents(q, p, k)) + multiset(FieldEvents(q, p, todo - {k}))
    decreases |todo|
  {
    hide PartEvents;
    var j := q.pick(todo);
    if j != k {
      PulledOut(q, p, todo - {j}, k);
      PulledOut(q, p, todo - {k}, j);
      assert todo - {j} - {k} == todo - {k} - {j};
    }
  }

  /// ## Different fields of one struct

  /** `x` and `y` are registered in different fields of one struct. */
  ghost predicate FreePair(p: Plan, x: Sel, y: Sel) {
    match p
    case InTurn(first, second) => FreePair(first, x, y) || FreePair(second, x, y)
    case Under(_, plan) => FreePair(plan, x, y)
    case AnyOrder(keys, parts) => InTwoFields(p, keys, x, y) || exists k | k in parts && k in keys :: FreePair(parts[k], x, y)
    case _ => false
  }

  ghost predicate InTwoFields(p: Plan, keys: set<string>, x: Sel, y: Sel)
    requires p.AnyOrder?
  {
    exists j, k | j in p.parts && k in p.parts && j in keys && k in keys && j != k ::
      Registers(p.parts[j], x) && Registers(p.parts[k], y)
  }

  lemma PartClear(used: set<Sel>, o: Order, p: Plan, todo: set<string>, k: string)
    requires p.AnyOrder? && k in todo && Clear(used, FieldEvents(o, p, todo))
    ensures Clear(used, PartEvents(o, p, k))
    decreases |todo|
  {
    hide Clear, PartEvents;
    var j := o.pick(todo);
    ClearTogether(used, PartEvents(o, p, j), FieldEvents(o, p, todo - {j}));
    if j != k {
      PartClear(used, o, p, todo - {j}, k);
    }
  }

  /** Fields whose events are clear, and do not clash with one another, are clear in any order. */
  lemma {:induction false} FieldsClear(used: set<Sel>, o: Order, p: Plan, todo: set<string>)
    requires p.AnyOrder? && forall k | k in todo :: Clear(used, PartEvents(o, p, k))
    requires forall x, y | InTwoFields(p, todo, x, y) :: !Clash(x, y)
    ensures Clear(used, FieldEvents(o, p, todo))
    decreases |todo|
  {
    if todo != {} {
      hide Clear, PartEvents, Clash, Occurs, Registers;
      var k := o.pick(todo);
      var left := todo - {k};
      forall x, y | InTwoFields(p, left, x, y) ensures !Clash(x, y) {
        assert InTwoFields(p, todo, x, y);
      }
      FieldsClear(used, o, p, left);
      ClearTogether(used, PartEvents(o, p, k), FieldEvents(o, p, left));
      forall x, y | Occurs(PartEvents(o, p, k), x) && Occurs(FieldEvents(o, p, left), y) ensures !Clash(x, y) {
        PartRegisters(o, p, k, x);
        FieldsRegister(o, p, left, y);
        assert InTwoFields(p, todo, x, y);
      }
    } else {
      assert FieldEvents(o, p, todo) == [];
    }
  }

  lemma PartRegisters(o: Order, p: Plan, k: string, x: Sel)
    requires p.AnyOrder?
    ensures Occurs(PartEvents(o, p, k), x) <==> k in p.parts && Registers(p.parts[k], x)
  {
    if k in p.parts {
      RegistersIff(o.Below(InKey(k)), p.parts[k], x);
    }
  }

  /** What ends well in one order does so in every order, unless two sets of different fields clash. */
  lemma {:induction false} StaysClear(used: set<Sel>, o: Order, q: Order, p: Plan)
    requires Clear(used, EventsOf(o, p)) && forall x, y | FreePair(p, x, y) :: !Clash(x, y)
    ensures Clear(used, EventsOf(q, p))
  {
    hide Clear, Clash, Occurs, Registers;
    match p
    case InTurn(first, second) =>
      ClearTogether(used, EventsOf(o, first), EventsOf(o, second));
      StaysClear(used, o, q, first);
      StaysClear(used, o, q, second);
      ClearTogether(used, EventsOf(q, first), EventsOf(q, second));
      forall x, y | Occurs(EventsOf(q, first), x) && Occurs(EventsOf(q, second), y) ensures !Clash(x, y) {
        RegistersIff(o, first, x);
        RegistersIff(q, first, x);
        RegistersIff(o, second, y);
        RegistersIff(q, second, y);
      }
    case Under(step, plan) => StaysClear(used, o.Below(step), q.Below(step), plan);
    case AnyOrder(keys, parts) =>
      forall k | k in keys ensures Clear(used, PartEvents(q, p, k)) {
        PartClear(used, o, p, keys, k);
        if k in parts {
          StaysClear(used, o.Below(InKey(k)), q.Below(InKey(k)), parts[k]);
        }
      }
      FieldsClear(used, q, p, keys);
    case _ =>
  }

  /** Where some order ends well, no two of them clash both ways. */
  lemma {:induction false} FreeOneWay(used: set<Sel>, o: Order, p: Plan, x: Sel, y: Sel)
    requires Clear(used, EventsOf(o, p)) && FreePair(p, x, y)
    ensures !(Clash(x, y) && Clash(y, x))
  {
    hide Clear, Clash, Occurs, Registers;
    match p
    case InTurn(first, second) =>
      ClearTogether(used, EventsOf(o, first), EventsOf(o, second));
      if FreePair(first, x, y) {
        FreeOneWay(used, o, first, x, y);
      } else {
        FreeOneWay(used, o, second, x, y);
      }
    case Under(step, plan) => FreeOneWay(used, o.Below(step), plan, x, y);
    case AnyOrder(keys, parts) =>
      if InTwoFields(p, keys, x, y) {
        InTwoFieldsOneWay(used, o, p, keys, x, y);
      } else {
        var k :| k in parts && k in keys && FreePair(parts[k], x, y);
        PartClear(used, o, p, keys, k);
        FreeOneWay(used, o.Below(InKey(k)), parts[k], x, y);
      }
  }

  lemma {:induction false} InTwoFieldsOneWay(used: set<Sel>, o: Order, p: Plan, todo: set<string>, x: Sel, y: Sel)
    requires p.AnyOrder? && Clear(used, FieldEvents(o, p, todo)) && InTwoFields(p, todo, x, y)
    ensures !(Clash(x, y) && Clash(y, x))
    decreases |todo|
  {
    var j, k :| j in p.parts && k in p.parts && j in todo && k in todo && j != k
                && Registers(p.parts[j], x) && Registers(p.parts[k], y);
    hide Clear, Clash, Occurs, Registers;
    var i := o.pick(todo);
    var left := todo - {i};
    ClearTogether(used, PartEvents(o, p, i), FieldEvents(o, p, left));
    PartRegisters(o, p, i, x);
    PartRegisters(o, p, i, y);
    FieldsRegister(o, p, left, x);
    FieldsRegister(o, p, left, y);
    if i != j && i != k {
      assert InTwoFields(p, left, x, y);
      InTwoFieldsOneWay(used, o, p, left, x, y);
    }
  }

  /** A choice that takes one key first. */
  ghost function First(k: string): Pick {
    s => if k in s then k else SomeKey(s)
  }

  /** And some order has the one before the other. */
  lemma {:induction false} FreeFirst(p: Plan, x: Sel, y: Sel) returns (o: Order)
    requires FreePair(p, x, y) && Clash(x, y)
    ensures forall used :: !Clear(used, EventsOf(o, p))
  {
    hide Clear, Clash, Occurs, Registers;
    match p
    case InTurn(first, second) =>
      if FreePair(first, x, y) {
        o := FreeFirst(first, x, y);
      } else {
        o := FreeFirst(second, x, y);
      }
      forall used ensures !Clear(used, EventsOf(o, p)) {
        ClearTogether(used, EventsOf(o, first), EventsOf(o, second));
      }
    case Under(step, plan) =>
      var below := FreeFirst(plan, x, y);
      o := Order(First(""), map[step := below]);
    case AnyOrder(keys, parts) =>
      if InTwoFields(p, keys, x, y) {
        o := InTwoFieldsFirst(p, keys, x, y);
      } else {
        var k :| k in parts && k in keys && FreePair(parts[k], x, y);
        var below := FreeFirst(parts[k], x, y);
        o := Order(First(""), map[InKey(k) := below]);
        forall used ensures !Clear(used, EventsOf(o, p)) {
          if Clear(used, EventsOf(o, p)) {
            PartClear(used, o, p, keys, k);
          }
        }
      }
  }

  lemma InTwoFieldsFirst(p: Plan, keys: set<string>, x: Sel, y: Sel) returns (o: Order)
    requires p.AnyOrder? && InTwoFields(p, keys, x, y) && Clash(x, y)
    ensures forall used :: !Clear(used, FieldEvents(o, p, keys))
  {
    var j, k :| j in p.parts && k in p.parts && j in keys && k in keys && j != k
                && Registers(p.parts[j], x) && Registers(p.parts[k], y);
    hide Clear, Clash, Occurs, Registers;
    o := Order(First(j), map[]);
    assert o.pick(keys) == j;
    PartRegisters(o, p, j, x);
    FieldsRegister(o, p, keys - {j}, y);
    forall used ensures !Clear(used, FieldEvents(o, p, keys)) {
      ClearTogether(used, PartEvents(o, p, j), FieldEvents(o, p, keys - {j}));
    }
  }
}
