/** When some order of visits ends well, told from the plan: every part can, nothing clashes with what comes after it
    in a fixed order, and no fields of a struct clash in a circle. */
module Arrangements {
  import opened Text
  import opened Trees
  import opened Schema
  import opened Binding
  import opened Variants
  import opened Running
  import opened Agreement
  import opened Events

  /** Nothing this field registers clashes with what another of these fields registers, so it can go before them. */
  ghost predicate MayLead(p: Plan, some: set<string>, k: string)
    requires p.AnyOrder?
  {
    forall j, x, y | j in some && j != k && j in p.parts && k in p.parts
                     && Registers(p.parts[k], x) && Registers(p.parts[j], y) :: !Clash(x, y)
  }

  ghost predicate HasLeader(p: Plan, some: set<string>)
    requires p.AnyOrder?
  {
    exists k | k in some :: MayLead(p, some, k)
  }

  /** The fields clash in no circle: among any of them, there is one that can go before the others. */
  ghost predicate Acyclic(p: Plan)
    requires p.AnyOrder?
  {
    forall some | some != {} && some <= p.keys :: HasLeader(p, some)
  }

  ghost predicate Arrangeable(used: set<Sel>, p: Plan) {
    match p
    case Nothing => true
    case Adds(reg) => !Taken(used, SelOf(reg))
    case Breaks => false
    case InTurn(first, second) =>
      && Arrangeable(used, first) && Arrangeable(used, second)
      && forall x, y | Registers(first, x) && Registers(second, y) :: !Clash(x, y)
    case Under(_, plan) => Arrangeable(used, plan)
    case AnyOrder(keys, parts) => Acyclic(p) && forall k | k in keys && k in parts :: Arrangeable(used, parts[k])
  }

  /// ## What ends well is arranged

  lemma {:induction false} LeaderOf(used: set<Sel>, o: Order, p: Plan, todo: set<string>, some: set<string>)
    requires p.AnyOrder? && Clear(used, FieldEvents(o, p, todo)) && some != {} && some <= todo
    ensures HasLeader(p, some)
    decreases |todo|
  {
    hide Clear, Clash, Occurs, Registers, MayLead;
    var k := o.pick(todo);
    var left := todo - {k};
    ClearTogether(used, PartEvents(o, p, k), FieldEvents(o, p, left));
    if k in some {
      FirstMayLead(used, o, p, todo, some);
    } else {
      LeaderOf(used, o, p, left, some);
    }
  }

  lemma FirstMayLead(used: set<Sel>, o: Order, p: Plan, todo: set<string>, some: set<string>)
    requires p.AnyOrder? && Clear(used, FieldEvents(o, p, todo)) && some <= todo && todo != {} && o.pick(todo) in some
    ensures MayLead(p, some, o.pick(todo))
  {
    hide Clear, Clash, Occurs, Registers;
    var k := o.pick(todo);
    var left := todo - {k};
    ClearTogether(used, PartEvents(o, p, k), FieldEvents(o, p, left));
    forall j, x, y | j in some && j != k && j in p.parts && k in p.parts && Registers(p.parts[k], x) && Registers(p.parts[j], y)
      ensures !Clash(x, y)
    {
      PartRegisters(o, p, k, x);
      FieldsRegister(o, p, left, y);
      assert j in left;
    }
  }

  lemma {:induction false} ClearIsArranged(used: set<Sel>, o: Order, p: Plan)
    requires Clear(used, EventsOf(o, p))
    ensures Arrangeable(used, p)
  {
    hide Clear, Clash, Occurs, Registers, HasLeader, Taken;
    match p
    case Adds(reg) => ClearOne(used, Adding(reg));
    case Breaks => ClearOne(used, Panic);
    case InTurn(first, second) =>
      ClearTogether(used, EventsOf(o, first), EventsOf(o, second));
      ClearIsArranged(used, o, first);
      ClearIsArranged(used, o, second);
      forall x, y | Registers(first, x) && Registers(second, y) ensures !Clash(x, y) {
        RegistersIff(o, first, x);
        RegistersIff(o, second, y);
      }
    case Under(step, plan) => ClearIsArranged(used, o.Below(step), plan);
    case AnyOrder(keys, parts) =>
      forall some | some != {} && some <= keys ensures HasLeader(p, some) {
        LeaderOf(used, o, p, keys, some);
      }
      forall k | k in keys && k in parts ensures Arrangeable(used, parts[k]) {
        PartClear(used, o, p, keys, k);
        ClearIsArranged(used, o.Below(InKey(k)), parts[k]);
      }
    case Nothing =>
  }

  /// ## Plans of binds

  /** The steps a plan takes from where it stands. */
  function StepsOf(p: Plan): set<Step> {
    match p
    case InTurn(first, second) => StepsOf(first) + StepsOf(second)
    case Under(step, _) => {step}
    case AnyOrder(keys, parts) => set k | k in keys && k in parts :: InKey(k)
    case _ => {}
  }

  /** It chooses among fields where it stands. */
  predicate Chooses(p: Plan) {
    match p
    case InTurn(first, second) => Chooses(first) || Chooses(second)
    case AnyOrder(_, _) => true
    case _ => false
  }

  /** What comes one after the other is in different places, so that each has an order of its own. */
  ghost predicate Placed(p: Plan) {
    match p
    case InTurn(first, second) =>
      Placed(first) && Placed(second) && StepsOf(first) !! StepsOf(second) && !(Chooses(first) && Chooses(second))
    case Under(_, plan) => Placed(plan)
    case AnyOrder(keys, parts) => forall k | k in keys && k in parts :: Placed(parts[k])
    case _ => true
  }

  ghost predicate PartsPlaced(parts: map<string, Plan>) {
    forall k | k in parts :: Placed(parts[k])
  }

  /** The plan of every bind is such. */
  lemma {:induction false} ValuePlaced(env: Env, n: Tree, t: Schema, v: Val, path: string)
    requires WF(n)
    ensures Placed(BindValue(env, n, t, v, path).plan)
    decreases n, 3, t
  {
    hide BindStruct, BindKeys, BindItems, BindVariant;
    match t
    case PtrT(elem) => ValuePlaced(env, n, elem, Pointee(env, v, elem), path);
    case IfaceT(family, _) =>
      if family in env.families {
        VariantPlaced(env, n, family, v, path);
      }
    case StructT(_, _) =>
      if n.Map? {
        StructPlaced(env, n, n.children, t, v, path);
      }
    case MapT(_, elem) =>
      if n.Map? {
        KeysPlaced(env, n, elem, |n.keys|, path);
      }
    case SliceT(elem) =>
      if n.Seq? {
        ItemsPlaced(env, n, elem, |n.items|, path);
      }
    case _ =>
  }

  lemma {:induction false} KeysPlaced(env: Env, n: Tree, elem: Schema, m: nat, path: string)
    requires WF(n) && n.Map? && m <= |n.keys|
    ensures var p := BindKeys(env, n, elem, m, path).plan;
            Placed(p) && !Chooses(p) && forall step | step in StepsOf(p) :: step.InKey? && step.key in n.keys[..m]
    decreases n, 1, elem, m
  {
    hide BindValue, BindKeys;
    NothingYet(env, n, elem, path);
    if m > 0 {
      var key := n.keys[m - 1];
      KeysPlaced(env, n, elem, m - 1, path);
      assert n.keys[..m] == n.keys[..m - 1] + [key] && key !in n.keys[..m - 1];
      assert key in SetOf(n.keys);
      if key in n.children {
        KeysStep(env, n, elem, m - 1, path);
        ValuePlaced(env, n.children[key], elem, Zero(env, elem), JoinPath(path, key));
      }
    }
  }

  lemma {:induction false} ItemsPlaced(env: Env, n: Tree, elem: Schema, m: nat, path: string)
    requires WF(n) && n.Seq? && m <= |n.items|
    ensures var p := BindItems(env, n, elem, m, path).plan;
            Placed(p) && !Chooses(p) && forall step | step in StepsOf(p) :: step.InItem? && step.index < m
    decreases n, 1, elem, m
  {
    hide BindValue;
    if m > 0 {
      ItemsPlaced(env, n, elem, m - 1, path);
      ValuePlaced(env, n.items[m - 1], elem, Zero(env, elem), ItemPath(path, m - 1));
    }
  }

  lemma {:induction false} StructPlaced(env: Env, n: Tree, cs: map<string, Tree>, t: Schema, v: Val, path: string)
    requires t.StructT? && forall k | k in cs :: cs[k] < n && WF(cs[k])
    ensures Placed(BindStruct(env, n, cs, t, v, path).plan)
    decreases n, 1, t
  {
    hide BindFields;
    FieldsPlaced(env, n, cs, t, FieldVals(env, v, t), |t.fields|, path);
  }

  lemma {:induction false} FieldsPlaced(env: Env, n: Tree, cs: map<string, Tree>, t: Schema, vals: seq<Val>, m: nat, path: string)
    requires t.StructT? && |vals| == |t.fields| && m <= |vals| && forall k | k in cs :: cs[k] < n && WF(cs[k])
    ensures PartsPlaced(BindFields(env, n, cs, t, vals, m, path).parts)
    decreases n, 0, t, m
  {
    hide BindField, Placed;
    if m > 0 {
      FieldsPlaced(env, n, cs, t, vals, m - 1, path);
      FieldPlaced(env, n, cs, t, m - 1, vals[m - 1], path);
    }
  }

  lemma {:induction false} FieldPlaced(env: Env, n: Tree, cs: map<string, Tree>, t: Schema, i: nat, v: Val, path: string)
    requires t.StructT? && i < |t.fields| && forall k | k in cs :: cs[k] < n && WF(cs[k])
    ensures PartsPlaced(BindField(env, n, cs, t, i, v, path).parts)
    decreases n, 0, t, i
  {
    hide BindValue, BindFields, Placed;
    var f := t.fields[i];
    if f.tag.Key? && f.tag.key in cs {
      ValuePlaced(env, cs[f.tag.key], f.typ, v, JoinPath(path, f.tag.key));
    } else if f.tag.Inline? && Inlined(f).Some? {
      FieldsPlaced(env, n, cs, Inlined(f).value, InnerVals(env, f, v), |Inlined(f).value.fields|, path);
    }
  }

  lemma {:induction false} VariantPlaced(env: Env, n: Tree, family: nat, v: Val, path: string)
    requires WF(n) && family in env.families
    ensures Placed(BindVariant(env, n, family, v, path).plan)
    decreases n, 2
  {
    hide BindStruct, Selectors, Selectable;
    var fam := env.families[family];
    if VariantOf(fam, n).Some? {
      var variant := VariantOf(fam, n).value.1;
      StructPlaced(env, n, n.children - {fam.disc}, variant.typ, variant.make, path);
    }
  }

  /// ## And what is arranged ends well in some order

  /** Any order with this choice and these orders below does. */
  ghost predicate Arranges(used: set<Sel>, p: Plan, pick: Pick, inner: map<Step, Order>) {
    && StepsOf(p) <= inner.Keys
    && forall o: Order | (Chooses(p) ==> o.pick == pick) && AgreesBelow(o, inner, StepsOf(p)) :: Clear(used, EventsOf(o, p))
  }

  ghost predicate AgreesBelow(o: Order, inner: map<Step, Order>, steps: set<Step>)
    requires steps <= inner.Keys
  {
    forall step | step in steps :: o.Below(step) == inner[step]
  }

  lemma {:induction false} Arrange(used: set<Sel>, p: Plan) returns (pick: Pick, inner: map<Step, Order>)
    requires Arrangeable(used, p) && Placed(p)
    ensures inner.Keys == StepsOf(p) && Arranges(used, p, pick, inner)
    decreases p, 1
  {
    hide Clear, Clash, Occurs, Registers, Acyclic, Taken;
    pick, inner := First(""), map[];
    match p
    case Nothing => assert forall o :: EventsOf(o, p) == [] && Clear(used, []) by { NothingClear(used); }
    case Adds(reg) => ClearOne(used, Adding(reg));
    case Breaks =>
    case InTurn(first, second) => pick, inner := ArrangeInTurn(used, p);
    case Under(step, plan) =>
      var o := OrderFor(used, plan);
      inner := map[step := o];
      forall q: Order | AgreesBelow(q, inner, {step}) ensures Clear(used, EventsOf(q, p)) {
        assert q.Below(step) == o;
      }
    case AnyOrder(keys, parts) => pick, inner := ArrangeFields(used, p);
  }

  lemma NothingClear(used: set<Sel>)
    ensures Clear(used, [])
  {}

  /** An order that ends well. */
  ghost function OrderFor(used: set<Sel>, p: Plan): (o: Order)
    requires Arrangeable(used, p) && Placed(p)
    ensures Clear(used, EventsOf(o, p))
    decreases p, 3
  {
    ArrangedIsClear(used, p);
    var o :| Clear(used, EventsOf(o, p));
    o
  }

  lemma {:induction false} ArrangedIsClear(used: set<Sel>, p: Plan)
    requires Arrangeable(used, p) && Placed(p)
    ensures exists o :: Clear(used, EventsOf(o, p))
    decreases p, 2
  {
    hide Clear, Arrangeable, Placed;
    var pick, inner := Arrange(used, p);
    var o := Order(pick, inner);
    assert AgreesBelow(o, inner, StepsOf(p));
    assert Clear(used, EventsOf(o, p));
  }

  lemma {:induction false} ArrangeInTurn(used: set<Sel>, p: Plan) returns (pick: Pick, inner: map<Step, Order>)
    requires p.InTurn? && Arrangeable(used, p) && Placed(p)
    ensures inner.Keys == StepsOf(p) && Arranges(used, p, pick, inner)
    decreases p, 0
  {
    hide Clear, Clash, Occurs, Registers, Taken;
    var first, second := p.first, p.second;
    var a, below := Arrange(used, first);
    var b, others := Arrange(used, second);
    pick, inner := if Chooses(first) then a else b, below + others;
    forall o: Order | (Chooses(p) ==> o.pick == pick) && AgreesBelow(o, inner, StepsOf(p)) ensures Clear(used, EventsOf(o, p)) {
      assert AgreesBelow(o, below, StepsOf(first)) && AgreesBelow(o, others, StepsOf(second));
      ClearTogether(used, EventsOf(o, first), EventsOf(o, second));
      forall x, y | Occurs(EventsOf(o, first), x) && Occurs(EventsOf(o, second), y) ensures !Clash(x, y) {
        RegistersIff(o, first, x);
        RegistersIff(o, second, y);
      }
    }
  }

  /** A field that may lead, among those that are left. */
  ghost function Leader(p: Plan, some: set<string>): (k: string)
    requires p.AnyOrder?
    ensures some != {} ==> k in some
    ensures some != {} && HasLeader(p, some) ==> MayLead(p, some, k)
  {
    if some != {} && HasLeader(p, some) then
      var k :| k in some && MayLead(p, some, k);
      k
    else SomeKey(some)
  }

  ghost function Leading(p: Plan): Pick
    requires p.AnyOrder?
  {
    some => Leader(p, some)
  }

  lemma {:induction false} ArrangeFields(used: set<Sel>, p: Plan) returns (pick: Pick, inner: map<Step, Order>)
    requires p.AnyOrder? && Arrangeable(used, p) && Placed(p)
    ensures inner.Keys == StepsOf(p) && Arranges(used, p, pick, inner)
    decreases p, 0
  {
    hide Clear, Clash, Occurs, Registers, Taken, HasLeader, MayLead;
    pick := Leading(p);
    inner := map k | k in p.keys && k in p.parts :: InKey(k) := OrderFor(used, p.parts[k]);
    forall o: Order | o.pick == pick && AgreesBelow(o, inner, StepsOf(p)) ensures Clear(used, EventsOf(o, p)) {
      forall k | k in p.keys && k in p.parts ensures Clear(used, PartEvents(o, p, k)) {
        assert InKey(k) in StepsOf(p) && o.Below(InKey(k)) == OrderFor(used, p.parts[k]);
      }
      LedFieldsClear(used, o, p, p.keys);
    }
  }

  lemma {:induction false} LedFieldsClear(used: set<Sel>, o: Order, p: Plan, todo: set<string>)
    requires p.AnyOrder? && Acyclic(p) && todo <= p.keys && o.pick == Leading(p)
    requires forall k | k in p.keys && k in p.parts :: Clear(used, PartEvents(o, p, k))
    ensures Clear(used, FieldEvents(o, p, todo))
    decreases |todo|
  {
    hide Clear, Clash, Occurs, Registers, HasLeader, PartEvents;
    NothingClear(used);
    if todo == {} {
      assert FieldEvents(o, p, todo) == [];
    } else {
      var k := o.pick(todo);
      var left := todo - {k};
      assert HasLeader(p, todo);
      assert k == Leader(p, todo);
      LedFieldsClear(used, o, p, left);
      NoPartClear(used, o, p, k);
      ClearTogether(used, PartEvents(o, p, k), FieldEvents(o, p, left));
      forall x, y | Occurs(PartEvents(o, p, k), x) && Occurs(FieldEvents(o, p, left), y) ensures !Clash(x, y) {
        PartRegisters(o, p, k, x);
        FieldsRegister(o, p, left, y);
      }
    }
  }

  lemma NoPartClear(used: set<Sel>, o: Order, p: Plan, k: string)
    requires p.AnyOrder? && (k in p.parts ==> Clear(used, PartEvents(o, p, k)))
    ensures Clear(used, PartEvents(o, p, k))
  {
    if k !in p.parts {
      NothingClear(used);
    }
  }

  /** Some order ends well exactly if the plan can be arranged. */
  lemma SomeOrderIff(used: set<Sel>, p: Plan)
    requires Placed(p)
    ensures (exists o :: End(used, EventsOf(o, p)).None?) <==> Arrangeable(used, p)
  {
    hide End, Clear, Arrangeable, Placed, EventsOf;
    if o :| End(used, EventsOf(o, p)).None? {
      EndIff(used, EventsOf(o, p));
      ClearIsArranged(used, o, p);
    }
    if Arrangeable(used, p) {
      var o := OrderFor(used, p);
      EndIff(used, EventsOf(o, p));
    }
  }
}
