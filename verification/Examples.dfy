/** Concrete inputs on which the loader does not do what its documentation promises. */
module Examples {
  import opened Text
  import opened Trees
  import opened Yaml
  import opened Schema
  import opened Binding
  import opened BindingLaws
  import opened Variants
  import opened Running
  import opened Agreement
  import opened Events
  import opened Orders
  import opened Binder
  import opened Walks
  import opened Memory
  import opened Traces
  import opened Loader
  import opened Documents
  import opened Panics

  /// ## Structs of one and of two keys

  /** A struct of two keyed fields; of one, twice the same. */
  lemma TwoKeys(name: nat, j: string, s: bool, a: Schema, k: string, s2: bool, b: Schema)
    requires j != k
    ensures var t := StructT(name, [Field(Key(j, false, s), a), Field(Key(k, false, s2), b)]);
            && GoodStruct(t) && AllKeys(t) == {j, k}
            && AllInfos(t) == Some([FieldInfo(j, [0], false, s, a), FieldInfo(k, [1], false, s2, b)])
  {
    var t := StructT(name, [Field(Key(j, false, s), a), Field(Key(k, false, s2), b)]);
    var x, y := FieldInfo(j, [0], false, s, a), FieldInfo(k, [1], false, s2, b);
    assert [] + [0] == [0] && [] + [1] == [1];
    assert InfosOf(t, 0, []) == Some([x]) && InfosOf(t, 1, []) == Some([y]);
    assert [] + [x] == [x] && [x] + [y] == [x, y];
    assert Infos(t, 0, []) == Some([]) && Infos(t, 1, []) == Some([x]) && Infos(t, 2, []) == Some([x, y]);
    assert KeySet(t, 0) == {} && KeySet(t, 1) == {j} && KeySet(t, 2) == {j, k};
  }

  lemma OneKey(name: nat, k: string, s: bool, a: Schema)
    ensures var t := StructT(name, [Field(Key(k, false, s), a)]);
            GoodStruct(t) && AllKeys(t) == {k} && AllInfos(t) == Some([FieldInfo(k, [0], false, s, a)])
  {
    var t := StructT(name, [Field(Key(k, false, s), a)]);
    var x := FieldInfo(k, [0], false, s, a);
    assert [] + [0] == [0] && [] + [x] == [x];
    assert InfosOf(t, 0, []) == Some([x]);
    assert Infos(t, 0, []) == Some([]) && Infos(t, 1, []) == Some([x]);
    assert KeySet(t, 0) == {} && KeySet(t, 1) == {k};
  }

  /** Parts that do nothing to the registries, in any order. */
  lemma {:induction false} NothingHappens(o: Order, p: Plan, todo: set<string>)
    requires p.AnyOrder? && forall k | k in p.parts :: p.parts[k] == Nothing
    ensures FieldEvents(o, p, todo) == []
    decreases |todo|
  {
    if todo != {} {
      var k := o.pick(todo);
      NothingHappens(o, p, todo - {k});
      assert PartEvents(o, p, k) == [];
    }
  }

  lemma WordsArePlain()
    ensures forall s | s in {"", "a", "b", "v", "new"} :: !Contains(s, "$(")
  {
    forall s | s in {"", "a", "b", "v", "new"} ensures !Contains(s, "$(") {
      NotWithin(s, "$(");
    }
  }

  lemma MapsArePlain(j: string, c: Tree, k: string, d: Tree)
    requires PlainText(c) && PlainText(d)
    ensures PlainText(OneKeyMap(j, c)) && (j != k ==> PlainText(TwoKeyMap(j, c, k, d)))
  {
    assert SetOf([j]) == {j} && SetOf([j, k]) == {j, k};
  }

  /// ## A failed load that is seen

  const POINTED_TYPE: Schema := StructT(0, [Field(Key("p", false, false), PtrT(ScalarT(0)))])

  const CHANGED_TREE: Tree := OneKeyMap("p", Literal("new"))

  const OLD_VIEW: Val := Struct([Own(7, Leaf("old"))])

  const NEW_VIEW: Val := Struct([Own(7, Leaf("new"))])

  /** Types whose struct hook refuses everything, and no variants. */
  const REFUSING_ENV: Env := Env(_ => "", (_, s) => Some(s), (_, _) => true, (_, _) => false, _ => "", map[])

  lemma ChangedIsPrepared()
    ensures Prepared(OneDocument(CHANGED_TREE), FILE, POINTED_TYPE) == Ok(CHANGED_TREE)
  {
    WordsArePlain();
    MapsArePlain("p", Literal("new"), "p", Literal("new"));
    OneKey(0, "p", false, PtrT(ScalarT(0)));
    hide PlainText, AllInfos;
    assert WellShaped(CHANGED_TREE.children["p"], PtrT(ScalarT(0)));
    PlainIsPrepared(CHANGED_TREE, POINTED_TYPE);
  }

  /** Nothing can go wrong in binding it but the hook, in no order of visits. */
  lemma ChangedBinds(o: Order)
    ensures GoodStruct(POINTED_TYPE) && KeysFit(POINTED_TYPE, CHANGED_TREE.children)
    ensures var b := BindFields(REFUSING_ENV, CHANGED_TREE, CHANGED_TREE.children, POINTED_TYPE, OLD_VIEW.fields, 1, "");
            b.ok && b.vals == NEW_VIEW.fields
    ensures var b := Binding.BindStruct(REFUSING_ENV, CHANGED_TREE, CHANGED_TREE.children, POINTED_TYPE, OLD_VIEW, "");
            EventsOf(o, b.plan) == []
  {
    OneKey(0, "p", false, PtrT(ScalarT(0)));
    var cs := CHANGED_TREE.children;
    var leaf := cs["p"];
    assert BindValue(REFUSING_ENV, leaf, ScalarT(0), Leaf("old"), "p") == Same(Leaf("new"));
    FieldsNone(REFUSING_ENV, CHANGED_TREE, cs, POINTED_TYPE, OLD_VIEW.fields, "");
    FieldsStep(REFUSING_ENV, CHANGED_TREE, cs, POINTED_TYPE, OLD_VIEW.fields, 1, "");
    FieldKey(REFUSING_ENV, CHANGED_TREE, cs, POINTED_TYPE, 0, OLD_VIEW.fields[0], "");
    hide BindFields;
    var p := Binding.BindStruct(REFUSING_ENV, CHANGED_TREE, cs, POINTED_TYPE, OLD_VIEW, "").plan;
    NothingHappens(o, p, p.keys);
  }

  lemma ChangedIsLeft(o: Order, was: Scene, err: Option<Running.Error>, left: Val, now: Scene)
    requires was.view == OLD_VIEW
    requires Outcome(Attempt(REFUSING_ENV, o, CHANGED_TREE, POINTED_TYPE, was), was, err, left, now)
    ensures err == Some(Invalid) && now.value == was.value && 7 in now.heap && now.heap[7] == Leaf("new")
  {
    ChangedBinds(o);
    UpToTheHook(REFUSING_ENV, o, CHANGED_TREE, CHANGED_TREE.children, POINTED_TYPE, OLD_VIEW, "", StartSels(was.registered));
    hide Binding.BindStruct, BindFields, RunStruct, StartSels, WithLog, EventsOf, GoodStruct, KeysFit, Put;
    NewIsLeft(was.heap, was.next, now.heap, now.next, left);
  }

  lemma NewIsLeft(h: Heap, next: nat, h': Heap, next': nat, left: Val)
    requires Put(h, next, NEW_VIEW, h', next', left)
    ensures 7 in h' && h'[7] == Leaf("new")
  {
    var added := h'.Keys - h.Keys;
    assert Becomes(NEW_VIEW.fields[0], left.fields[0], added) && Backed(h', left.fields[0]);
    assert Becomes(Leaf("new"), left.fields[0].to, added);
  }

  method OldTarget() returns (dst: Target)
    ensures fresh(dst) && dst.Valid() && dst.value == Struct([Ref(7)]) && dst.view == OLD_VIEW
  {
    dst := new Target(Struct([Ref(7)]), map[7 := Leaf("old")], 8, OLD_VIEW);
  }

  /** A load that fails and leaves what the file says behind a pointer of the caller, in every order of visits:
      the hook refuses the struct after the pointer was followed. */
  method FailedLoadIsSeen(o: Order) returns (l: Loader, dst: Target, err: Option<LoadError>)
    ensures err == Some(BindFailed(Invalid)) && dst.value == Struct([Ref(7)])
    ensures 7 in dst.heap && dst.heap[7] == Leaf("new")
  {
    ChangedIsPrepared();
    l := new Loader(REFUSING_ENV, map[]);
    dst := OldTarget();
    hide Prepared, Outcome, Exact, Holds, OneDocument, StartSels;
    ghost var was := l.Now(dst);
    ghost var left;
    err, left := l.Load(OneDocument(CHANGED_TREE), o, FILE, dst, POINTED_TYPE);
    ChangedIsLeft(o, was, Cause(err), left, l.Now(dst));
  }

  /** A pointer that keys lead through, and behind which no load leaves a trace: nothing binds to an array. */
  lemma FollowedButNeverWritten(env: Env)
    ensures var t := StructT(0, [Field(Key("p", false, false), PtrT(ArrayT(ScalarT(0))))]);
            var v := Struct([Own(7, SliceV([]))]);
            Walkable(env, t, v) == {7} && Writable(env, t, v, "") == {}
  {
    OneKey(0, "p", false, PtrT(ArrayT(ScalarT(0))));
    var t := StructT(0, [Field(Key("p", false, false), PtrT(ArrayT(ScalarT(0))))]);
    var v := Struct([Own(7, SliceV([]))]);
    assert WalkableField(env, t, 0, v.fields[0]) == {7};
    assert WalkableFields(env, t, v.fields, 0) == {};
    assert Writable(env, PtrT(ArrayT(ScalarT(0))), v.fields[0], "p") == {};
  }

  /// ## Binding in a struct of one key and of two

  const ANY: Schema := IfaceT(0, false)

  function OneField(elem: Schema): Schema {
    StructT(4, [Field(Key("xs", false, false), elem)])
  }

  function TwoFields(elem: Schema): Schema {
    StructT(5, [Field(Key("xs", false, false), elem), Field(Key("ys", false, false), elem)])
  }

  /** Hooks that accept everything. */
  ghost predicate Accepting(env: Env) {
    forall name, v :: env.hook(name, v)
  }

  /** It does nothing but add this instance, in every order of visits. */
  ghost predicate Only(b: Bound, reg: Reg) {
    b.ok && forall o :: EventsOf(o, b.plan) == [Adding(reg)]
  }

  lemma OneFieldBinds(env: Env, c: Tree, elem: Schema, o: Order)
    requires Accepting(env)
    ensures var n, x := OneKeyMap("xs", c), BindValue(env, c, elem, Nil, "xs");
            var b := Binding.BindStruct(env, n, n.children, OneField(elem), Struct([Nil]), "");
            b.ok == x.ok && EventsOf(o, b.plan) == EventsOf(o.Below(InKey("xs")), x.plan)
  {
    var n, t := OneKeyMap("xs", c), OneField(elem);
    OneKey(4, "xs", false, elem);
    assert n.children["xs"] == c && c < n;
    FieldsNone(env, n, n.children, t, [Nil], "");
    FieldsStep(env, n, n.children, t, [Nil], 1, "");
    FieldKey(env, n, n.children, t, 0, Nil, "");
    hide BindFields, BindValue;
    var p := Binding.BindStruct(env, n, n.children, t, Struct([Nil]), "").plan;
    AnyOrderEvents(o, p);
    OneLeft(o, p, "xs");
  }

  lemma TwoFieldsBind(env: Env, c: Tree, d: Tree, elem: Schema)
    requires Accepting(env)
    ensures var n, x, y := TwoKeyMap("xs", c, "ys", d), BindValue(env, c, elem, Nil, "xs"), BindValue(env, d, elem, Nil, "ys");
            var b := Binding.BindStruct(env, n, n.children, TwoFields(elem), Struct([Nil, Nil]), "");
            b.ok == (x.ok && y.ok) && b.plan == AnyOrder({"xs", "ys"}, map["xs" := x.plan, "ys" := y.plan])
  {
    hide BindFields, BindValue, AllInfos, GoodStruct, KeysFit;
    var n := TwoKeyMap("xs", c, "ys", d);
    TwoFieldsFit(c, d, elem);
    TwoFieldsParts(env, c, d, elem);
    assert n.children["xs"] == c && n.children["ys"] == d && c < n && d < n;
  }

  lemma TwoFieldsFit(c: Tree, d: Tree, elem: Schema)
    ensures GoodStruct(TwoFields(elem)) && KeysFit(TwoFields(elem), TwoKeyMap("xs", c, "ys", d).children)
    ensures AllKeys(TwoFields(elem)) == {"xs", "ys"}
  {
    TwoKeys(5, "xs", false, elem, "ys", false, elem);
  }

  lemma TwoFieldsParts(env: Env, c: Tree, d: Tree, elem: Schema)
    ensures var n, x, y := TwoKeyMap("xs", c, "ys", d), BindValue(env, c, elem, Nil, "xs"), BindValue(env, d, elem, Nil, "ys");
            && (forall k | k in n.children :: n.children[k] < n)
            && var b := BindFields(env, n, n.children, TwoFields(elem), [Nil, Nil], 2, "");
               b.ok == (x.ok && y.ok) && b.parts == map["xs" := x.plan, "ys" := y.plan]
  {
    hide BindFields, BindField, BindValue;
    var n, t, vals := TwoKeyMap("xs", c, "ys", d), TwoFields(elem), [Nil, Nil];
    assert n.children["xs"] == c && n.children["ys"] == d && c < n && d < n;
    FieldsNone(env, n, n.children, t, vals, "");
    FieldsStep(env, n, n.children, t, vals, 1, "");
    FieldsStep(env, n, n.children, t, vals, 2, "");
    FieldKey(env, n, n.children, t, 0, Nil, "");
    FieldKey(env, n, n.children, t, 1, Nil, "");
  }

  /** The two fields in either order. */
  lemma TwoFieldsEvents(o: Order, p: Plan, q: Plan)
    ensures var x, y := EventsOf(o.Below(InKey("xs")), p), EventsOf(o.Below(InKey("ys")), q);
            EventsOf(o, AnyOrder({"xs", "ys"}, map["xs" := p, "ys" := q]))
              == if o.pick({"xs", "ys"}) == "xs" then x + y else y + x
  {
    hide EventsOf, FieldEvents;
    var both := AnyOrder({"xs", "ys"}, map["xs" := p, "ys" := q]);
    AnyOrderEvents(o, both);
    TwoLeft(o, both, "xs", "ys");
    assert both.parts["xs"] == p && both.parts["ys"] == q;
  }

  lemma AnyOrderEvents(o: Order, p: Plan)
    requires p.AnyOrder?
    ensures EventsOf(o, p) == FieldEvents(o, p, p.keys)
  {}

  lemma OneLeft(o: Order, p: Plan, k: string)
    requires p.AnyOrder?
    ensures FieldEvents(o, p, {k}) == PartEvents(o, p, k)
  {
    hide PartEvents;
    assert o.pick({k}) == k && {k} - {k} == {};
    assert FieldEvents(o, p, {}) == [];
  }

  lemma TwoLeft(o: Order, p: Plan, j: string, k: string)
    requires p.AnyOrder? && j != k
    ensures FieldEvents(o, p, {j, k})
              == if o.pick({j, k}) == j then PartEvents(o, p, j) + PartEvents(o, p, k)
                 else PartEvents(o, p, k) + PartEvents(o, p, j)
  {
    hide PartEvents;
    var first := o.pick({j, k});
    assert first == j || first == k;
    assert {j, k} - {j} == {k} && {j, k} - {k} == {j};
    OneLeft(o, p, j);
    OneLeft(o, p, k);
  }

  /** A run of such a struct. */
  lemma TwoFieldsRun(env: Env, c: Tree, d: Tree, elem: Schema, x: Reg, y: Reg, o: Order)
    requires Accepting(env) && FreshVariants(env)
    requires Only(BindValue(env, c, elem, Nil, "xs"), x) && Only(BindValue(env, d, elem, Nil, "ys"), y)
    ensures var n := TwoKeyMap("xs", c, "ys", d);
            var (first, second) := if o.pick({"xs", "ys"}) == "xs" then (SelOf(x), SelOf(y)) else (SelOf(y), SelOf(x));
            RunStruct(env, o, n, n.children, TwoFields(elem), Struct([Nil, Nil]), "", {}).err
              == if Clash(first, second) then Some(Duplicate) else None
  {
    var n := TwoKeyMap("xs", c, "ys", d);
    TwoFieldsBind(env, c, d, elem);
    var p, q := BindValue(env, c, elem, Nil, "xs").plan, BindValue(env, d, elem, Nil, "ys").plan;
    TwoFieldsEvents(o, p, q);
    assert n.children["xs"] == c && n.children["ys"] == d && c < n && d < n;
    StructRuns(env, o, n, n.children, TwoFields(elem), Struct([Nil, Nil]), "", {});
    hide Binding.BindStruct, BindValue, RunStruct, EventsOf, Clash, FreshVariants;
    EndOfTwo(x, y);
    EndOfTwo(y, x);
  }

  lemma EndOfTwo(x: Reg, y: Reg)
    ensures End({}, [Adding(x)] + [Adding(y)]) == if Clash(SelOf(x), SelOf(y)) then Some(Duplicate) else None
  {
    hide Clash;
    EndTogether({}, [Adding(x)], [Adding(y)]);
    OneEvent({}, x);
    SelsOfOne(x);
    assert {} + SelsOf([x]) == {SelOf(x)};
    OneEvent({SelOf(x)}, y);
  }

  /** The first items of a list. */
  lemma ItemEvents(env: Env, n: Tree, i: nat, path: string, o: Order)
    requires n.Seq? && i < |n.items| && 0 in env.families
    ensures var a, b, x := BindItems(env, n, ANY, i, path), BindItems(env, n, ANY, i + 1, path),
                           Binding.BindVariant(env, n.items[i], 0, Nil, ItemPath(path, i));
            && BindItems(env, n, ANY, 0, path) == Same(SliceV([])) && b.ok == (a.ok && x.ok)
            && EventsOf(o, b.plan) == EventsOf(o, a.plan) + EventsOf(o.Below(InItem(i)), x.plan)
  {
    ItemsStep(env, n, ANY, i, path);
    hide Binding.BindVariant, BindItems, ItemPath;
    assert BindValue(env, n.items[i], ANY, Zero(env, ANY), ItemPath(path, i))
        == Binding.BindVariant(env, n.items[i], 0, Nil, ItemPath(path, i));
  }

  /** A struct with one list of two items. */
  lemma TwoItems(env: Env, c: Tree, d: Tree, o: Order)
    requires 0 in env.families && Accepting(env)
    ensures var n := OneKeyMap("xs", ListOf([c, d]));
            var b := Binding.BindStruct(env, n, n.children, OneField(SliceT(ANY)), Struct([Nil]), "");
            var x := Binding.BindVariant(env, c, 0, Nil, ItemPath("xs", 0));
            var y := Binding.BindVariant(env, d, 0, Nil, ItemPath("xs", 1));
            var below := o.Below(InKey("xs"));
            && b.ok == (x.ok && y.ok)
            && EventsOf(o, b.plan) == EventsOf(below.Below(InItem(0)), x.plan) + EventsOf(below.Below(InItem(1)), y.plan)
  {
    var list, below := ListOf([c, d]), o.Below(InKey("xs"));
    hide Binding.BindVariant, Binding.BindStruct, ItemPath, BindItems;
    OneFieldBinds(env, list, SliceT(ANY), o);
    ItemEvents(env, list, 0, "xs", below);
    ItemEvents(env, list, 1, "xs", below);
    var first := EventsOf(below.Below(InItem(0)), Binding.BindVariant(env, c, 0, Nil, ItemPath("xs", 0)).plan);
    assert [] + first == first;
  }

  lemma InList(env: Env, c: Tree, path: string, reg: Reg)
    requires 0 in env.families && Only(Binding.BindVariant(env, c, 0, Nil, ItemPath(path, 0)), reg)
    ensures Only(BindValue(env, ListOf([c]), SliceT(ANY), Nil, path), reg)
  {
    hide BindItems, Binding.BindVariant, ItemPath;
    var n := ListOf([c]);
    forall o ensures EventsOf(o, BindValue(env, n, SliceT(ANY), Nil, path).plan) == [Adding(reg)] {
      ItemEvents(env, n, 0, path, o);
      assert EventsOf(o, Same(SliceV([])).plan) == [];
    }
    ItemEvents(env, n, 0, path, Order(First(""), map[]));
  }

  lemma InMap(env: Env, c: Tree, path: string, reg: Reg)
    requires 0 in env.families && Only(Binding.BindVariant(env, c, 0, Nil, JoinPath(path, "p")), reg)
    ensures Only(BindValue(env, OneKeyMap("p", c), MapT(true, ANY), Nil, path), reg)
  {
    hide BindValue, Binding.BindVariant, JoinPath;
    var x := Binding.BindVariant(env, c, 0, Nil, JoinPath(path, "p"));
    var b := BindValue(env, OneKeyMap("p", c), MapT(true, ANY), Nil, path);
    MapBinds(env, c, path);
    forall o ensures EventsOf(o, b.plan) == [Adding(reg)] {
      assert EventsOf(o, b.plan) == EventsOf(o, Nothing) + EventsOf(o, Under(InKey("p"), x.plan));
      assert EventsOf(o, Under(InKey("p"), x.plan)) == EventsOf(o.Below(InKey("p")), x.plan) == [Adding(reg)];
    }
  }

  /** A map with one entry. */
  lemma MapBinds(env: Env, c: Tree, path: string)
    requires 0 in env.families
    ensures var x := Binding.BindVariant(env, c, 0, Nil, JoinPath(path, "p"));
            var b := BindValue(env, OneKeyMap("p", c), MapT(true, ANY), Nil, path);
            b.ok == x.ok && b.plan == InTurn(Nothing, Under(InKey("p"), x.plan))
  {
    hide BindKeys, Binding.BindVariant, JoinPath;
    var n := OneKeyMap("p", c);
    assert n.children["p"] == c;
    NothingYet(env, n, ANY, path);
    KeysStep(env, n, ANY, 0, path);
    assert BindValue(env, c, ANY, Zero(env, ANY), JoinPath(path, "p"))
        == Binding.BindVariant(env, c, 0, Nil, JoinPath(path, "p"));
  }

  /// ## Two selector fields, at most one of them in the file

  function Selected(k0: string, k1: string): Schema {
    StructT(1, [Field(Key(k0, false, true), ScalarT(0)), Field(Key(k1, false, true), ScalarT(0))])
  }

  /** One family with the variants `a`, which has the selectors `k0` and `f`, and `b`, which has `k0` and `g`. */
  function PairEnv(disc: string, k0: string): Env {
    var made := Struct([Leaf(""), Leaf("")]);
    Env(_ => "", (_, s) => Some(s), (_, _) => true, (_, _) => true, (v: Val) => if v.Leaf? then v.text else "",
        map[0 := Family(disc, map["a" := Variant(Selected(k0, "f"), made), "b" := Variant(Selected(k0, "g"), made)])])
  }

  /** The file's entries: a bare `a`, and a `b` with a value for `g`. */
  function EntryA(disc: string): Tree {
    OneKeyMap(disc, Literal("a"))
  }

  function EntryB(disc: string): Tree {
    TwoKeyMap(disc, Literal("b"), "g", Literal("v"))
  }

  /** The selectors of a variant of two fields. */
  lemma PairSelectors(disc: string, k0: string, name: string, k1: string, x: string, path: string)
    requires k0 != k1
    ensures var t := Selected(k0, k1);
            && GoodStruct(t)
            && Selectors(PairEnv(disc, k0), disc, name, t, Struct([Leaf(""), Leaf(x)]), path)
                 == BaseSelectors(disc, name, path) + map[k0 := "", k1 := x]
            && Selectable(PairEnv(disc, k0), t, Struct([Leaf(""), Leaf(x)]))
  {
    var t, env, vals := Selected(k0, k1), PairEnv(disc, k0), [Leaf(""), Leaf(x)];
    TwoKeys(1, k0, true, ScalarT(0), k1, true, ScalarT(0));
    var infos := AllInfos(t).value;
    assert FieldVals(env, Struct(vals), t) == vals;
    assert infos[..1] == [infos[0]] && infos[..1][..0] == [];
    assert SelectorFields(env, t, vals, []) == map[];
    assert SelectorFields(env, t, vals, infos[..1]) == map[k0 := ""];
    assert SelectorFields(env, t, vals, infos) == map[k0 := "", k1 := x];
  }

  /** What the two entries register. */
  function RegA(disc: string, k0: string, path: string): Reg {
    Reg(0, Instance(BaseSelectors(disc, "a", path) + map[k0 := "", "f" := ""], New(Struct([Leaf(""), Leaf("")]))))
  }

  function RegB(disc: string, k0: string, path: string): Reg {
    Reg(0, Instance(BaseSelectors(disc, "b", path) + map[k0 := "", "g" := "v"], New(Struct([Leaf(""), Leaf("v")]))))
  }

  lemma BoundA(disc: string, k0: string, path: string)
    requires k0 != "f"
    ensures Only(Binding.BindVariant(PairEnv(disc, k0), EntryA(disc), 0, Nil, path), RegA(disc, k0, path))
  {
    var env, n, t, made := PairEnv(disc, k0), EntryA(disc), Selected(k0, "f"), [Leaf(""), Leaf("")];
    TwoKeys(1, k0, true, ScalarT(0), "f", true, ScalarT(0));
    PairSelectors(disc, k0, "a", "f", "", path);
    var cs := n.children - {disc};
    assert cs == map[];
    assert VariantOf(env.families[0], n) == Some(("a", Variant(t, Struct(made))));
    NoKeys(env, n, cs, t, made, 2, path);
    assert KeysFit(t, cs);
    hide BindFields, Selectors, Selectable, AllInfos, GoodStruct, KeysFit;
    var part := Binding.BindStruct(env, n, cs, t, Struct(made), path);
    assert part.ok && part.v == Struct(made) && part.plan == AnyOrder(AllKeys(t), map[]);
    hide Binding.BindStruct;
    OnlyAdds(env, n, "a", Variant(t, Struct(made)), part, path);
  }

  lemma BoundB(disc: string, k0: string, path: string)
    requires k0 != "g" && disc != "g"
    ensures Only(Binding.BindVariant(PairEnv(disc, k0), EntryB(disc), 0, Nil, path), RegB(disc, k0, path))
  {
    var env, n, t, made := PairEnv(disc, k0), EntryB(disc), Selected(k0, "g"), [Leaf(""), Leaf("")];
    TwoKeys(1, k0, true, ScalarT(0), "g", true, ScalarT(0));
    PairSelectors(disc, k0, "b", "g", "v", path);
    var cs := n.children - {disc};
    assert cs == map["g" := Literal("v")];
    assert VariantOf(env.families[0], n) == Some(("b", Variant(t, Struct(made))));
    BoundG(disc, k0, n, cs, t, made, path);
    assert KeysFit(t, cs);
    hide BindFields, Selectors, Selectable, AllInfos, GoodStruct, KeysFit;
    var part := Binding.BindStruct(env, n, cs, t, Struct(made), path);
    assert part.ok && part.v == Struct([Leaf(""), Leaf("v")]) && part.plan == AnyOrder(AllKeys(t), map["g" := Nothing]);
    hide Binding.BindStruct;
    OnlyAdds(env, n, "b", Variant(t, Struct(made)), part, path);
  }

  /** A variant whose fields do nothing but what it takes to bind them. */
  lemma OnlyAdds(env: Env, n: Tree, name: string, variant: Variant, part: Bound, path: string)
    requires 0 in env.families && VariantOf(env.families[0], n) == Some((name, variant)) && GoodStruct(variant.typ)
    requires part == Binding.BindStruct(env, n, n.children - {env.families[0].disc}, variant.typ, variant.make, path)
    requires part.ok && part.plan.AnyOrder? && (forall k | k in part.plan.parts :: part.plan.parts[k] == Nothing)
    requires Selectable(env, variant.typ, part.v)
    ensures var s := Selectors(env, env.families[0].disc, name, variant.typ, part.v, path);
            Only(Binding.BindVariant(env, n, 0, Nil, path), Reg(0, Instance(s, New(part.v))))
  {
    var s := Selectors(env, env.families[0].disc, name, variant.typ, part.v, path);
    var b := Binding.BindVariant(env, n, 0, Nil, path);
    hide Binding.BindStruct, Selectors, Selectable, GoodStruct;
    assert b.plan == InTurn(part.plan, Adds(Reg(0, Instance(s, New(part.v)))));
    forall o ensures EventsOf(o, b.plan) == [Adding(Reg(0, Instance(s, New(part.v))))] {
      NothingHappens(o, part.plan, part.plan.keys);
    }
  }

  lemma BoundG(disc: string, k0: string, n: Tree, cs: map<string, Tree>, t: Schema, made: seq<Val>, path: string)
    requires t.StructT? && |t.fields| == 2 && made == [Leaf(""), Leaf("")] && cs == map["g" := Literal("v")] && cs["g"] < n
    requires t.fields[0].tag.Key? && t.fields[0].tag.key != "g"
    requires t.fields[1] == Field(Key("g", false, true), ScalarT(0))
    ensures BindFields(PairEnv(disc, k0), n, cs, t, made, 2, path)
              == BoundFields(true, {}, [Leaf(""), Leaf("v")], map["g" := Nothing])
  {
    var env := PairEnv(disc, k0);
    FieldsNone(env, n, cs, t, made, path);
    FieldsStep(env, n, cs, t, made, 1, path);
    FieldsStep(env, n, cs, t, made, 2, path);
    FieldKey(env, n, cs, t, 0, made[0], path);
    FieldKey(env, n, cs, t, 1, made[1], path);
  }

  /// ## When the order decides

  lemma OneWay(base: map<string, string>)
    requires "f" !in base && "g" !in base
    ensures var x, y := Sel(0, base["f" := ""]), Sel(0, base["g" := "v"]);
            Clash(x, y) && !Clash(y, x)
  {
    var a, b := base["f" := ""], base["g" := "v"];
    assert a.Keys == base.Keys + {"f"} && b.Keys == base.Keys + {"g"};
    assert |a| == |a.Keys| && |b| == |b.Keys|;
    assert Lookup(a, "g") == "" && b["g"] == "v";
  }

  lemma EntryNames()
    ensures NamingKey("xs.p") == Some("p") && NamingKey("ys.p") == Some("p")
  {
    IndexByteIs("xs", '.', "p");
    IndexByteIs("ys", '.', "p");
    assert "xs" + ['.'] + "p" == "xs.p" && "ys" + ['.'] + "p" == "ys.p";
    assert LastSegment("p") == "p" && "xs.p"[3..] == "p" && "ys.p"[3..] == "p";
  }

  /** What the two entries register as items of two lists, and as entries called `p` of two maps. */
  lemma ItemSets()
    ensures SelOf(RegA("type", "type", "xs[0]")) == Sel(0, map["type" := ""]["f" := ""])
    ensures SelOf(RegB("type", "type", "ys[0]")) == Sel(0, map["type" := ""]["g" := "v"])
    ensures SelOf(RegB("type", "type", "xs[1]")) == Sel(0, map["type" := ""]["g" := "v"])
  {
    assert NamingKey("xs[0]").None? && NamingKey("ys[0]").None? && NamingKey("xs[1]").None?;
    assert map["type" := "a"] + map["type" := "", "f" := ""] == map["type" := ""]["f" := ""];
    assert map["type" := "b"] + map["type" := "", "g" := "v"] == map["type" := ""]["g" := "v"];
  }

  lemma EntrySets()
    ensures SelOf(RegA("name", "x", "xs.p")) == Sel(0, map["name" := "p", "x" := ""]["f" := ""])
    ensures SelOf(RegB("name", "x", "ys.p")) == Sel(0, map["name" := "p", "x" := ""]["g" := "v"])
  {
    EntryNames();
    hide NamingKey;
    assert map["name" := "p"] + map["x" := "", "f" := ""] == map["name" := "p", "x" := ""]["f" := ""];
    assert map["name" := "p"] + map["x" := "", "g" := "v"] == map["name" := "p", "x" := ""]["g" := "v"];
  }

  lemma PairFits(disc: string, k0: string)
    requires k0 != "f" && k0 != "g"
    ensures var env := PairEnv(disc, k0);
            env.families.Keys == {0} && Accepting(env) && FreshVariants(env) && Printable(env)
  {
    assert Places(Struct([Leaf(""), Leaf("")])) == {};
    TwoKeys(1, k0, true, ScalarT(0), "f", true, ScalarT(0));
    TwoKeys(1, k0, true, ScalarT(0), "g", true, ScalarT(0));
  }

  /** How the bind of a load into empty registries ends. */
  ghost function Ending(env: Env, n: Tree, t: Schema, v: Val, o: Order): Option<Error>
    requires t.StructT? && n.Map?
  {
    RunStruct(env, o, n, n.children, t, v, "", {}).err
  }

  ghost predicate Decides(env: Env, n: Tree, t: Schema, v: Val)
    requires t.StructT? && n.Map?
  {
    OrderDecides({}, Binding.BindStruct(env, n, n.children, t, v, "").plan)
  }

  /** It is refused exactly if `xs` is visited before `ys`. */
  ghost predicate FailsFrom(env: Env, n: Tree, t: Schema, v: Val)
    requires t.StructT? && n.Map?
  {
    forall o :: Ending(env, n, t, v, o) == if o.pick({"xs", "ys"}) == "xs" then Some(Duplicate) else None
  }

  lemma FailingDecides(env: Env, n: Tree, t: Schema, v: Val)
    requires t.StructT? && n.Map? && WF(n) && FreshVariants(env) && FailsFrom(env, n, t, v)
    ensures Decides(env, n, t, v)
  {
    hide Binding.BindStruct, RunStruct, OrderDecides, FreshVariants;
    MapWF(n);
    StructDecidesIff(env, n, n.children, t, v, "", {});
    var o, q := Order(First("ys"), map[]), Order(First("xs"), map[]);
    assert o.pick({"xs", "ys"}) == "ys" && q.pick({"xs", "ys"}) == "xs";
    assert RunStruct(env, o, n, n.children, t, v, "", {}).err == Ending(env, n, t, v, o);
    assert RunStruct(env, q, n, n.children, t, v, "", {}).err == Ending(env, n, t, v, q);
  }

  lemma AlwaysFailing(env: Env, n: Tree, t: Schema, v: Val)
    requires t.StructT? && n.Map? && WF(n) && FreshVariants(env) && forall o :: Ending(env, n, t, v, o).Some?
    ensures !(Binding.BindStruct(env, n, n.children, t, v, "").ok && Decides(env, n, t, v))
  {
    hide Binding.BindStruct, RunStruct, OrderDecides, FreshVariants;
    MapWF(n);
    StructDecidesIff(env, n, n.children, t, v, "", {});
    forall o ensures RunStruct(env, o, n, n.children, t, v, "", {}).err.Some? {
      assert Ending(env, n, t, v, o).Some?;
    }
  }

  /** The two entries in two fields of one struct, whose sets clash one way. */
  lemma OneWayFails(env: Env, c: Tree, d: Tree, elem: Schema, x: Reg, y: Reg)
    requires Accepting(env) && FreshVariants(env) && Clash(SelOf(x), SelOf(y)) && !Clash(SelOf(y), SelOf(x))
    requires Only(BindValue(env, c, elem, Nil, "xs"), x) && Only(BindValue(env, d, elem, Nil, "ys"), y)
    ensures FailsFrom(env, TwoKeyMap("xs", c, "ys", d), TwoFields(elem), Struct([Nil, Nil]))
  {
    hide Clash, FreshVariants, BindValue, RunStruct, Only;
    forall o ensures Ending(env, TwoKeyMap("xs", c, "ys", d), TwoFields(elem), Struct([Nil, Nil]), o)
                       == if o.pick({"xs", "ys"}) == "xs" then Some(Duplicate) else None
    {
      TwoFieldsRun(env, c, d, elem, x, y, o);
    }
  }

  const LIST_ENV: Env := PairEnv("type", "type")

  const LISTS_TREE: Tree := TwoKeyMap("xs", ListOf([EntryA("type")]), "ys", ListOf([EntryB("type")]))

  /** The first part of `GoodFamily` does not do alone. The discriminator is also a selector field of the variants,
      and one struct has two lists of them: the bind is refused exactly if the list `xs` is visited first. */
  lemma SelectorDiscriminatorDecides()
    ensures LIST_ENV.families[0].disc != "name" && !GoodFamily(LIST_ENV.families[0])
    ensures FailsFrom(LIST_ENV, LISTS_TREE, TwoFields(SliceT(ANY)), Struct([Nil, Nil]))
    ensures Decides(LIST_ENV, LISTS_TREE, TwoFields(SliceT(ANY)), Struct([Nil, Nil]))
  {
    SelectorDiscriminator();
    PairFits("type", "type");
    ItemPaths();
    BoundA("type", "type", "xs[0]");
    BoundB("type", "type", "ys[0]");
    hide Binding.BindVariant, Clash, RegA, RegB, PairEnv, Only, ItemPath, BindValue, GoodFamily;
    ItemSets();
    OneWay(map["type" := ""]);
    InList(LIST_ENV, EntryA("type"), "xs", RegA("type", "type", "xs[0]"));
    InList(LIST_ENV, EntryB("type"), "ys", RegB("type", "type", "ys[0]"));
    hide FailsFrom, Decides;
    OneWayFails(LIST_ENV, ListOf([EntryA("type")]), ListOf([EntryB("type")]), SliceT(ANY),
                RegA("type", "type", "xs[0]"), RegB("type", "type", "ys[0]"));
    hide WF;
    TreesAreWF();
    FailingDecides(LIST_ENV, LISTS_TREE, TwoFields(SliceT(ANY)), Struct([Nil, Nil]));
  }

  lemma ItemPaths()
    ensures ItemPath("xs", 0) == "xs[0]" && ItemPath("xs", 1) == "xs[1]" && ItemPath("ys", 0) == "ys[0]"
  {}

  lemma SelectorDiscriminator()
    ensures LIST_ENV.families[0].disc != "name" && !GoodFamily(LIST_ENV.families[0])
  {
    TwoKeys(1, "type", true, ScalarT(0), "f", true, ScalarT(0));
    var fam := LIST_ENV.families[0];
    assert "a" in fam.variants;
    var infos := AllInfos(fam.variants["a"].typ).value;
    assert infos[0].key in SelectorKeys(infos);
  }

  const MAP_ENV: Env := PairEnv("name", "x")

  const MAPS_TREE: Tree := TwoKeyMap("xs", OneKeyMap("p", EntryA("name")), "ys", OneKeyMap("p", EntryB("name")))

  /** Nor does the second: a discriminator called `name`, which the naming key overwrites, in two maps. */
  lemma NameDiscriminatorDecides()
    ensures var fam := MAP_ENV.families[0];
            forall v | v in fam.variants && GoodStruct(fam.variants[v].typ) ::
              fam.disc !in SelectorKeys(AllInfos(fam.variants[v].typ).value)
    ensures FailsFrom(MAP_ENV, MAPS_TREE, TwoFields(MapT(true, ANY)), Struct([Nil, Nil]))
    ensures Decides(MAP_ENV, MAPS_TREE, TwoFields(MapT(true, ANY)), Struct([Nil, Nil]))
  {
    NameFamily();
    PairFits("name", "x");
    BoundInMaps();
    hide AllInfos, GoodStruct, Clash, RegA, RegB, PairEnv, Only, BindValue, FailsFrom, Decides;
    EntrySets();
    OneWay(map["name" := "p", "x" := ""]);
    OneWayFails(MAP_ENV, OneKeyMap("p", EntryA("name")), OneKeyMap("p", EntryB("name")), MapT(true, ANY),
                RegA("name", "x", "xs.p"), RegB("name", "x", "ys.p"));
    hide WF;
    TreesAreWF();
    FailingDecides(MAP_ENV, MAPS_TREE, TwoFields(MapT(true, ANY)), Struct([Nil, Nil]));
  }

  lemma BoundInMaps()
    ensures Only(BindValue(MAP_ENV, OneKeyMap("p", EntryA("name")), MapT(true, ANY), Nil, "xs"), RegA("name", "x", "xs.p"))
    ensures Only(BindValue(MAP_ENV, OneKeyMap("p", EntryB("name")), MapT(true, ANY), Nil, "ys"), RegB("name", "x", "ys.p"))
  {
    hide Binding.BindVariant, RegA, RegB, Only, BindValue;
    assert JoinPath("xs", "p") == "xs.p" && JoinPath("ys", "p") == "ys.p";
    BoundA("name", "x", "xs.p");
    BoundB("name", "x", "ys.p");
    assert 0 in MAP_ENV.families;
    hide PairEnv, JoinPath;
    InMap(MAP_ENV, EntryA("name"), "xs", RegA("name", "x", "xs.p"));
    InMap(MAP_ENV, EntryB("name"), "ys", RegB("name", "x", "ys.p"));
  }

  lemma NameFamily()
    ensures var fam := MAP_ENV.families[0];
            forall v | v in fam.variants && GoodStruct(fam.variants[v].typ) ::
              fam.disc !in SelectorKeys(AllInfos(fam.variants[v].typ).value)
  {
    TwoKeys(1, "x", true, ScalarT(0), "f", true, ScalarT(0));
    TwoKeys(1, "x", true, ScalarT(0), "g", true, ScalarT(0));
    hide AllInfos, GoodStruct;
    assert MAP_ENV.families[0].variants.Keys == {"a", "b"};
  }

  const ONE_LIST_TREE: Tree := OneKeyMap("xs", ListOf([EntryA("type"), EntryB("type")]))

  /** The same two entries in one list are refused in every order of visits, for a list is bound in its own
      order; so the order of visits does not decide. */
  lemma OneListIsDecided()
    ensures forall o :: Ending(LIST_ENV, ONE_LIST_TREE, OneField(SliceT(ANY)), Struct([Nil]), o) == Some(Duplicate)
    ensures !Decides(LIST_ENV, ONE_LIST_TREE, OneField(SliceT(ANY)), Struct([Nil]))
  {
    PairFits("type", "type");
    var o := Order(First(""), map[]);
    OneListEvents(o);
    hide PairEnv, FreshVariants, OrderDecides, Decides, Ending, Binding.BindStruct;
    forall o ensures Ending(LIST_ENV, ONE_LIST_TREE, OneField(SliceT(ANY)), Struct([Nil]), o) == Some(Duplicate) {
      OneListRun(o);
    }
    hide WF;
    TreesAreWF();
    AlwaysFailing(LIST_ENV, ONE_LIST_TREE, OneField(SliceT(ANY)), Struct([Nil]));
  }

  lemma OneListRun(o: Order)
    ensures Ending(LIST_ENV, ONE_LIST_TREE, OneField(SliceT(ANY)), Struct([Nil]), o) == Some(Duplicate)
  {
    hide Binding.BindStruct, Clash, RegA, RegB, RunStruct, FreshVariants, End, Done, EventsOf;
    var n := ONE_LIST_TREE;
    PairFits("type", "type");
    hide PairEnv;
    OneListEvents(o);
    StructRuns(LIST_ENV, o, n, n.children, OneField(SliceT(ANY)), Struct([Nil]), "", {});
    ItemSets();
    OneWay(map["type" := ""]);
    EndOfTwo(RegA("type", "type", "xs[0]"), RegB("type", "type", "xs[1]"));
  }

  lemma OneListEvents(o: Order)
    ensures var n := ONE_LIST_TREE;
            var b := Binding.BindStruct(LIST_ENV, n, n.children, OneField(SliceT(ANY)), Struct([Nil]), "");
            b.ok && EventsOf(o, b.plan)
                      == [Adding(RegA("type", "type", "xs[0]"))] + [Adding(RegB("type", "type", "xs[1]"))]
  {
    PairFits("type", "type");
    ItemPaths();
    BoundA("type", "type", "xs[0]");
    BoundB("type", "type", "xs[1]");
    hide Binding.BindVariant, Binding.BindStruct, RegA, RegB, PairEnv, ItemPath;
    TwoItems(LIST_ENV, EntryA("type"), EntryB("type"), o);
  }

  /** A load of such a file into a new variable, by a new loader of one family. */
  method LoadOnce(env: Env, n: Tree, t: Schema, v: Val, o: Order) returns (l: Loader, err: Option<LoadError>)
    requires env.families.Keys == {0} && FreshVariants(env) && Printable(env)
    requires PlainText(n) && n.Map? && t.StructT? && WellShaped(n, t) && Holds(map[], v, v)
    ensures 0 in l.regs
    ensures var r := RunStruct(env, o, n, n.children, t, v, "", {});
            && err == (if r.err.None? then None else Some(BindFailed(r.err.value)))
            && l.regs[0].instances == if r.err.None? || r.err.value.Panicked? then OfFamily(r.log, 0) else []
  {
    hide FreshVariants, Printable, PlainText, WellShaped, Prepared, Exact, RunStruct, DocOf, OfFamily, Holds, Put, Restored;
    PlainIsPrepared(n, t);
    var reg := new Registry(0, env.families[0]);
    l := new Loader(env, map[0 := reg]);
    var dst := new Target(v, map[], 0, v);
    ghost var was := l.Now(dst);
    assert was.registered == map[0 := []] && StartSels(was.registered) == {};
    ghost var left;
    err, left := l.Load(OneDocument(n), o, FILE, dst, t);
    ghost var now := l.Now(dst);
    assert now.registered[0] == l.regs[0].instances;
  }

  lemma PairShaped(c: Tree, d: Tree, elem: Schema)
    requires PlainText(c) && PlainText(d) && WellShaped(c, elem) && WellShaped(d, elem)
    ensures var n := TwoKeyMap("xs", c, "ys", d); PlainText(n) && WellShaped(n, TwoFields(elem))
    ensures Holds(map[], Struct([Nil, Nil]), Struct([Nil, Nil]))
  {
    MapsArePlain("xs", c, "ys", d);
    TwoKeys(5, "xs", false, elem, "ys", false, elem);
    hide PlainText, AllInfos;
  }

  lemma EntriesPlain(disc: string)
    requires disc != "g"
    ensures PlainText(EntryA(disc)) && PlainText(EntryB(disc))
  {
    WordsArePlain();
    MapsArePlain(disc, Literal("a"), disc, Literal("a"));
    MapsArePlain(disc, Literal("b"), "g", Literal("v"));
  }

  lemma TreesAreWF()
    ensures WF(LISTS_TREE) && WF(MAPS_TREE) && WF(ONE_LIST_TREE)
  {
    hide WF, PlainText, TreeOf, DocOf;
    PairsShaped();
    PlainParses(LISTS_TREE);
    PlainParses(MAPS_TREE);
    EntriesPlain("type");
    ListIsPlain();
    PlainParses(ONE_LIST_TREE);
  }

  lemma ListIsPlain()
    requires PlainText(EntryA("type")) && PlainText(EntryB("type"))
    ensures PlainText(ONE_LIST_TREE)
  {
    var list := ListOf([EntryA("type"), EntryB("type")]);
    assert PlainText(list);
    hide PlainText;
    MapsArePlain("xs", list, "xs", list);
  }

  /** One file, whole loads: of the two lists, and of the two maps. Whether they succeed is up to the order in
      which the two fields are visited, which Go leaves open. */
  method LoadOrderDecides(o: Order) returns (lists: Option<LoadError>, maps: Option<LoadError>)
    ensures lists == maps == if o.pick({"xs", "ys"}) == "xs" then Some(BindFailed(Duplicate)) else None
  {
    SelectorDiscriminatorDecides();
    NameDiscriminatorDecides();
    PairFits("type", "type");
    PairFits("name", "x");
    PairsShaped();
    hide PairEnv, FreshVariants, Printable, PlainText, WellShaped, Holds, RunStruct, GoodFamily, GoodStruct, AllInfos, Decides,
         OfFamily;
    assert Ending(LIST_ENV, LISTS_TREE, TwoFields(SliceT(ANY)), Struct([Nil, Nil]), o)
        == Ending(MAP_ENV, MAPS_TREE, TwoFields(MapT(true, ANY)), Struct([Nil, Nil]), o);
    var l;
    l, lists := LoadOnce(LIST_ENV, LISTS_TREE, TwoFields(SliceT(ANY)), Struct([Nil, Nil]), o);
    l, maps := LoadOnce(MAP_ENV, MAPS_TREE, TwoFields(MapT(true, ANY)), Struct([Nil, Nil]), o);
  }

  lemma PairsShaped()
    ensures PlainText(LISTS_TREE) && WellShaped(LISTS_TREE, TwoFields(SliceT(ANY)))
    ensures PlainText(MAPS_TREE) && WellShaped(MAPS_TREE, TwoFields(MapT(true, ANY)))
    ensures Holds(map[], Struct([Nil, Nil]), Struct([Nil, Nil]))
  {
    EntriesPlain("type");
    EntriesPlain("name");
    MapsArePlain("p", EntryA("name"), "p", EntryA("name"));
    MapsArePlain("p", EntryB("name"), "p", EntryB("name"));
    assert PlainText(ListOf([EntryA("type")])) && PlainText(ListOf([EntryB("type")]));
    hide PlainText;
    PairShaped(ListOf([EntryA("type")]), ListOf([EntryB("type")]), SliceT(ANY));
    PairShaped(OneKeyMap("p", EntryA("name")), OneKeyMap("p", EntryB("name")), MapT(true, ANY));
  }

  /// ## A panic

  /** A variant whose one selector lies behind an inlined pointer that its factory leaves nil. */
  const INNER_TYPE: Schema := StructT(2, [Field(Key("s", false, true), ScalarT(0))])

  const HIDDEN_TYPE: Schema := StructT(3, [Field(Inline, PtrT(INNER_TYPE))])

  const HIDDEN_ENV: Env :=
    Env(_ => "", (_, s) => Some(s), (_, _) => true, (_, _) => true, (v: Val) => if v.Leaf? then v.text else "",
        map[0 := Family("type", map["a" := Variant(HIDDEN_TYPE, Struct([Nil]))])])

  lemma HiddenInfos()
    ensures GoodStruct(HIDDEN_TYPE) && AllInfos(HIDDEN_TYPE) == Some([FieldInfo("s", [0, 0], false, true, ScalarT(0))])
    ensures AllKeys(HIDDEN_TYPE) == {"s"} && OwnKeys(HIDDEN_TYPE, 0) == {"s"}
  {
    var x := FieldInfo("s", [0, 0], false, true, ScalarT(0));
    assert [] + [0] == [0] && [0] + [0] == [0, 0] && [] + [x] == [x];
    assert Inlined(HIDDEN_TYPE.fields[0]) == Some(INNER_TYPE);
    assert InfosOf(INNER_TYPE, 0, [0]) == Some([x]);
    assert Infos(INNER_TYPE, 0, [0]) == Some([]) && Infos(INNER_TYPE, 1, [0]) == Some([x]);
    assert InfosOf(HIDDEN_TYPE, 0, []) == Some([x]);
    assert Infos(HIDDEN_TYPE, 0, []) == Some([]) && Infos(HIDDEN_TYPE, 1, []) == Some([x]);
    assert KeySet(INNER_TYPE, 0) == {} && KeySet(INNER_TYPE, 1) == {"s"};
    assert OwnKeys(HIDDEN_TYPE, 0) == {"s"};
    assert KeySet(HIDDEN_TYPE, 0) == {} && KeySet(HIDDEN_TYPE, 1) == {"s"};
  }

  /** An entry with the selector, or without it. */
  function EntryOf(s: Option<string>): Tree {
    if s.None? then OneKeyMap("type", Literal("a")) else TwoKeyMap("type", Literal("a"), "s", Literal(s.value))
  }

  lemma InnerBinds(n: Tree, cs: map<string, Tree>, x: string, path: string)
    requires cs == map["s" := Literal(x)] && Literal(x) < n
    ensures InnerVals(HIDDEN_ENV, HIDDEN_TYPE.fields[0], Nil) == [Leaf("")]
    ensures BindFields(HIDDEN_ENV, n, cs, INNER_TYPE, [Leaf("")], 1, path)
              == BoundFields(true, {}, [Leaf(x)], map["s" := Nothing])
  {
    assert Zero(HIDDEN_ENV, ScalarT(0)) == Leaf("");
    assert Zero(HIDDEN_ENV, INNER_TYPE).fields == [Leaf("")];
    FieldsNone(HIDDEN_ENV, n, cs, INNER_TYPE, [Leaf("")], path);
    FieldsStep(HIDDEN_ENV, n, cs, INNER_TYPE, [Leaf("")], 1, path);
    FieldKey(HIDDEN_ENV, n, cs, INNER_TYPE, 0, Leaf(""), path);
  }

  lemma HiddenEntered(n: Tree, cs: map<string, Tree>, x: string, path: string)
    requires cs == map["s" := Literal(x)] && Literal(x) < n
    ensures BindFields(HIDDEN_ENV, n, cs, HIDDEN_TYPE, [Nil], 1, path)
              == BoundFields(true, {}, [New(Struct([Leaf(x)]))], map["s" := Nothing])
  {
    HiddenInfos();
    InnerBinds(n, cs, x, path);
    hide BindFields, BindField, AllInfos, GoodStruct;
    FieldsNone(HIDDEN_ENV, n, cs, HIDDEN_TYPE, [Nil], path);
    FieldsStep(HIDDEN_ENV, n, cs, HIDDEN_TYPE, [Nil], 1, path);
    assert "s" in OwnKeys(HIDDEN_TYPE, 0) && "s" in cs.Keys;
    FieldEntered(HIDDEN_ENV, n, cs, HIDDEN_TYPE, 0, Nil, path);
  }

  function HiddenVal(s: Option<string>): Val {
    if s.None? then Struct([Nil]) else Struct([New(Struct([Leaf(s.value)]))])
  }

  /** The variant's struct binds, with the key and without. */
  lemma HiddenBinds(s: Option<string>, path: string)
    ensures var n := EntryOf(s);
            var b := Binding.BindStruct(HIDDEN_ENV, n, n.children - {"type"}, HIDDEN_TYPE, Struct([Nil]), path);
            && b.ok && b.v == HiddenVal(s)
            && b.plan == AnyOrder({"s"}, if s.None? then map[] else map["s" := Nothing])
  {
    var n := EntryOf(s);
    var cs := n.children - {"type"};
    HiddenInfos();
    assert cs == if s.None? then map[] else map["s" := Literal(s.value)];
    assert KeysFit(HIDDEN_TYPE, cs);
    hide BindFields, AllInfos, GoodStruct, KeysFit;
    if s.None? {
      NoKeys(HIDDEN_ENV, n, map[], HIDDEN_TYPE, [Nil], 1, path);
    } else {
      assert n.children["s"] == Literal(s.value);
      HiddenEntered(n, cs, s.value, path);
    }
  }

  lemma HiddenReached(keys: set<string>)
    ensures GoodStruct(HIDDEN_TYPE) && (SelectorsReached(HIDDEN_ENV, HIDDEN_TYPE, Struct([Nil]), keys) <==> "s" in keys)
  {
    HiddenInfos();
    assert FieldVals(HIDDEN_ENV, Struct([Nil]), HIDDEN_TYPE) == [Nil];
    assert AllInfos(HIDDEN_TYPE).value[0].index == [0, 0];
    assert Inlined(HIDDEN_TYPE.fields[0]) == Some(INNER_TYPE);
    assert Reached(HIDDEN_ENV, HIDDEN_TYPE, [Nil], [0, 0], keys) <==> "s" in keys;
  }

  lemma HiddenVariant(s: Option<string>)
    ensures VariantOf(HIDDEN_ENV.families[0], EntryOf(s)) == Some(("a", Variant(HIDDEN_TYPE, Struct([Nil]))))
    ensures "s" in EntryOf(s).children - {"type"} <==> s.Some?
  {}

  /** Nothing goes wrong with the fields of the variant. */
  lemma HiddenFieldsRun(o: Order, s: Option<string>, path: string, used: set<Sel>)
    ensures var n := EntryOf(s);
            RunStruct(HIDDEN_ENV, o, n, n.children - {"type"}, HIDDEN_TYPE, Struct([Nil]), path, used).err.None?
  {
    hide Binding.BindStruct, RunStruct, FreshVariants, Printable;
    var n := EntryOf(s);
    HiddenFits();
    HiddenBinds(s, path);
    var plan := Binding.BindStruct(HIDDEN_ENV, n, n.children - {"type"}, HIDDEN_TYPE, Struct([Nil]), path).plan;
    StructRuns(HIDDEN_ENV, o, n, n.children - {"type"}, HIDDEN_TYPE, Struct([Nil]), path, used);
    AnyOrderEvents(o, plan);
    NothingHappens(o, plan, plan.keys);
  }

  /** Binding the variant panics, in whatever order and wherever, exactly if the selector is not in the file. */
  lemma HiddenPanicsIff(o: Order, s: Option<string>, v: Val, path: string, used: set<Sel>)
    ensures RunVariant(HIDDEN_ENV, o, EntryOf(s), 0, v, path, used).err == Some(Panicked) <==> s.None?
  {
    hide RunStruct, RunVariant, GoodStruct, SelectorsReached, FreshVariants, Printable, EntryOf;
    HiddenFits();
    HiddenVariant(s);
    HiddenReached(EntryOf(s).children.Keys - {"type"});
    HiddenFieldsRun(o, s, path, used);
    VariantPanicsIff(HIDDEN_ENV, o, EntryOf(s), 0, v, path, used);
    assert (EntryOf(s).children - {"type"}).Keys == EntryOf(s).children.Keys - {"type"};
  }

  lemma HiddenOk(s: Option<string>, path: string)
    ensures Binding.BindVariant(HIDDEN_ENV, EntryOf(s), 0, Nil, path).ok
  {
    hide GoodStruct, Selectors, Selectable, Binding.BindStruct;
    HiddenInfos();
    HiddenBinds(s, path);
    HiddenVariant(s);
  }

  /** What it registers as an item of a list. */
  function HiddenReg(x: string): Reg {
    Reg(0, Instance(map["type" := "a", "s" := x], New(HiddenVal(Some(x)))))
  }

  /** With the selector it registers its instance; without it, it panics. */
  lemma HiddenEvents(s: Option<string>, path: string, o: Order)
    requires NamingKey(path).None?
    ensures EventsOf(o, Binding.BindVariant(HIDDEN_ENV, EntryOf(s), 0, Nil, path).plan)
              == [if s.Some? then Adding(HiddenReg(s.value)) else Panic]
  {
    hide Binding.BindVariant, Binding.BindStruct, HiddenReg, EventsOf, FieldEvents;
    var n := EntryOf(s);
    var part := Binding.BindStruct(HIDDEN_ENV, n, n.children - {"type"}, HIDDEN_TYPE, Struct([Nil]), path);
    HiddenBinds(s, path);
    HiddenPlan(s, path);
    AnyOrderEvents(o, part.plan);
    NothingHappens(o, part.plan, part.plan.keys);
    var last := if s.Some? then Adds(HiddenReg(s.value)) else Breaks;
    InTurnEvents(o, part.plan, last);
  }

  lemma InTurnEvents(o: Order, p: Plan, last: Plan)
    requires last.Adds? || last.Breaks?
    ensures EventsOf(o, InTurn(p, last)) == EventsOf(o, p) + [if last.Adds? then Adding(last.reg) else Panic]
  {}

  lemma HiddenPlan(s: Option<string>, path: string)
    requires NamingKey(path).None?
    ensures var n := EntryOf(s);
            var part := Binding.BindStruct(HIDDEN_ENV, n, n.children - {"type"}, HIDDEN_TYPE, Struct([Nil]), path);
            Binding.BindVariant(HIDDEN_ENV, n, 0, Nil, path).plan
              == InTurn(part.plan, if s.Some? then Adds(HiddenReg(s.value)) else Breaks)
  {
    hide GoodStruct, Selectors, Selectable, Binding.BindStruct, NamingKey;
    HiddenBinds(s, path);
    HiddenSelectors(s, path);
    assert VariantOf(HIDDEN_ENV.families[0], EntryOf(s)) == Some(("a", Variant(HIDDEN_TYPE, Struct([Nil]))));
  }

  lemma HiddenSelectors(s: Option<string>, path: string)
    requires NamingKey(path).None?
    ensures GoodStruct(HIDDEN_TYPE) && (Selectable(HIDDEN_ENV, HIDDEN_TYPE, HiddenVal(s)) <==> s.Some?)
    ensures s.Some? ==> Selectors(HIDDEN_ENV, "type", "a", HIDDEN_TYPE, HiddenVal(s), path) == map["type" := "a", "s" := s.value]
  {
    HiddenInfos();
    var vals, infos := HiddenVal(s).fields, AllInfos(HIDDEN_TYPE).value;
    assert Inlined(HIDDEN_TYPE.fields[0]) == Some(INNER_TYPE);
    assert FieldVals(HIDDEN_ENV, HiddenVal(s), HIDDEN_TYPE) == vals;
    assert infos[0].index == [0, 0] && infos[0].index[1..] == [0] && infos[..0] == [];
    assert Readable(HIDDEN_ENV, HIDDEN_TYPE, vals, [0, 0]) <==> s.Some?;
    if s.Some? {
      assert GetAt(HIDDEN_ENV, HIDDEN_TYPE, vals, [0, 0]) == Leaf(s.value);
      assert SelectorFields(HIDDEN_ENV, HIDDEN_TYPE, vals, infos) == map["s" := s.value];
      assert map["type" := "a"] + map["s" := s.value] == map["type" := "a", "s" := s.value];
    }
  }

  lemma HiddenFits()
    ensures HIDDEN_ENV.families.Keys == {0} && Accepting(HIDDEN_ENV) && FreshVariants(HIDDEN_ENV) && Printable(HIDDEN_ENV)
  {
    assert Places(Struct([Nil])) == {};
    HiddenInfos();
  }

  const HIDDEN_TREE: Tree := OneKeyMap("xs", ListOf([EntryOf(Some("v")), EntryOf(None)]))

  lemma HiddenIsShaped()
    ensures PlainText(HIDDEN_TREE) && WellShaped(HIDDEN_TREE, OneField(SliceT(ANY)))
    ensures Holds(map[], Struct([Nil]), Struct([Nil]))
  {
    WordsArePlain();
    MapsArePlain("type", Literal("a"), "s", Literal("v"));
    var list := ListOf([EntryOf(Some("v")), EntryOf(None)]);
    assert PlainText(list);
    hide PlainText;
    MapsArePlain("xs", list, "xs", list);
    OneKey(4, "xs", false, SliceT(ANY));
    assert WellShaped(list, SliceT(ANY));
    hide AllInfos;
  }

  /** The run registers the first entry and panics at the second. */
  lemma HiddenRuns(o: Order)
    ensures var n := HIDDEN_TREE;
            var r := RunStruct(HIDDEN_ENV, o, n, n.children, OneField(SliceT(ANY)), Struct([Nil]), "", {});
            r.err == Some(Panicked) && r.log == [HiddenReg("v")]
  {
    var n := HIDDEN_TREE;
    HiddenFits();
    HiddenListEvents(o);
    hide Binding.BindStruct, RunStruct, FreshVariants, Printable, End, Done, EntryOf, HiddenReg;
    StructRuns(HIDDEN_ENV, o, n, n.children, OneField(SliceT(ANY)), Struct([Nil]), "", {});
    EndOfPanic(HiddenReg("v"));
  }

  lemma HiddenListEvents(o: Order)
    ensures var n := HIDDEN_TREE;
            var b := Binding.BindStruct(HIDDEN_ENV, n, n.children, OneField(SliceT(ANY)), Struct([Nil]), "");
            b.ok && EventsOf(o, b.plan) == [Adding(HiddenReg("v"))] + [Panic]
  {
    hide Binding.BindVariant, Binding.BindStruct, EntryOf, HiddenReg;
    var below := o.Below(InKey("xs"));
    ItemPaths();
    assert NamingKey("xs[0]").None? && NamingKey("xs[1]").None?;
    hide ItemPath, NamingKey;
    HiddenOk(Some("v"), "xs[0]");
    HiddenOk(None, "xs[1]");
    HiddenEvents(Some("v"), "xs[0]", below.Below(InItem(0)));
    HiddenEvents(None, "xs[1]", below.Below(InItem(1)));
    TwoItems(HIDDEN_ENV, EntryOf(Some("v")), EntryOf(None), o);
  }

  lemma EndOfPanic(x: Reg)
    ensures End({}, [Adding(x)] + [Panic]) == Some(Panicked) && Done({}, [Adding(x)] + [Panic]) == [x]
  {
    hide Clash;
    EndTogether({}, [Adding(x)], [Panic]);
    OneEvent({}, x);
    OneEvent({} + SelsOf([x]), x);
  }

  /** A whole load that is left by a panic, in every order of visits: the instance registered before it stays. */
  method PanicKeepsTheFirst(o: Order) returns (l: Loader, err: Option<LoadError>)
    ensures err == Some(BindFailed(Panicked)) && 0 in l.regs
    ensures l.regs[0].instances == [Instance(map["type" := "a", "s" := "v"], New(Struct([New(Struct([Leaf("v")]))])))]
  {
    HiddenFits();
    HiddenIsShaped();
    HiddenRuns(o);
    hide FreshVariants, Printable, PlainText, WellShaped, Holds, RunStruct;
    l, err := LoadOnce(HIDDEN_ENV, HIDDEN_TREE, OneField(SliceT(ANY)), Struct([Nil]), o);
    assert OfFamily([HiddenReg("v")], 0) == [HiddenReg("v").inst] by {
      assert [HiddenReg("v")][..0] == [];
    }
  }
}
