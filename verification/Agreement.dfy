/** How a run of the binder, in any order of visits, compares with the meaning of binding. */
module Agreement {
  import opened Text
  import opened Trees
  import opened Schema
  import opened Binding
  import opened BindingLaws
  import opened Fields
  import opened Variants
  import opened Running
  import opened Walks
  import opened Memory

  /** A run in the order `o` is as `b` says. It succeeds only if `b` has no error, and then gives its value. If
      `b` has no error, what happens to the registries, in that order, decides how it ends and what it leaves
      registered. */
  ghost predicate Agrees(b: Bound, o: Order, used: set<Sel>, r: Ran) {
    && (r.err.None? ==> b.ok && r.v == b.v)
    && (b.ok ==> r.err == End(used, EventsOf(o, b.plan)) && r.log == Done(used, EventsOf(o, b.plan)))
  }

  /** One run, and another in a place below unless it failed. */
  lemma AgreesBoth(a: Bound, b: Bound, step: Step, v: Val, o: Order, used: set<Sel>, ra: Ran, rb: Ran, r: Ran)
    requires Agrees(a, o, used, ra) && (ra.err.None? ==> Agrees(b, o.Below(step), used + SelsOf(ra.log), rb))
    requires if ra.err.Some? then r.err == ra.err && r.log == ra.log else r.err == rb.err && r.log == ra.log + rb.log
    requires r.err.None? ==> r.v == v
    ensures Agrees(Both(a, b, step, v), o, used, r)
  {
    assert EventsOf(o, Under(step, b.plan)) == EventsOf(o.Below(step), b.plan);
    EndTogether(used, EventsOf(o, a.plan), EventsOf(o, Under(step, b.plan)));
    hide Done, End;
  }

  /// ## The meaning, one step at a time

  lemma ItemsStep(env: Env, n: Tree, elem: Schema, i: nat, path: string)
    requires n.Seq? && i < |n.items|
    ensures var a := BindItems(env, n, elem, i, path);
            var x := BindValue(env, n.items[i], elem, Zero(env, elem), ItemPath(path, i));
            BindItems(env, n, elem, i + 1, path) == Both(a, x, InItem(i), SliceV(a.v.elems + [x.v]))
  {}

  lemma KeysStep(env: Env, n: Tree, elem: Schema, i: nat, path: string)
    requires n.Map? && i < |n.keys| && n.keys[i] in n.children
    ensures var a, key := BindKeys(env, n, elem, i, path), n.keys[i];
            var x := BindValue(env, n.children[key], elem, Zero(env, elem), JoinPath(path, key));
            BindKeys(env, n, elem, i + 1, path) == Both(a, x, InKey(key), MapV(a.v.entries[key := x.v]))
  {}

  lemma NothingYet(env: Env, n: Tree, elem: Schema, path: string)
    ensures n.Seq? ==> BindItems(env, n, elem, 0, path) == Same(SliceV([]))
    ensures n.Map? ==> BindKeys(env, n, elem, 0, path) == Same(MapV(map[]))
  {}

  /// ## Keys of a struct

  lemma KeysAreFields(t: Schema)
    requires GoodStruct(t)
    ensures IndexByKey(AllInfos(t).value).Keys == AllKeys(t)
  {
    var infos := AllInfos(t).value;
    IndexKeys(infos);
    forall x ensures x in SetOf(KeysOf(infos)) <==> x in AllKeys(t) {
      InfosKeys(t, |t.fields|, [], x);
    }
  }

  ghost predicate ShapedFields(cs: map<string, Tree>, t: Schema) {
    && GoodStruct(t)
    && forall info | info in AllInfos(t).value && info.key in cs :: WellShaped(cs[info.key], info.typ)
  }

  ghost predicate Plain(t: Schema) {
    NoIface(t) && NoArray(t)
  }

  lemma ShapedField(cs: map<string, Tree>, t: Schema, info: FieldInfo)
    requires GoodStruct(t) && info in AllInfos(t).value && info.key in cs
    ensures ShapedFields(cs, t) && Plain(t) ==> WellShaped(cs[info.key], info.typ) && Plain(info.typ)
  {
    InfosKeep(t, |t.fields|, []);
    var infos := AllInfos(t).value;
    var j :| 0 <= j < |infos| && infos[j] == info;
  }

  lemma ShapedStruct(n: Tree, t: Schema)
    requires t.StructT? && WellShaped(n, t)
    ensures n.Map? && ShapedFields(n.children, t)
  {
    var infos := AllInfos(t).value;
    forall info | info in infos && info.key in n.children ensures WellShaped(n.children[info.key], info.typ) {
      var j :| 0 <= j < |infos| && infos[j] == info;
    }
  }

  /** Each of these keys is there unless it is not required. */
  ghost predicate Required(t: Schema, cs: map<string, Tree>, todo: set<string>)
    requires GoodStruct(t) && todo <= AllKeys(t)
  {
    forall k | k in todo && FieldAtKey(t, k).required :: k in cs
  }

  lemma FieldIsAtKey(t: Schema, i: nat)
    requires GoodStruct(t) && i < |AllInfos(t).value|
    ensures AllInfos(t).value[i].key in AllKeys(t) && FieldAtKey(t, AllInfos(t).value[i].key) == AllInfos(t).value[i]
  {
    var infos := AllInfos(t).value;
    var k := infos[i].key;
    assert k == KeysOf(infos)[i];
    InfosKeys(t, |t.fields|, [], k);
    var j := KeyIndex(t, k);
    assert KeysOf(infos)[j] == k;
  }

  lemma RequiredIff(t: Schema, cs: map<string, Tree>)
    requires GoodStruct(t)
    ensures KeysFit(t, cs) <==> cs.Keys <= AllKeys(t) && Required(t, cs, AllKeys(t))
  {
    var infos := AllInfos(t).value;
    hide AllInfos, GoodStruct, AllKeys;
    forall i | 0 <= i < |infos| ensures infos[i].key in AllKeys(t) && FieldAtKey(t, infos[i].key) == infos[i] {
      FieldIsAtKey(t, i);
    }
    forall k | k in AllKeys(t) ensures exists i: nat :: i < |infos| && infos[i] == FieldAtKey(t, k) && infos[i].key == k {
      var i := KeyIndex(t, k);
    }
  }

  /// ## How places change

  /** Nothing of the caller is behind what was zero. */
  lemma EvolvedFromZero(env: Env, t: Schema, x: Val, walks: set<nat>)
    requires Evolves(Zero(env, t), x, walks, {})
    ensures Places(x) == {}
  {
    ZeroPlaces(env, t);
    EvolvesPlaces(Zero(env, t), x, walks, {});
  }

  lemma NoElements()
    ensures Places(SliceV([])) == {} && Places(MapV(map[])) == {}
  {}

  lemma EntryPlaces(entries: map<string, Val>, key: string, x: Val)
    requires Places(MapV(entries)) == {} && Places(x) == {}
    ensures Places(MapV(entries[key := x])) == {}
  {
    var all := entries[key := x];
    forall k | k in all ensures Places(all[k]) == {} {
      assert k in entries ==> Places(entries[k]) <= Places(MapV(entries));
    }
  }

  lemma ItemPlaces(elems: seq<Val>, x: Val)
    requires Places(SliceV(elems)) == {} && Places(x) == {}
    ensures Places(SliceV(elems + [x])) == {}
  {
    var all := elems + [x];
    forall i | 0 <= i < |all| ensures Places(all[i]) == {} {
      assert i < |elems| ==> Places(elems[i]) <= Places(SliceV(elems));
    }
  }

  lemma InnerEvolved(env: Env, t: Schema, vals: seq<Val>, i: nat, inner: seq<Val>, walks: set<nat>)
    requires t.StructT? && |vals| == |t.fields| && i < |vals| && Inlined(t.fields[i]).Some?
    requires var f := t.fields[i];
             && |inner| == |Inlined(f).value.fields| && (f.typ.PtrT? ==> WalkOf(vals[i]) <= walks)
             && Evolves(Struct(InnerVals(env, f, vals[i])), Struct(inner), walks, {})
    ensures Evolves(Struct(vals), Struct(vals[i := WrapInner(t.fields[i], vals[i], inner)]), walks, {})
  {
    hide Evolves, FieldVals;
    var f, v := t.fields[i], vals[i];
    var st := Inlined(f).value;
    if f.typ.StructT? {
      StructEvolves(env, v, st, inner, walks);
    } else {
      StructEvolves(env, Pointee(env, v, st), st, inner, walks);
      PointerEvolves(env, v, st, Struct(inner), walks);
    }
    FieldEvolves(vals, i, WrapInner(f, v, inner), walks);
  }

  /** The place an index chain leads to. */
  lemma {:induction false} PlaceEvolved(env: Env, t: Schema, vals: seq<Val>, index: seq<nat>, key: string, typ: Schema, x: Val,
                                        walks: set<nat>)
    requires t.StructT? && |vals| == |t.fields| && Leads(t, index, key, typ) && ChainWalks(env, t, vals, index) <= walks
    requires Evolves(GetAt(env, t, vals, index), x, walks, {})
    ensures Evolves(Struct(vals), Struct(SetAt(env, t, vals, index, x)), walks, {})
    decreases |index|
  {
    hide Evolves;
    var i := index[0];
    if |index| == 1 {
      FieldEvolves(vals, i, x, walks);
    } else {
      var f, v := t.fields[i], vals[i];
      var st, inner := Inlined(f).value, InnerVals(env, f, v);
      PlaceEvolved(env, st, inner, index[1..], key, typ, x, walks);
      InnerEvolved(env, t, vals, i, SetAt(env, st, inner, index[1..], x), walks);
    }
  }

  /// ## Every run agrees

  /** A run of one place: it agrees with the meaning; it changes nothing behind a pointer it does not walk, also
      when it fails; and on a tree that has passed the shape check, for a type without arrays and interfaces, it
      fails in the expected ways only. */
  lemma {:induction false} ValueRuns(env: Env, o: Order, n: Tree, t: Schema, v: Val, path: string, used: set<Sel>)
    requires FreshVariants(env)
    ensures var b, r := BindValue(env, n, t, v, path), RunValue(env, o, n, t, v, path, used);
            && Agrees(b, o, used, r) && Evolves(v, r.v, b.walks, {})
            && (WellShaped(n, t) && Plain(t) && r.err.Some? ==> Expected(r.err.value))
    decreases n, 4, t
  {
    hide BindStruct, BindKeys, BindItems, BindVariant, RunStruct, RunKeys, RunItems, RunVariant, Evolves, FreshVariants, Plain,
         ShapedFields, WellShaped;
    var b, r := BindValue(env, n, t, v, path), RunValue(env, o, n, t, v, path, used);
    if WellShaped(n, t) && Plain(t) {
      PlainParts(n, t);
    }
    EvolvesNot(v, b.walks);
    match t
    case ScalarT(id) => EvolvesAnew(v, r.v, b.walks);
    case PtrT(elem) =>
      ValueRuns(env, o, n, elem, Pointee(env, v, elem), path, used);
      PointerEvolved(env, o, n, elem, v, path, used);
    case IfaceT(family, _) =>
      if family in env.families {
        VariantRuns(env, o, n, family, v, path, used);
        EvolvesMore(v, r.v, {}, b.walks, {});
      } else {
        EvolvesAnew(v, Untyped(n), b.walks);
      }
    case StructT(_, _) =>
      if n.Map? {
        if WellShaped(n, t) {
          ShapedStruct(n, t);
        }
        StructRuns(env, o, n, n.children, t, v, path, used);
      }
    case MapT(_, elem) =>
      if n.Map? {
        KeysRun(env, o, n, elem, |n.keys|, path, used);
        EvolvesAnew(v, RunKeys(env, o, n, elem, |n.keys|, path, used).v, b.walks);
      }
    case SliceT(elem) =>
      if n.Seq? {
        ItemsRun(env, o, n, elem, |n.items|, path, used);
        EvolvesAnew(v, RunItems(env, o, n, elem, |n.items|, path, used).v, b.walks);
      }
    case ArrayT(_) =>
  }

  lemma PlainParts(n: Tree, t: Schema)
    requires WellShaped(n, t) && Plain(t)
    ensures !t.IfaceT? && !t.ArrayT? && (t.PtrT? || t.MapT? || t.SliceT? ==> Plain(t.elem))
    ensures (t.ScalarT? ==> n.Scalar?) && (t.StructT? || t.MapT? ==> n.Map?) && (t.SliceT? ==> n.Seq?)
    ensures t.PtrT? ==> WellShaped(n, t.elem)
    ensures t.MapT? ==> WellShaped(n, MapT(true, t.elem))
  {}

  lemma EvolvesNot(v: Val, walks: set<nat>)
    ensures Evolves(v, v, walks, {})
  {}

  lemma EvolvesAnew(v: Val, w: Val, walks: set<nat>)
    ensures Places(w) == {} ==> Evolves(v, w, walks, {})
    ensures w.Leaf? || w.Untyped? ==> Places(w) == {}
  {}

  lemma PointerEvolved(env: Env, o: Order, n: Tree, elem: Schema, v: Val, path: string, used: set<Sel>)
    requires var at := Pointee(env, v, elem);
             Evolves(at, RunValue(env, o, n, elem, at, path, used).v, BindValue(env, n, elem, at, path).walks, {})
    ensures Evolves(v, RunValue(env, o, n, PtrT(elem), v, path, used).v, BindValue(env, n, PtrT(elem), v, path).walks, {})
  {
    var at := Pointee(env, v, elem);
    var b, x := BindValue(env, n, elem, at, path), RunValue(env, o, n, elem, at, path, used).v;
    EvolvesMore(at, x, b.walks, WalkOf(v) + b.walks, {});
    PointerEvolves(env, v, elem, x, WalkOf(v) + b.walks);
  }

  lemma {:induction false} KeysRun(env: Env, o: Order, n: Tree, elem: Schema, m: nat, path: string, used: set<Sel>)
    requires n.Map? && m <= |n.keys| && FreshVariants(env)
    ensures var b, r := BindKeys(env, n, elem, m, path), RunKeys(env, o, n, elem, m, path, used);
            && Agrees(b, o, used, r) && Places(r.v) == {}
            && (WellShaped(n, MapT(true, elem)) && Plain(elem) && r.err.Some? ==> Expected(r.err.value))
    decreases n, 1, elem, m
  {
    hide BindValue, RunValue, Agrees, Evolves, Places, FreshVariants, Plain;
    NoElements();
    if m == 0 {
      AgreesStart(o, used, MapV(map[]));
    } else {
      KeysRun(env, o, n, elem, m - 1, path, used);
      var key := n.keys[m - 1];
      if key in n.children {
        var a, ra := BindKeys(env, n, elem, m - 1, path), RunKeys(env, o, n, elem, m - 1, path, used);
        var b := BindValue(env, n.children[key], elem, Zero(env, elem), JoinPath(path, key));
        var rb := RunValue(env, o.Below(InKey(key)), n.children[key], elem, Zero(env, elem), JoinPath(path, key),
                           used + SelsOf(ra.log));
        ValueRuns(env, o.Below(InKey(key)), n.children[key], elem, Zero(env, elem), JoinPath(path, key), used + SelsOf(ra.log));
        EvolvedFromZero(env, elem, rb.v, b.walks);
        EntryPlaces(ra.v.entries, key, rb.v);
        SameWhenDone(a, o, used, ra);
        SameWhenDone(b, o.Below(InKey(key)), used + SelsOf(ra.log), rb);
        AgreesBoth(a, b, InKey(key), MapV(a.v.entries[key := b.v]), o, used, ra, rb, RunKeys(env, o, n, elem, m, path, used));
      }
    }
  }

  lemma {:induction false} ItemsRun(env: Env, o: Order, n: Tree, elem: Schema, m: nat, path: string, used: set<Sel>)
    requires n.Seq? && m <= |n.items| && FreshVariants(env)
    ensures var b, r := BindItems(env, n, elem, m, path), RunItems(env, o, n, elem, m, path, used);
            && Agrees(b, o, used, r) && Places(r.v) == {}
            && (WellShaped(n, SliceT(elem)) && Plain(elem) && r.err.Some? ==> Expected(r.err.value))
    decreases n, 1, elem, m
  {
    hide BindValue, RunValue, Agrees, Evolves, Places, FreshVariants, Plain;
    NoElements();
    if m == 0 {
      AgreesStart(o, used, SliceV([]));
    } else {
      ItemsRun(env, o, n, elem, m - 1, path, used);
      var below, at := o.Below(InItem(m - 1)), ItemPath(path, m - 1);
      var a, ra := BindItems(env, n, elem, m - 1, path), RunItems(env, o, n, elem, m - 1, path, used);
      var b := BindValue(env, n.items[m - 1], elem, Zero(env, elem), at);
      var rb := RunValue(env, below, n.items[m - 1], elem, Zero(env, elem), at, used + SelsOf(ra.log));
      ValueRuns(env, below, n.items[m - 1], elem, Zero(env, elem), at, used + SelsOf(ra.log));
      EvolvedFromZero(env, elem, rb.v, b.walks);
      ItemPlaces(ra.v.elems, rb.v);
      SameWhenDone(a, o, used, ra);
      SameWhenDone(b, below, used + SelsOf(ra.log), rb);
      AgreesBoth(a, b, InItem(m - 1), SliceV(a.v.elems + [b.v]), o, used, ra, rb, RunItems(env, o, n, elem, m, path, used));
    }
  }

  lemma AgreesStart(o: Order, used: set<Sel>, v: Val)
    ensures Agrees(Same(v), o, used, Ran(None, v, []))
  {}

  lemma SameWhenDone(b: Bound, o: Order, used: set<Sel>, r: Ran)
    requires Agrees(b, o, used, r)
    ensures r.err.None? ==> r.v == b.v
  {}

  /// ## Structs

  /** What a struct's fields do, by their keys. */
  ghost function FieldsPlan(env: Env, n: Tree, cs: map<string, Tree>, t: Schema, was: seq<Val>, path: string): (p: Plan)
    requires t.StructT? && |was| == |t.fields| && forall x | x in cs :: cs[x] < n
    ensures p.AnyOrder?
  {
    AnyOrder(AllKeys(t), BindFields(env, n, cs, t, was, |was|, path).parts)
  }

  /** One more field: in its place, which is untouched so far. */
  lemma {:induction false} FieldRuns(env: Env, o: Order, n: Tree, cs: map<string, Tree>, t: Schema, was: seq<Val>, path: string,
                                     done: set<string>, info: FieldInfo, vals: seq<Val>, used: set<Sel>)
    requires GoodStruct(t) && FreshVariants(env) && |was| == |vals| == |t.fields| && forall x | x in cs :: cs[x] < n
    requires cs.Keys <= AllKeys(t) && info.key in cs && info.key !in done && info in AllInfos(t).value
    requires var a := After(env, n, cs, t, was, path, done); a.ok && vals == a.vals
    ensures var whole, r := BindFields(env, n, cs, t, was, |was|, path), RunField(env, o, n, cs, t, vals, info, path, used);
            var events := PartEvents(o, FieldsPlan(env, n, cs, t, was, path), info.key);
            && (r.err.None? ==> var b := After(env, n, cs, t, was, path, done + {info.key}); b.ok && r.vals == b.vals)
            && (whole.ok ==> r.err == End(used, events) && r.log == Done(used, events))
            && Evolves(Struct(vals), Struct(r.vals), whole.walks, {})
            && (ShapedFields(cs, t) && Plain(t) && r.err.Some? ==> Expected(r.err.value))
    decreases n, 0
  {
    var k := info.key;
    var c, at, below := cs[k], JoinPath(path, k), o.Below(InKey(k));
    AfterOneMore(env, n, cs, t, was, path, done, info);
    FewerKeys(env, n, cs, t, was, path, done + {k});
    ValueRuns(env, below, c, info.typ, GetAt(env, t, vals, info.index), at, used);
    ShapedField(cs, t, info);
    hide BindFields, After, BindValue, RunValue, GetAt, SetAt, ChainWalks, Leads, AllInfos, GoodStruct, AllKeys, JoinPath,
         Evolves,
         FreshVariants, WellShaped, ShapedFields, Plain, EventsOf, End, Done;
    var x, r := BindValue(env, c, info.typ, GetAt(env, t, vals, info.index), at),
                RunValue(env, below, c, info.typ, GetAt(env, t, vals, info.index), at, used);
    var whole := BindFields(env, n, cs, t, was, |was|, path);
    assert k in whole.parts && whole.parts[k] == x.plan;
    EvolvesMore(GetAt(env, t, vals, info.index), r.v, x.walks, whole.walks, {});
    PlaceEvolved(env, t, vals, info.index, k, info.typ, r.v, whole.walks);
  }

  /** A run of the fields that are left is as the whole says. */
  ghost predicate Finishes(env: Env, o: Order, n: Tree, cs: map<string, Tree>, t: Schema, was: seq<Val>, path: string,
                           vals: seq<Val>, todo: set<string>, used: set<Sel>, r: RanFields)
    requires GoodStruct(t) && |was| == |t.fields| && todo <= AllKeys(t) && forall x | x in cs :: cs[x] < n
  {
    var whole := BindFields(env, n, cs, t, was, |was|, path);
    var events := FieldEvents(o, FieldsPlan(env, n, cs, t, was, path), todo);
    && (r.err.None? ==> whole.ok && Required(t, cs, todo) && r.vals == whole.vals)
    && (whole.ok && Required(t, cs, todo) ==> r.err == End(used, events) && r.log == Done(used, events))
    && Evolves(Struct(vals), Struct(r.vals), whole.walks, {})
    && (ShapedFields(cs, t) && Plain(t) && r.err.Some? ==> Expected(r.err.value))
  }

  /** The fields that are left, after some. */
  lemma {:induction false} FieldsRun(env: Env, o: Order, n: Tree, cs: map<string, Tree>, t: Schema, was: seq<Val>, path: string,
                                     vals: seq<Val>, todo: set<string>, used: set<Sel>)
    requires t.StructT? && GoodStruct(t) && FreshVariants(env) && |was| == |vals| == |t.fields| && forall x | x in cs :: cs[x] < n
    requires cs.Keys <= AllKeys(t) && todo <= AllKeys(t)
    requires var a := After(env, n, cs, t, was, path, cs.Keys - todo); a.ok && vals == a.vals
    ensures Finishes(env, o, n, cs, t, was, path, vals, todo, used, RunFields(env, o, n, cs, t, vals, todo, path, used))
    decreases n, 1, t, |todo|
  {
    hide BindFields, After, Evolves, GoodStruct, AllKeys, FreshVariants, Finishes, RunField, RunFields, PartEvents,
         FieldEvents, End,
         Done, ShapedFields, Plain, Expected;
    if todo == {} {
      assert cs.Keys - todo == cs.Keys;
      NothingToRun(env, o, n, cs, t, was, path, vals, used);
    } else {
      var k := o.pick(todo);
      var info, left := FieldAtKey(t, k), todo - {k};
      OneLess(cs.Keys, todo, k);
      if k !in cs {
        if info.required {
          RequiredMissing(env, o, n, cs, t, was, path, vals, todo, used);
        } else {
          FieldsRun(env, o, n, cs, t, was, path, vals, left, used);
          FieldAbsent(env, o, n, cs, t, was, path, vals, todo, used);
        }
      } else {
        FieldRuns(env, o, n, cs, t, was, path, cs.Keys - todo, info, vals, used);
        var r := RunField(env, o, n, cs, t, vals, info, path, used);
        if r.err.None? {
          FieldsRun(env, o, n, cs, t, was, path, r.vals, left, used + SelsOf(r.log));
        }
        FieldPresent(env, o, n, cs, t, was, path, vals, todo, used);
      }
    }
  }

  lemma NothingToRun(env: Env, o: Order, n: Tree, cs: map<string, Tree>, t: Schema, was: seq<Val>, path: string, vals: seq<Val>,
                     used: set<Sel>)
    requires t.StructT? && GoodStruct(t) && |was| == |vals| == |t.fields| && forall x | x in cs :: cs[x] < n
    requires var a := After(env, n, cs, t, was, path, cs.Keys); a.ok && vals == a.vals
    ensures Finishes(env, o, n, cs, t, was, path, vals, {}, used, RunFields(env, o, n, cs, t, vals, {}, path, used))
  {
    hide BindFields, After, Evolves, GoodStruct, AllKeys;
    AfterAll(env, n, cs, t, was, path, cs.Keys);
    EvolvesNot(Struct(vals), BindFields(env, n, cs, t, was, |was|, path).walks);
  }

  lemma RequiredMissing(env: Env, o: Order, n: Tree, cs: map<string, Tree>, t: Schema, was: seq<Val>, path: string,
                        vals: seq<Val>, todo: set<string>, used: set<Sel>)
    requires GoodStruct(t) && |was| == |vals| == |t.fields| && forall x | x in cs :: cs[x] < n
    requires todo != {} && todo <= AllKeys(t) && o.pick(todo) !in cs && FieldAtKey(t, o.pick(todo)).required
    ensures Finishes(env, o, n, cs, t, was, path, vals, todo, used, RunFields(env, o, n, cs, t, vals, todo, path, used))
  {
    EvolvesNot(Struct(vals), BindFields(env, n, cs, t, was, |was|, path).walks);
    hide BindFields, Evolves, ShapedFields, Plain, FieldEvents, End, Done;
  }

  /** A field that is not there, and is not required, before the others. */
  lemma FieldAbsent(env: Env, o: Order, n: Tree, cs: map<string, Tree>, t: Schema, was: seq<Val>, path: string,
                    vals: seq<Val>, todo: set<string>, used: set<Sel>)
    requires GoodStruct(t) && |was| == |vals| == |t.fields| && forall x | x in cs :: cs[x] < n
    requires todo != {} && todo <= AllKeys(t) && o.pick(todo) !in cs && !FieldAtKey(t, o.pick(todo)).required
    requires var left := todo - {o.pick(todo)};
             Finishes(env, o, n, cs, t, was, path, vals, left, used, RunFields(env, o, n, cs, t, vals, left, path, used))
    ensures Finishes(env, o, n, cs, t, was, path, vals, todo, used, RunFields(env, o, n, cs, t, vals, todo, path, used))
  {
    var k, p := o.pick(todo), FieldsPlan(env, n, cs, t, was, path);
    NothingToDo(env, o, n, cs, t, was, path, k);
    assert FieldEvents(o, p, todo) == PartEvents(o, p, k) + FieldEvents(o, p, todo - {k});
    assert [] + FieldEvents(o, p, todo - {k}) == FieldEvents(o, p, todo - {k});
    RequiredLess(t, cs, todo, k);
    hide BindFields, Evolves, ShapedFields, Plain, FieldEvents, FieldsPlan, PartEvents, End, Done, Required, GoodStruct, AllKeys;
  }

  /** A field that is there, before the others. */
  lemma FieldPresent(env: Env, o: Order, n: Tree, cs: map<string, Tree>, t: Schema, was: seq<Val>, path: string,
                     vals: seq<Val>, todo: set<string>, used: set<Sel>)
    requires GoodStruct(t) && |was| == |vals| == |t.fields| && forall x | x in cs :: cs[x] < n
    requires todo != {} && todo <= AllKeys(t) && o.pick(todo) in cs
    requires var k := o.pick(todo);
             var whole := BindFields(env, n, cs, t, was, |was|, path);
             var events := PartEvents(o, FieldsPlan(env, n, cs, t, was, path), k);
             var r := RunField(env, o, n, cs, t, vals, FieldAtKey(t, k), path, used);
             && (whole.ok ==> r.err == End(used, events) && r.log == Done(used, events))
             && Evolves(Struct(vals), Struct(r.vals), whole.walks, {})
             && (ShapedFields(cs, t) && Plain(t) && r.err.Some? ==> Expected(r.err.value))
             && (r.err.None? ==>
                   var more, left := used + SelsOf(r.log), todo - {k};
                   Finishes(env, o, n, cs, t, was, path, r.vals, left, more,
                            RunFields(env, o, n, cs, t, r.vals, left, path, more)))
    ensures Finishes(env, o, n, cs, t, was, path, vals, todo, used, RunFields(env, o, n, cs, t, vals, todo, path, used))
  {
    var k, p := o.pick(todo), FieldsPlan(env, n, cs, t, was, path);
    var left, whole := todo - {k}, BindFields(env, n, cs, t, was, |was|, path);
    var r := RunField(env, o, n, cs, t, vals, FieldAtKey(t, k), path, used);
    assert FieldEvents(o, p, todo) == PartEvents(o, p, k) + FieldEvents(o, p, left);
    EndTogether(used, PartEvents(o, p, k), FieldEvents(o, p, left));
    RequiredLess(t, cs, todo, k);
    hide BindFields, Evolves, ShapedFields, Plain, FieldEvents, FieldsPlan, PartEvents, End, Done, Required, GoodStruct, AllKeys,
         RunField;
    if r.err.None? {
      var rest := RunFields(env, o, n, cs, t, r.vals, left, path, used + SelsOf(r.log));
      EvolvesThen(Struct(vals), Struct(r.vals), Struct(rest.vals), whole.walks, whole.walks, {});
      assert whole.walks + whole.walks == whole.walks;
    }
  }

  lemma RequiredLess(t: Schema, cs: map<string, Tree>, todo: set<string>, k: string)
    requires GoodStruct(t) && todo <= AllKeys(t) && k in todo
    ensures Required(t, cs, todo) <==> (FieldAtKey(t, k).required ==> k in cs) && Required(t, cs, todo - {k})
  {}

  lemma NothingToDo(env: Env, o: Order, n: Tree, cs: map<string, Tree>, t: Schema, was: seq<Val>, path: string, k: string)
    requires t.StructT? && |was| == |t.fields| && k !in cs && forall x | x in cs :: cs[x] < n
    ensures PartEvents(o, FieldsPlan(env, n, cs, t, was, path), k) == []
  {}

  lemma OneLess(all: set<string>, todo: set<string>, key: string)
    requires key in todo
    ensures all - (todo - {key}) == if key in all then (all - todo) + {key} else all - todo
  {}

  lemma {:induction false} StructRuns(env: Env, o: Order, n: Tree, cs: map<string, Tree>, t: Schema, v: Val, path: string,
                                      used: set<Sel>)
    requires t.StructT? && FreshVariants(env) && forall x | x in cs :: cs[x] < n
    ensures var b, r := BindStruct(env, n, cs, t, v, path), RunStruct(env, o, n, cs, t, v, path, used);
            && Agrees(b, o, used, r) && Evolves(v, r.v, b.walks, {})
            && (ShapedFields(cs, t) && Plain(t) && r.err.Some? ==> Expected(r.err.value))
    decreases n, 2, t
  {
    hide BindFields, RunFields, BindStruct, RunStruct, Evolves, GoodStruct, AllKeys, FreshVariants, Plain, ShapedFields, Expected,
         After, Agrees, Finishes;
    if GoodStruct(t) && cs.Keys <= AllKeys(t) {
      var was := FieldVals(env, v, t);
      AfterNone(env, n, cs, t, was, path);
      NoneYet(cs.Keys, AllKeys(t));
      FieldsRun(env, o, n, cs, t, was, path, was, AllKeys(t), used);
      GoodStructRuns(env, o, n, cs, t, v, path, used);
    } else {
      BadStructRuns(env, o, n, cs, t, v, path, used);
    }
  }

  /** A struct, or keys, that are refused before any field is bound. */
  lemma BadStructRuns(env: Env, o: Order, n: Tree, cs: map<string, Tree>, t: Schema, v: Val, path: string, used: set<Sel>)
    requires t.StructT? && !(GoodStruct(t) && cs.Keys <= AllKeys(t)) && forall x | x in cs :: cs[x] < n
    ensures var b, r := BindStruct(env, n, cs, t, v, path), RunStruct(env, o, n, cs, t, v, path, used);
            && Agrees(b, o, used, r) && Evolves(v, r.v, b.walks, {})
            && (ShapedFields(cs, t) && Plain(t) && r.err.Some? ==> Expected(r.err.value))
  {
    hide BindFields, RunFields, Evolves, FreshVariants, Plain, WellShaped;
    EvolvesNot(v, BindStruct(env, n, cs, t, v, path).walks);
  }

  lemma GoodStructRuns(env: Env, o: Order, n: Tree, cs: map<string, Tree>, t: Schema, v: Val, path: string, used: set<Sel>)
    requires t.StructT? && GoodStruct(t) && cs.Keys <= AllKeys(t) && forall x | x in cs :: cs[x] < n
    requires var was := FieldVals(env, v, t);
             Finishes(env, o, n, cs, t, was, path, was, AllKeys(t), used,
                      RunFields(env, o, n, cs, t, was, AllKeys(t), path, used))
    ensures var b, r := BindStruct(env, n, cs, t, v, path), RunStruct(env, o, n, cs, t, v, path, used);
            && Agrees(b, o, used, r) && Evolves(v, r.v, b.walks, {})
            && (ShapedFields(cs, t) && Plain(t) && r.err.Some? ==> Expected(r.err.value))
  {
    hide BindFields, RunFields, Evolves, FieldVals, GoodStruct, AllKeys, KeysFit, Required, Plain, ShapedFields, End, Done,
         EventsOf,
         Expected, FieldsPlan, FieldEvents;
    StructErrors();
    RequiredIff(t, cs);
    StructEvents(env, o, n, cs, t, v, path);
    var was := FieldVals(env, v, t);
    var r := RunFields(env, o, n, cs, t, was, AllKeys(t), path, used);
    StructEvolves(env, v, t, r.vals, BindFields(env, n, cs, t, was, |was|, path).walks);
  }

  lemma StructErrors()
    ensures Expected(UnknownField) && Expected(MissingRequired) && Expected(Invalid)
  {}

  lemma StructEvents(env: Env, o: Order, n: Tree, cs: map<string, Tree>, t: Schema, v: Val, path: string)
    requires GoodStruct(t) && forall x | x in cs :: cs[x] < n
    ensures EventsOf(o, BindStruct(env, n, cs, t, v, path).plan)
              == FieldEvents(o, FieldsPlan(env, n, cs, t, FieldVals(env, v, t), path), AllKeys(t))
  {}

  /** If nothing goes wrong up to the hook of the whole, the order of visits does not matter to what the hook is
      asked about. */
  lemma UpToTheHook(env: Env, o: Order, n: Tree, cs: map<string, Tree>, t: Schema, v: Val, path: string, used: set<Sel>)
    requires GoodStruct(t) && FreshVariants(env) && (forall x | x in cs :: cs[x] < n) && KeysFit(t, cs)
    requires BindFields(env, n, cs, t, FieldVals(env, v, t), |t.fields|, path).ok
    requires End(used, EventsOf(o, BindStruct(env, n, cs, t, v, path).plan)).None?
    ensures var r := RunStruct(env, o, n, cs, t, v, path, used);
            && r.v == Struct(BindFields(env, n, cs, t, FieldVals(env, v, t), |t.fields|, path).vals)
            && r.err == if env.hook(t.name, r.v) then None else Some(Invalid)
  {
    var was := FieldVals(env, v, t);
    RequiredIff(t, cs);
    AfterNone(env, n, cs, t, was, path);
    NoneYet(cs.Keys, AllKeys(t));
    FieldsRun(env, o, n, cs, t, was, path, was, AllKeys(t), used);
    StructEvents(env, o, n, cs, t, v, path);
    hide BindFields, RunFields, Evolves, FieldVals, GoodStruct, AllKeys, KeysFit, FreshVariants, Required, Plain, End,
         Done, After;
  }

  lemma NoneYet(all: set<string>, todo: set<string>)
    requires all <= todo
    ensures all - todo == {}
  {}

  /// ## Variants

  lemma {:induction false} VariantRuns(env: Env, o: Order, n: Tree, family: nat, v: Val, path: string, used: set<Sel>)
    requires family in env.families && FreshVariants(env)
    ensures var b, r := BindVariant(env, n, family, v, path), RunVariant(env, o, n, family, v, path, used);
            Agrees(b, o, used, r) && Evolves(v, r.v, {}, {})
    decreases n, 3
  {
    hide BindStruct, RunStruct, BindVariant, RunVariant, GoodStruct, Evolves, FreshVariants, Agrees;
    var fam := env.families[family];
    if VariantOf(fam, n).Some? {
      var variant, cs := VariantOf(fam, n).value.1, n.children - {fam.disc};
      StructRuns(env, o, n, cs, variant.typ, variant.make, path, used);
      VariantAgrees(env, o, n, family, v, path, used);
      VariantEvolves(env, o, n, family, v, path, used);
    } else {
      NoVariant(env, o, n, family, v, path, used);
    }
  }

  lemma NoVariant(env: Env, o: Order, n: Tree, family: nat, v: Val, path: string, used: set<Sel>)
    requires family in env.families && VariantOf(env.families[family], n).None?
    ensures var b, r := BindVariant(env, n, family, v, path), RunVariant(env, o, n, family, v, path, used);
            Agrees(b, o, used, r) && Evolves(v, r.v, {}, {})
  {
    hide Evolves;
    EvolvesNot(v, {});
  }

  /** Nothing of the caller is behind a variant. */
  lemma VariantEvolves(env: Env, o: Order, n: Tree, family: nat, v: Val, path: string, used: set<Sel>)
    requires family in env.families && FreshVariants(env) && VariantOf(env.families[family], n).Some?
    requires var fam := env.families[family];
             var variant, cs := VariantOf(fam, n).value.1, n.children - {fam.disc};
             Evolves(variant.make, RunStruct(env, o, n, cs, variant.typ, variant.make, path, used).v,
                     BindStruct(env, n, cs, variant.typ, variant.make, path).walks, {})
    ensures Evolves(v, RunVariant(env, o, n, family, v, path, used).v, {}, {})
  {
    hide BindStruct, RunStruct, GoodStruct, Selectable, Selectors, Evolves, Taken;
    var fam := env.families[family];
    var variant, cs := VariantOf(fam, n).value.1, n.children - {fam.disc};
    var x := RunStruct(env, o, n, cs, variant.typ, variant.make, path, used).v;
    EvolvesNot(v, {});
    assert Places(variant.make) == {};
    EvolvesPlaces(variant.make, x, BindStruct(env, n, cs, variant.typ, variant.make, path).walks, {});
    EvolvesToNew(v, x);
  }

  lemma EvolvesToNew(v: Val, x: Val)
    requires Places(x) == {}
    ensures Evolves(v, New(x), {}, {})
  {}

  lemma VariantAgrees(env: Env, o: Order, n: Tree, family: nat, v: Val, path: string, used: set<Sel>)
    requires family in env.families && VariantOf(env.families[family], n).Some?
    requires var fam := env.families[family];
             var variant, cs := VariantOf(fam, n).value.1, n.children - {fam.disc};
             Agrees(BindStruct(env, n, cs, variant.typ, variant.make, path), o, used,
                    RunStruct(env, o, n, cs, variant.typ, variant.make, path, used))
    ensures Agrees(BindVariant(env, n, family, v, path), o, used, RunVariant(env, o, n, family, v, path, used))
  {
    var fam := env.families[family];
    var (name, variant) := VariantOf(fam, n).value;
    var cs := n.children - {fam.disc};
    var part, r := BindStruct(env, n, cs, variant.typ, variant.make, path),
                   RunStruct(env, o, n, cs, variant.typ, variant.make, path, used);
    if GoodStruct(variant.typ) {
      hide BindStruct, RunStruct, GoodStruct, Selectable, Selectors, End, Done, EventsOf, Taken;
      var reg := Reg(family, Instance(Selectors(env, fam.disc, name, variant.typ, part.v, path), New(part.v)));
      var last := if Selectable(env, variant.typ, part.v) then Adds(reg) else Breaks;
      LastEvents(o, part.plan, last, used, reg);
    } else {
      assert !part.ok && r.err.Some?;
    }
  }

  /** What the fields do, and then the registration or a panic. */
  lemma LastEvents(o: Order, p: Plan, last: Plan, used: set<Sel>, reg: Reg)
    requires last == Adds(reg) || last == Breaks
    ensures var events := EventsOf(o, InTurn(p, last));
            if End(used, EventsOf(o, p)).Some? then
              End(used, events) == End(used, EventsOf(o, p)) && Done(used, events) == Done(used, EventsOf(o, p))
            else
              var taken := Taken(used + SelsOf(Done(used, EventsOf(o, p))), SelOf(reg));
              && End(used, events) == (if last.Breaks? then Some(Panicked) else if taken then Some(Duplicate) else None)
              && Done(used, events) == Done(used, EventsOf(o, p)) + if last.Breaks? || taken then [] else [reg]
  {
    hide End, Done, Taken;
    EndTogether(used, EventsOf(o, p), EventsOf(o, last));
    OneEvent(used + SelsOf(Done(used, EventsOf(o, p))), reg);
  }

  lemma OneEvent(used: set<Sel>, reg: Reg)
    ensures End(used, [Panic]) == Some(Panicked) && Done(used, [Panic]) == []
    ensures End(used, [Adding(reg)]) == if Taken(used, SelOf(reg)) then Some(Duplicate) else None
    ensures Done(used, [Adding(reg)]) == if Taken(used, SelOf(reg)) then [] else [reg]
  {
    hide Taken;
    assert [Adding(reg)][1..] == [];
  }

  /// ## Selectors

  /** The selector fields can be read, said of the field map. */
  lemma SelectableFields(env: Env, t: Schema, v: Val)
    requires GoodStruct(t)
    ensures var fields := IndexByKey(AllInfos(t).value);
            Selectable(env, t, v)
            <==> forall k | k in fields && fields[k].selector :: Readable(env, t, FieldVals(env, v, t), fields[k].index)
  {
    hide Readable;
    var infos := AllInfos(t).value;
    var fields := IndexByKey(infos);
    if Selectable(env, t, v) {
      forall k | k in fields && fields[k].selector ensures Readable(env, t, FieldVals(env, v, t), fields[k].index) {
        IndexFound(infos, k);
        var i :| 0 <= i < |infos| && infos[i] == fields[k];
      }
    }
    if forall k | k in fields && fields[k].selector :: Readable(env, t, FieldVals(env, v, t), fields[k].index) {
      forall i | 0 <= i < |infos| && infos[i].selector ensures Readable(env, t, FieldVals(env, v, t), infos[i].index) {
        IndexFinds(infos, i);
      }
    }
  }

  /** The selector fields among those not in `todo`. */
  function SelectorMap(env: Env, t: Schema, vals: seq<Val>, fields: map<string, FieldInfo>, todo: set<string>)
    : map<string, string>
    requires t.StructT? && |vals| == |t.fields|
  {
    map k | k in fields && k !in todo && fields[k].selector :: env.sprint(GetAt(env, t, vals, fields[k].index))
  }

  lemma SelectorMapStep(env: Env, t: Schema, vals: seq<Val>, fields: map<string, FieldInfo>, todo: set<string>,
                        key: string)
    requires t.StructT? && |vals| == |t.fields| && key in todo && key in fields
    ensures var m := SelectorMap(env, t, vals, fields, todo);
            SelectorMap(env, t, vals, fields, todo - {key})
              == if fields[key].selector then m[key := env.sprint(GetAt(env, t, vals, fields[key].index))] else m
  {
    hide GetAt;
  }

  lemma SelectorMapNone(env: Env, t: Schema, vals: seq<Val>, fields: map<string, FieldInfo>)
    requires t.StructT? && |vals| == |t.fields|
    ensures SelectorMap(env, t, vals, fields, fields.Keys) == map[]
  {}

  lemma SelectorMapOneMore(env: Env, t: Schema, vals: seq<Val>, fields: map<string, FieldInfo>, info: FieldInfo)
    requires t.StructT? && |vals| == |t.fields| && info.key !in fields
    ensures var m := SelectorMap(env, t, vals, fields, {});
            SelectorMap(env, t, vals, fields[info.key := info], {})
              == if info.selector then m[info.key := env.sprint(GetAt(env, t, vals, info.index))] else m
  {
    hide GetAt;
  }

  /** The order of the fields does not matter to the selectors. */
  lemma {:induction false} SelectorFieldsMap(env: Env, t: Schema, vals: seq<Val>, infos: seq<FieldInfo>)
    requires t.StructT? && |vals| == |t.fields| && NoDup(KeysOf(infos))
    ensures SelectorFields(env, t, vals, infos) == SelectorMap(env, t, vals, IndexByKey(infos), {})
  {
    hide GetAt;
    if infos != [] {
      var init, last := infos[..|infos| - 1], infos[|infos| - 1];
      assert KeysOf(infos) == KeysOf(init) + [last.key];
      NoDupAppend(KeysOf(init), [last.key]);
      IndexKeys(init);
      assert last.key in SetOf([last.key]);
      hide KeysOf, SetOf, SelectorMap;
      SelectorFieldsMap(env, t, vals, init);
      SelectorMapOneMore(env, t, vals, IndexByKey(init), last);
    }
  }
}
