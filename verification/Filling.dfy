/** Which types some tree binds to, told from the type: a field that is not required can be left out, a map or a
    list can be empty, and scalars parse as the user's code likes. */
module Filling {
  import opened Text
  import opened Trees
  import opened Schema
  import opened Binding
  import opened BindingLaws
  import opened Running
  import opened Walks
  import opened Agreement
  import opened Events
  import opened Orders
  import opened UserCode
  import opened Traces
  import opened Paths
  import opened Pruning
  import opened Panics

  /** What is required of a value of this type can be given. */
  ghost predicate Fillable(env: Env, t: Schema)
    decreases t, 1
  {
    match t
    case ScalarT(_) => true
    case PtrT(elem) => Fillable(env, elem)
    case IfaceT(f, empty) => f !in env.families && empty
    case StructT(_, _) => StructFillable(env, t)
    case MapT(stringKeys, _) => stringKeys
    case SliceT(_) => true
    case ArrayT(_) => false
  }

  ghost predicate StructFillable(env: Env, t: Schema)
    decreases t, 0
  {
    && GoodStruct(t)
    && forall info | info in AllInfos(t).value && info.required :: (InfosBelow(t, |t.fields|, []); Fillable(env, info.typ))
  }

  /** It requires no variant of a family. */
  ghost predicate NoVariantRequired(env: Env, t: Schema)
    decreases t, 1
  {
    match t
    case PtrT(elem) => NoVariantRequired(env, elem)
    case IfaceT(f, _) => f !in env.families
    case StructT(_, _) => StructRequiresNone(env, t)
    case _ => true
  }

  ghost predicate StructRequiresNone(env: Env, t: Schema)
    decreases t, 0
  {
    GoodStruct(t) ==>
      forall info | info in AllInfos(t).value && info.required ::
        (InfosBelow(t, |t.fields|, []); NoVariantRequired(env, info.typ))
  }

  /// ## A tree with what is required

  /** Scalars parse to themselves, and every hook accepts. */
  function WillingAll(): Code {
    Code((_, s) => Some(s), (_, _) => true, (_, _) => true)
  }

  /** The tree has the required keys, each with a tree that fills its field. */
  ghost predicate Suits(env: Env, n: Tree, t: Schema)
    decreases n, t, 1
  {
    match t
    case ScalarT(_) => n.Scalar?
    case PtrT(elem) => Suits(env, n, elem)
    case IfaceT(f, empty) => f !in env.families && empty
    case StructT(_, _) => n.Map? && ChildrenSuit(env, n, n.children, t)
    case MapT(stringKeys, _) => stringKeys && n == Map([], map[], "")
    case SliceT(_) => n == Seq([], "")
    case ArrayT(_) => false
  }

  ghost predicate ChildrenSuit(env: Env, n: Tree, cs: map<string, Tree>, t: Schema)
    requires forall k | k in cs :: cs[k] < n
    decreases n, t, 0
  {
    && GoodStruct(t) && cs.Keys == RequiredKeys(t)
    && forall info | info in AllInfos(t).value && info.key in cs :: Suits(env, cs[info.key], info.typ)
  }

  lemma {:induction false} FillingTree(env: Env, t: Schema) returns (n: Tree)
    requires Fillable(env, t)
    ensures WF(n) && WellShaped(n, t) && Suits(env, n, t)
    decreases t, 1
  {
    match t
    case ScalarT(_) => n := Scalar("", "", false, false, "");
    case PtrT(elem) => n := FillingTree(env, elem);
    case IfaceT(_, _) => n := Scalar("", "", false, false, "");
    case StructT(_, _) =>
      var cs := FillingChildren(env, t);
      n := MapWith(cs);
      MapWithWF(cs);
      FilledStruct(env, n, cs, t);
    case MapT(_, _) =>
      n := Map([], map[], "");
      assert SetOf<string>([]) == {};
    case SliceT(_) => n := Seq([], "");
  }

  /** Children for the required keys. */
  lemma {:induction false} FillingChildren(env: Env, t: Schema) returns (cs: map<string, Tree>)
    requires t.StructT? && StructFillable(env, t)
    ensures cs.Keys == RequiredKeys(t)
    ensures forall info | info in AllInfos(t).value && info.key in cs ::
              WF(cs[info.key]) && WellShaped(cs[info.key], info.typ) && Suits(env, cs[info.key], info.typ)
    decreases t, 0
  {
    hide WF, WellShaped, Suits, Fillable;
    var required := RequiredKeys(t);
    InfosBelow(t, |t.fields|, []);
    forall k | k in required ensures k in AllKeys(t) {
      RequiredField(t, k);
    }
    forall k | k in required
      ensures exists c :: WF(c) && WellShaped(c, FieldAtKey(t, k).typ) && Suits(env, c, FieldAtKey(t, k).typ)
    {
      RequiredField(t, k);
      var c := FillingTree(env, FieldAtKey(t, k).typ);
    }
    cs := map k | k in required :: ChildFor(env, FieldAtKey(t, k).typ);
    forall info | info in AllInfos(t).value && info.key in cs
      ensures WF(cs[info.key]) && WellShaped(cs[info.key], info.typ) && Suits(env, cs[info.key], info.typ)
    {
      InfoAtKey(t, info);
    }
  }

  ghost function ChildFor(env: Env, t: Schema): (c: Tree)
    requires exists c :: WF(c) && WellShaped(c, t) && Suits(env, c, t)
    ensures WF(c) && WellShaped(c, t) && Suits(env, c, t)
  {
    var c :| WF(c) && WellShaped(c, t) && Suits(env, c, t);
    c
  }

  lemma InfoAtKey(t: Schema, info: FieldInfo)
    requires GoodStruct(t) && info in AllInfos(t).value
    ensures info.key in AllKeys(t) && FieldAtKey(t, info.key) == info
  {
    var infos := AllInfos(t).value;
    var j :| 0 <= j < |infos| && infos[j] == info;
    FieldIsAtKey(t, j);
  }

  lemma RequiredField(t: Schema, k: string)
    requires GoodStruct(t) && k in RequiredKeys(t)
    ensures k in AllKeys(t) && FieldAtKey(t, k).required && FieldAtKey(t, k) in AllInfos(t).value
  {
    var info :| info in AllInfos(t).value && info.required && info.key == k;
    InfoAtKey(t, info);
  }

  /** A map with these children. */
  ghost function MapWith(cs: map<string, Tree>): Tree {
    Map(Listing(cs.Keys), cs, "")
  }

  ghost function Listing(s: set<string>): seq<string> {
    if s == {} then []
    else
      var k :| k in s;
      Listing(s - {k}) + [k]
  }

  lemma {:induction false} ListingLists(s: set<string>)
    ensures NoDup(Listing(s)) && SetOf(Listing(s)) == s
  {
    if s != {} {
      var keys := Listing(s);
      var init, k := keys[..|keys| - 1], keys[|keys| - 1];
      assert init == Listing(s - {k}) && keys == init + [k];
      ListingLists(s - {k});
      AppendNew(init, k);
    }
  }

  lemma MapWithWF(cs: map<string, Tree>)
    requires forall k | k in cs :: WF(cs[k])
    ensures WF(MapWith(cs)) && forall k | k in cs :: cs[k] < MapWith(cs)
  {
    ListingLists(cs.Keys);
    forall k | k in cs ensures cs[k] < MapWith(cs) {
      assert MapWith(cs).children[k] < MapWith(cs);
    }
  }

  lemma FilledStruct(env: Env, n: Tree, cs: map<string, Tree>, t: Schema)
    requires t.StructT? && StructFillable(env, t) && n.Map? && n.children == cs && cs.Keys == RequiredKeys(t)
    requires forall k | k in cs :: cs[k] < n
    requires forall info | info in AllInfos(t).value && info.key in cs ::
               WF(cs[info.key]) && WellShaped(cs[info.key], info.typ) && Suits(env, cs[info.key], info.typ)
    ensures WellShaped(n, t) && Suits(env, n, t)
  {
    var infos := AllInfos(t).value;
    forall i, k | 0 <= i < |infos| && k in n.children && infos[i].key == k ensures WellShaped(n.children[k], infos[i].typ) {
      assert infos[i] in infos;
    }
  }

  /// ## It binds

  /** In every order, at every place and onto every value, and nothing is registered. */
  lemma {:induction false} FillingRuns(env: Env, o: Order, n: Tree, t: Schema, v: Val, path: string, used: set<Sel>)
    requires Suits(env, n, t)
    ensures var r := RunValue(With(env, WillingAll()), o, n, t, v, path, used); r.err.None? && r.log == []
    decreases n, 3, t
  {
    hide RunFields, StructFillable, ChildrenSuit;
    var e := With(env, WillingAll());
    match t
    case PtrT(elem) => FillingRuns(env, o, n, elem, Pointee(e, v, elem), path, used);
    case StructT(_, _) => StructFills(env, o, n, n.children, t, v, path, used);
    case MapT(_, elem) => assert RunKeys(e, o, n, elem, 0, path, used) == Ran(None, MapV(map[]), []);
    case SliceT(elem) => assert RunItems(e, o, n, elem, 0, path, used) == Ran(None, SliceV([]), []);
    case _ =>
  }

  lemma {:induction false} StructFills(env: Env, o: Order, n: Tree, cs: map<string, Tree>, t: Schema, v: Val, path: string,
                                       used: set<Sel>)
    requires t.StructT? && (forall k | k in cs :: cs[k] < n) && ChildrenSuit(env, n, cs, t)
    ensures var r := RunStruct(With(env, WillingAll()), o, n, cs, t, v, path, used); r.err.None? && r.log == []
    decreases n, 2, t
  {
    hide RunFields, FieldVals;
    forall k | k in cs ensures k in AllKeys(t) {
      RequiredField(t, k);
    }
    FieldsFill(env, o, n, cs, t, FieldVals(With(env, WillingAll()), v, t), AllKeys(t), path, used);
  }

  lemma {:induction false} FieldsFill(env: Env, o: Order, n: Tree, cs: map<string, Tree>, t: Schema, vals: seq<Val>,
                                      todo: set<string>, path: string, used: set<Sel>)
    requires t.StructT? && (forall k | k in cs :: cs[k] < n) && ChildrenSuit(env, n, cs, t)
    requires |vals| == |t.fields| && todo <= AllKeys(t)
    ensures var r := RunFields(With(env, WillingAll()), o, n, cs, t, vals, todo, path, used); r.err.None? && r.log == []
    decreases n, 1, t, |todo|
  {
    hide RunValue, AllKeys, GetAt, SetAt, Suits;
    if todo != {} {
      var e, k, left := With(env, WillingAll()), o.pick(todo), todo - {o.pick(todo)};
      var info := FieldAtKey(t, k);
      if k in cs {
        FillingRuns(env, o.Below(InKey(k)), cs[k], info.typ, GetAt(e, t, vals, info.index), JoinPath(path, k), used);
        var r := RunField(e, o, n, cs, t, vals, info, path, used);
        assert used + SelsOf([]) == used;
        FieldsFill(env, o, n, cs, t, r.vals, left, path, used);
      } else {
        assert !info.required;
        FieldsFill(env, o, n, cs, t, vals, left, path, used);
      }
    }
  }

  /// ## And what binds can be given

  lemma {:induction false} BoundIsFillable(env: Env, code: Code, o: Order, n: Tree, t: Schema, v: Val, path: string,
                                           used: set<Sel>)
    requires NoVariantRequired(env, t) && RunValue(With(env, code), o, n, t, v, path, used).err.None?
    ensures Fillable(env, t)
    decreases n, 3, t
  {
    hide RunStruct, StructFillable, StructRequiresNone;
    match t
    case PtrT(elem) => BoundIsFillable(env, code, o, n, elem, Pointee(With(env, code), v, elem), path, used);
    case StructT(_, _) => StructIsFillable(env, code, o, n, n.children, t, v, path, used);
    case _ =>
  }

  lemma {:induction false} StructIsFillable(env: Env, code: Code, o: Order, n: Tree, cs: map<string, Tree>, t: Schema, v: Val,
                                            path: string, used: set<Sel>)
    requires t.StructT? && (forall k | k in cs :: cs[k] < n) && StructRequiresNone(env, t)
    requires RunStruct(With(env, code), o, n, cs, t, v, path, used).err.None?
    ensures StructFillable(env, t) && RequiredKeys(t) <= cs.Keys
    decreases n, 2, t
  {
    hide RunFields, Fillable, NoVariantRequired, FieldVals;
    InfosBelow(t, |t.fields|, []);
    forall info | info in AllInfos(t).value && info.required ensures info.key in cs && Fillable(env, info.typ) {
      InfoAtKey(t, info);
      FieldIsFillable(env, code, o, n, cs, t, FieldVals(With(env, code), v, t), AllKeys(t), path, used, info.key);
    }
  }

  lemma {:induction false} FieldIsFillable(env: Env, code: Code, o: Order, n: Tree, cs: map<string, Tree>, t: Schema,
                                           vals: seq<Val>, todo: set<string>, path: string, used: set<Sel>, k: string)
    requires t.StructT? && GoodStruct(t) && (forall x | x in cs :: cs[x] < n) && |vals| == |t.fields| && todo <= AllKeys(t)
    requires k in todo && FieldAtKey(t, k).required && NoVariantRequired(env, FieldAtKey(t, k).typ)
    requires RunFields(With(env, code), o, n, cs, t, vals, todo, path, used).err.None?
    ensures k in cs && Fillable(env, FieldAtKey(t, k).typ)
    decreases n, 1, t, |todo|
  {
    hide RunValue, AllKeys, GoodStruct, GetAt, SetAt, Fillable, NoVariantRequired;
    var e, j := With(env, code), o.pick(todo);
    var info, left := FieldAtKey(t, j), todo - {j};
    if j in cs {
      var r := RunField(e, o, n, cs, t, vals, info, path, used);
      if j == k {
        BoundIsFillable(env, code, o.Below(InKey(k)), cs[k], info.typ, GetAt(e, t, vals, info.index), JoinPath(path, k), used);
      } else {
        FieldIsFillable(env, code, o, n, cs, t, r.vals, left, path, used + SelsOf(r.log), k);
      }
    } else {
      FieldIsFillable(env, code, o, n, cs, t, vals, left, path, used, k);
    }
  }

  /// ## The exact conditions

  /** A type that requires no variant binds from some tree exactly if what it requires can be given. */
  lemma BindableIff(env: Env, t: Schema, path: string)
    requires NoVariantRequired(env, t)
    ensures Bindable(env, t, path) <==> Fillable(env, t)
  {
    hide RunValue, WF, WellShaped, Fillable, NoVariantRequired, Suits;
    if Bindable(env, t, path) {
      var code, o, n :| WF(n) && WellShaped(n, t) && RunValue(With(env, code), o, n, t, Zero(env, t), path, {}).err.None?;
      BoundIsFillable(env, code, o, n, t, Zero(env, t), path, {});
    }
    if Fillable(env, t) {
      var n := FillingTree(env, t);
      var o := Order(First(""), map[]);
      FillingRuns(env, o, n, t, Zero(env, t), path, {});
      assert RunValue(With(env, WillingAll()), o, n, t, Zero(env, t), path, {}).err.None?;
    }
  }

  /** The discriminator is no required key of the variant, and what it requires can be given. */
  ghost predicate VariantFillable(env: Env, family: nat, name: string)
    requires family in env.families && name in env.families[family].variants
  {
    var typ := env.families[family].variants[name].typ;
    StructFillable(env, typ) && typ.StructT? && env.families[family].disc !in RequiredKeys(typ)
  }

  /** The same for a variant that requires none in turn. */
  lemma FilledIff(env: Env, family: nat, name: string)
    requires family in env.families && name in env.families[family].variants
    requires StructRequiresNone(env, env.families[family].variants[name].typ)
    ensures Filled(env, family, name) <==> VariantFillable(env, family, name)
  {
    hide RunStruct, WF, WellShaped, StructFillable, StructRequiresNone, RequiredKeys;
    var fam := env.families[family];
    var variant := fam.variants[name];
    if code, o, n, path :| WF(n) && VariantOf(fam, n).Some? && VariantOf(fam, n).value.0 == name
                           && MadeAndBound(With(env, code), o, n, family, path, {}).err.None? {
      StructIsFillable(env, code, o, n, n.children - {fam.disc}, variant.typ, variant.make, path, {});
    }
    if VariantFillable(env, family, name) {
      var o, n := VariantSuited(env, family, name);
      assert MadeAndBound(With(env, WillingAll()), o, n, family, "", {}).err.None?;
    }
  }

  lemma VariantSuited(env: Env, family: nat, name: string) returns (o: Order, n: Tree)
    requires family in env.families && name in env.families[family].variants && VariantFillable(env, family, name)
    ensures WF(n) && VariantOf(env.families[family], n).Some? && VariantOf(env.families[family], n).value.0 == name
    ensures MadeAndBound(With(env, WillingAll()), o, n, family, "", {}).err.None?
  {
    hide RunStruct, WF, WellShaped, StructFillable, Suits;
    var fam := env.families[family];
    var variant := fam.variants[name];
    var cs := FillingChildren(env, variant.typ);
    GoodIfFillable(env, variant.typ);
    forall k | k in cs ensures WF(cs[k]) {
      RequiredField(variant.typ, k);
    }
    var named := Scalar(name, "", false, false, "");
    assert WF(named) by {
      ScalarWF(named);
    }
    var all := cs[fam.disc := named];
    n, o := MapWith(all), Order(First(""), map[]);
    MapWithWF(all);
    assert n.children - {fam.disc} == cs;
    StructFills(env, o, n, cs, variant.typ, variant.make, "", {});
    assert VariantOf(fam, n) == Some((name, variant));
  }

  lemma ScalarWF(n: Tree)
    requires n.Scalar?
    ensures WF(n)
  {}

  lemma GoodIfFillable(env: Env, t: Schema)
    requires StructFillable(env, t)
    ensures GoodStruct(t)
  {}

  /** Where the variant is bound does not matter. */
  lemma FilledAnywhere(env: Env, family: nat, path: string)
    requires family in env.families && FreshVariants(env)
    ensures VariantBinds(env, family, path) <==> exists name | name in env.families[family].variants :: Filled(env, family, name)
  {
    hide RunStruct, FreshVariants, WF;
    var fam := env.families[family];
    if code, o, n :| WF(n) && VariantOf(fam, n).Some? && MadeAndBound(With(env, code), o, n, family, path, {}).err.None? {
      assert Filled(env, family, VariantOf(fam, n).value.0);
    }
    if name :| name in fam.variants && Filled(env, family, name) {
      var code, o, n, p :| WF(n) && VariantOf(fam, n).Some? && VariantOf(fam, n).value.0 == name
                           && MadeAndBound(With(env, code), o, n, family, p, {}).err.None?;
      BoundAnywhere(env, code, o, n, family, p, path);
    }
  }

  lemma BoundAnywhere(env: Env, code: Code, o: Order, n: Tree, family: nat, p: string, q: string)
    requires family in env.families && FreshVariants(env) && VariantOf(env.families[family], n).Some?
    requires MadeAndBound(With(env, code), o, n, family, p, {}).err.None?
    ensures MadeAndBound(With(env, code), o, n, family, q, {}).err.None?
  {
    hide RunStruct, BindStruct, FreshVariants, End, EventsOf;
    var e, fam := With(env, code), env.families[family];
    var variant, cs := VariantOf(fam, n).value.1, n.children - {fam.disc};
    StillFresh(env, code);
    StructEnds(e, o, n, cs, variant.typ, variant.make, p, {});
    StructAnywhere(e, n, cs, variant.typ, variant.make, p, q);
    StructEnds(e, o, n, cs, variant.typ, variant.make, q, {});
  }

  /** A family whose variants require none in turn. */
  lemma FamilyBindsIff(env: Env, family: nat, path: string)
    requires family in env.families && FreshVariants(env)
    requires forall name | name in env.families[family].variants ::
               StructRequiresNone(env, env.families[family].variants[name].typ)
    ensures VariantBinds(env, family, path)
            <==> exists name | name in env.families[family].variants :: VariantFillable(env, family, name)
  {
    hide VariantBinds, Filled, VariantFillable, StructRequiresNone, FreshVariants;
    FilledAnywhere(env, family, path);
    forall name | name in env.families[family].variants
      ensures Filled(env, family, name) <==> VariantFillable(env, family, name)
    {
      FilledIff(env, family, name);
    }
  }
}
