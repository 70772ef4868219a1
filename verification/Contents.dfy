/** What a bind puts where: the value it gives, place by place, for every kind of type. */
module Contents {
  import opened Text
  import opened Trees
  import opened Schema
  import opened Binding
  import opened BindingLaws
  import opened Variants
  import opened Running
  import opened Agreement
  import opened Validation
  import Fields

  /// ## Fields and their tags

  /** The tag of the field that an index chain leads to. */
  function TagAt(t: Schema, index: seq<nat>): Option<Tag>
    requires t.StructT?
    decreases |index|
  {
    if index == [] || index[0] >= |t.fields| then None
    else if |index| == 1 then Some(t.fields[index[0]].tag)
    else if Inlined(t.fields[index[0]]).None? then None
    else TagAt(Inlined(t.fields[index[0]]).value, index[1..])
  }

  /** Each collected field has the flags of its tag. */
  lemma {:induction false} InfosFlags(t: Schema, m: nat, prefix: seq<nat>, j: nat)
    requires t.StructT? && m <= |t.fields| && Infos(t, m, prefix).Some? && j < |Infos(t, m, prefix).value|
    ensures var info := Infos(t, m, prefix).value[j];
            prefix <= info.index && TagAt(t, info.index[|prefix|..]) == Some(Key(info.key, info.required, info.selector))
    decreases t, m
  {
    var a, b := Infos(t, m - 1, prefix).value, InfosOf(t, m - 1, prefix).value;
    if j < |a| {
      InfosFlags(t, m - 1, prefix, j);
    } else {
      var info, f := b[j - |a|], t.fields[m - 1];
      assert (a + b)[j] == info;
      if f.tag.Inline? {
        var longer := prefix + [m - 1];
        InfosFlags(Inlined(f).value, |Inlined(f).value.fields|, longer, j - |a|);
        assert info.index[|prefix|..][1..] == info.index[|longer|..];
        assert info.index[|prefix|] == longer[|prefix|];
      }
    }
  }

  /** Every field that an index chain leads to is collected. */
  lemma {:induction false} InfosComplete(t: Schema, m: nat, prefix: seq<nat>, index: seq<nat>, key: string, typ: Schema)
    returns (j: nat)
    requires t.StructT? && m <= |t.fields| && Infos(t, m, prefix).Some? && Leads(t, index, key, typ) && index[0] < m
    ensures j < |Infos(t, m, prefix).value|
    ensures var info := Infos(t, m, prefix).value[j]; info.key == key && info.typ == typ && info.index == prefix + index
    decreases t, m
  {
    var a, b := Infos(t, m - 1, prefix).value, InfosOf(t, m - 1, prefix).value;
    if index[0] < m - 1 {
      j := InfosComplete(t, m - 1, prefix, index, key, typ);
    } else {
      var f := t.fields[m - 1];
      if |index| == 1 {
        assert index == [m - 1];
        j := |a|;
      } else {
        var st := Inlined(f).value;
        LeadsStarts(st, index[1..], key, typ);
        var i := InfosComplete(st, |st.fields|, prefix + [m - 1], index[1..], key, typ);
        assert prefix + [m - 1] + index[1..] == prefix + index;
        j := |a| + i;
      }
      assert (a + b)[j] == b[j - |a|];
    }
  }

  lemma LeadsStarts(t: Schema, index: seq<nat>, key: string, typ: Schema)
    requires t.StructT? && Leads(t, index, key, typ)
    ensures index != [] && index[0] < |t.fields|
  {}

  /// ## Places

  lemma InnerOfWrapped(env: Env, f: Field, v: Val, vals: seq<Val>)
    requires Inlined(f).Some? && |vals| == |Inlined(f).value.fields|
    ensures InnerVals(env, f, WrapInner(f, v, vals)) == vals
  {}

  /** What is written to a place is read there. */
  lemma {:induction false} PlaceHolds(env: Env, t: Schema, vals: seq<Val>, index: seq<nat>, key: string, typ: Schema, x: Val)
    requires t.StructT? && |vals| == |t.fields| && Leads(t, index, key, typ)
    ensures GetAt(env, t, SetAt(env, t, vals, index, x), index) == x
    decreases |index|
  {
    if |index| > 1 {
      var f, v := t.fields[index[0]], vals[index[0]];
      var st := Inlined(f).value;
      PlaceHolds(env, st, InnerVals(env, f, v), index[1..], key, typ, x);
      InnerOfWrapped(env, f, v, SetAt(env, st, InnerVals(env, f, v), index[1..], x));
    }
  }

  /** And the place of another key keeps what it has. */
  lemma {:induction false} OtherPlaceKept(env: Env, t: Schema, vals: seq<Val>, index: seq<nat>, key: string, typ: Schema, x: Val,
                                          other: seq<nat>, key2: string, typ2: Schema)
    requires t.StructT? && |vals| == |t.fields| && Leads(t, index, key, typ) && Leads(t, other, key2, typ2) && key != key2
    ensures GetAt(env, t, SetAt(env, t, vals, index, x), other) == GetAt(env, t, vals, other)
    decreases |index|
  {
    if index[0] == other[0] {
      var f, v := t.fields[index[0]], vals[index[0]];
      assert |index| > 1 && |other| > 1;
      var st := Inlined(f).value;
      OtherPlaceKept(env, st, InnerVals(env, f, v), index[1..], key, typ, x, other[1..], key2, typ2);
      InnerOfWrapped(env, f, v, SetAt(env, st, InnerVals(env, f, v), index[1..], x));
    }
  }

  /** What the field of a key holds when some keys have been bound: what its child binds to, on what it held, if it is
      among them and has a child, and otherwise what it held. */
  ghost function HeldBy(env: Env, n: Tree, cs: map<string, Tree>, t: Schema, vals: seq<Val>, path: string, done: set<string>,
                        info: FieldInfo): Val
    requires t.StructT? && |vals| == |t.fields|
  {
    var held := GetAt(env, t, vals, info.index);
    if info.key in cs && info.key in done then BindValue(env, cs[info.key], info.typ, held, JoinPath(path, info.key)).v else held
  }

  lemma {:induction false} FieldsHold(env: Env, n: Tree, cs: map<string, Tree>, t: Schema, vals: seq<Val>, path: string,
                                      done: set<string>, info: FieldInfo)
    requires GoodStruct(t) && |vals| == |t.fields| && forall k | k in cs :: cs[k] < n
    requires cs.Keys <= AllKeys(t) && done <= cs.Keys && info in AllInfos(t).value
    ensures GetAt(env, t, After(env, n, cs, t, vals, path, done).vals, info.index)
         == HeldBy(env, n, cs, t, vals, path, done, info)
    decreases |done|
  {
    hide After, BindValue, GetAt, AllKeys, SetAt, ChainWalks, Leads, AllInfos;
    if done == {} {
      AfterNone(env, n, cs, t, vals, path);
    } else {
      var k :| k in done;
      var last := FieldOfKey(t, k);
      var a := After(env, n, cs, t, vals, path, done - {k});
      FieldsHold(env, n, cs, t, vals, path, done - {k}, info);
      AfterOneMore(env, n, cs, t, vals, path, done - {k}, last);
      assert done - {k} + {k} == done;
      var x := BindValue(env, cs[k], last.typ, GetAt(env, t, a.vals, last.index), JoinPath(path, k));
      ChainOf(t, info);
      if info.key == k {
        OneOfKey(t, info, last);
        PlaceHolds(env, t, a.vals, last.index, k, last.typ, x.v);
      } else {
        OtherPlaceKept(env, t, a.vals, last.index, k, last.typ, x.v, info.index, info.key, info.typ);
      }
    }
  }

  /** A struct that binds holds, in the field of each key of the map, what the child binds to on what the field held,
      and in every other field what it held. */
  lemma StructHolds(env: Env, n: Tree, cs: map<string, Tree>, t: Schema, v: Val, path: string, info: FieldInfo)
    requires GoodStruct(t) && forall k | k in cs :: cs[k] < n
    requires cs.Keys <= AllKeys(t) && info in AllInfos(t).value
    ensures var b, vals := BindStruct(env, n, cs, t, v, path).v, FieldVals(env, v, t);
            var held := GetAt(env, t, vals, info.index);
            && b.Struct? && |b.fields| == |t.fields|
            && GetAt(env, t, b.fields, info.index)
               == if info.key in cs then BindValue(env, cs[info.key], info.typ, held, JoinPath(path, info.key)).v else held
  {
    var vals := FieldVals(env, v, t);
    FieldsHold(env, n, cs, t, vals, path, cs.Keys, info);
    AfterAll(env, n, cs, t, vals, path, cs.Keys);
    hide BindFields, After, BindValue, GetAt, AllInfos, AllKeys;
  }

  /** Every field of a zero struct, however deep it is inlined, is zero. */
  lemma {:induction false} ZeroHolds(env: Env, t: Schema, index: seq<nat>, key: string, typ: Schema)
    requires t.StructT? && Leads(t, index, key, typ)
    ensures GetAt(env, t, Zero(env, t).fields, index) == Zero(env, typ)
    decreases |index|
  {
    if |index| > 1 {
      var f := t.fields[index[0]];
      assert Zero(env, t).fields[index[0]] == Zero(env, f.typ);
      ZeroHolds(env, Inlined(f).value, index[1..], key, typ);
    }
  }

  /** What zero is: nothing is set, no pointer leads anywhere, and a scalar is what its type says. */
  lemma ZeroIs(env: Env, id: nat, elem: Schema, stringKeys: bool, family: nat, empty: bool)
    ensures Zero(env, ScalarT(id)) == Leaf(env.zero(id)) && Zero(env, PtrT(elem)) == Nil
    ensures Zero(env, MapT(stringKeys, elem)) == Nil && Zero(env, SliceT(elem)) == Nil && Zero(env, IfaceT(family, empty)) == Nil
  {}

  /// ## Maps, slices, scalars, pointers

  /** A map holds under each key, and a slice at each index, what the child binds to on a zero element. */
  lemma CollectionsHold(env: Env, n: Tree, elem: Schema, v: Val, path: string)
    requires WF(n)
    ensures n.Map? ==>
              var b := BindValue(env, n, MapT(true, elem), v, path).v;
              b.MapV? && b.entries == map k | k in n.children ::
                BindValue(env, n.children[k], elem, Zero(env, elem), JoinPath(path, k)).v
    ensures n.Seq? ==>
              var b := BindValue(env, n, SliceT(elem), v, path).v;
              b.SliceV? && |b.elems| == |n.items| && forall i | 0 <= i < |n.items| ::
                b.elems[i] == BindValue(env, n.items[i], elem, Zero(env, elem), ItemPath(path, i)).v
  {
    MapIsItsKeys(env, n, elem, v, path);
    SliceIsItsItems(env, n, elem, v, path);
    hide BindValue, BindKeys, BindItems;
    if n.Map? {
      assert forall i | 0 <= i < |n.keys| :: n.keys[i] in SetOf(n.keys);
      KeysHold(env, n, elem, |n.keys|, path);
      assert n.keys[..|n.keys|] == n.keys;
    }
    if n.Seq? {
      ItemsHold(env, n, elem, |n.items|, path);
    }
  }

  lemma MapIsItsKeys(env: Env, n: Tree, elem: Schema, v: Val, path: string)
    ensures n.Map? ==> BindValue(env, n, MapT(true, elem), v, path) == BindKeys(env, n, elem, |n.keys|, path)
  {
    hide BindKeys;
  }

  lemma SliceIsItsItems(env: Env, n: Tree, elem: Schema, v: Val, path: string)
    ensures n.Seq? ==> BindValue(env, n, SliceT(elem), v, path) == BindItems(env, n, elem, |n.items|, path)
  {
    hide BindItems;
  }

  lemma {:induction false} KeysHold(env: Env, n: Tree, elem: Schema, m: nat, path: string)
    requires n.Map? && m <= |n.keys| && forall i | 0 <= i < |n.keys| :: n.keys[i] in n.children
    ensures BindKeys(env, n, elem, m, path).v == MapV(map k | k in SetOf(n.keys[..m]) && k in n.children ::
              BindValue(env, n.children[k], elem, Zero(env, elem), JoinPath(path, k)).v)
  {
    NothingYet(env, n, elem, path);
    hide BindKeys, BindValue;
    if m > 0 {
      KeysHold(env, n, elem, m - 1, path);
      KeysStep(env, n, elem, m - 1, path);
      assert n.keys[..m] == n.keys[..m - 1] + [n.keys[m - 1]];
      assert SetOf(n.keys[..m]) == SetOf(n.keys[..m - 1]) + {n.keys[m - 1]};
    }
  }

  lemma {:induction false} ItemsHold(env: Env, n: Tree, elem: Schema, m: nat, path: string)
    requires n.Seq? && m <= |n.items|
    ensures var elems := BindItems(env, n, elem, m, path).v.elems;
            && |elems| == m
            && forall i | 0 <= i < m :: elems[i] == BindValue(env, n.items[i], elem, Zero(env, elem), ItemPath(path, i)).v
  {
    NothingYet(env, n, elem, path);
    hide BindItems, BindValue;
    if m > 0 {
      ItemsHold(env, n, elem, m - 1, path);
      ItemsStep(env, n, elem, m - 1, path);
    }
  }

  /** A scalar type takes a scalar that its coercion parses and its hook accepts, and holds what it parses to. The run
      says which of the three it was that failed; a value that its hook refuses is in its place by then. */
  lemma ScalarsHold(env: Env, o: Order, n: Tree, id: nat, v: Val, path: string, used: set<Sel>)
    ensures var b, r := BindValue(env, n, ScalarT(id), v, path), RunValue(env, o, n, ScalarT(id), v, path, used);
            var x := if n.Scalar? then env.coerce(id, n.value) else None;
            && (b.ok <==> x.Some? && env.scalarHook(id, x.value))
            && (b.ok ==> b.v == Leaf(x.value))
            && (r.err == Some(KindMismatch) <==> !n.Scalar?)
            && (r.err == Some(BadScalar) <==> n.Scalar? && x.None?)
            && (r.err == Some(Invalid) <==> x.Some? && !env.scalarHook(id, x.value))
            && (r.err.None? <==> b.ok) && r.v == (if x.Some? then Leaf(x.value) else v) && r.log == []
  {}

  /** A pointer stays where it leads, and a nil one is allocated: what it leads to is bound on what was there. */
  lemma PointersHold(env: Env, n: Tree, elem: Schema, v: Val, path: string)
    ensures var b := BindValue(env, n, PtrT(elem), v, path);
            var inner := BindValue(env, n, elem, if v.Own? || v.New? then v.to else Zero(env, elem), path);
            && b.ok == inner.ok
            && b.v == (if v.Own? then Own(v.addr, inner.v) else New(inner.v))
            && b.walks == (if v.Own? then {v.addr} else {}) + inner.walks
  {
    hide BindStruct, BindKeys, BindItems, BindVariant;
  }

  /// ## What does not bind

  /** The kind of tree that a type is bound from, where only one will do. */
  function KindFor(t: Schema): Option<Kind> {
    match t
    case ScalarT(_) => Some(ScalarKind)
    case StructT(_, _) => Some(MapKind)
    case MapT(stringKeys, _) => if stringKeys then Some(MapKind) else None
    case SliceT(_) => Some(SeqKind)
    case _ => None
  }

  /** A tree of another kind is refused, and nothing changes. */
  lemma WrongKindRefused(env: Env, o: Order, n: Tree, t: Schema, v: Val, path: string, used: set<Sel>)
    requires KindFor(t).Some? && KindOf(n) != KindFor(t).value
    ensures RunValue(env, o, n, t, v, path, used) == Ran(Some(KindMismatch), v, [])
  {}

  /** A struct with a key that is no field is refused, and so is one of which no key is there and some are required;
      without either it is for its hook to say. */
  lemma StructRefused(env: Env, o: Order, n: Tree, cs: map<string, Tree>, t: Schema, v: Val, path: string, used: set<Sel>)
    requires GoodStruct(t) && forall k | k in cs :: cs[k] < n
    ensures !(cs.Keys <= AllKeys(t)) ==> RunStruct(env, o, n, cs, t, v, path, used) == Ran(Some(UnknownField), v, [])
    ensures cs == map[] ==>
              var w := Struct(FieldVals(env, v, t));
              RunStruct(env, o, n, cs, t, v, path, used)
                == Ran(if exists info :: info in AllInfos(t).value && info.required then Some(MissingRequired)
                       else if env.hook(t.name, w) then None else Some(Invalid), w, [])
  {
    hide RunField, AllInfos, AllKeys;
    if cs == map[] {
      NothingThere(env, o, n, t, FieldVals(env, v, t), AllKeys(t), path, used);
      if info :| info in AllInfos(t).value && info.required {
        OneOfAllKeys(t, info);
      }
    }
  }

  lemma OneOfAllKeys(t: Schema, info: FieldInfo)
    requires GoodStruct(t) && info in AllInfos(t).value
    ensures info.key in AllKeys(t) && FieldAtKey(t, info.key) == info
  {
    KeysAreFields(t);
    var i :| 0 <= i < |AllInfos(t).value| && AllInfos(t).value[i] == info;
    Fields.IndexFinds(AllInfos(t).value, i);
    OneOfKey(t, FieldAtKey(t, info.key), info);
  }

  lemma {:induction false} NothingThere(env: Env, o: Order, n: Tree, t: Schema, vals: seq<Val>, todo: set<string>, path: string,
                                        used: set<Sel>)
    requires GoodStruct(t) && |vals| == |t.fields| && todo <= AllKeys(t)
    ensures RunFields(env, o, n, map[], t, vals, todo, path, used)
         == RanFields(if exists k :: k in todo && FieldAtKey(t, k).required then Some(MissingRequired) else None, vals, [])
    decreases |todo|
  {
    hide RunField, AllInfos, AllKeys, FieldAtKey;
    if todo != {} {
      var k := o.pick(todo);
      if !FieldAtKey(t, k).required {
        NothingThere(env, o, n, t, vals, todo - {k}, path, used);
      }
    }
  }

  /// ## Selectors and variants

  /** The selectors of an instance: what each selector field prints as; where no such field takes its place, the naming
      key of the place under `name`; where neither does, the name of the variant under the discriminator; and no more. */
  lemma SelectorsAre(env: Env, disc: string, name: string, t: Schema, v: Val, path: string)
    requires GoodStruct(t)
    ensures var s, own, naming := Selectors(env, disc, name, t, v, path), SelectorKeys(AllInfos(t).value), NamingKey(path);
            && (forall info | info in AllInfos(t).value && info.selector ::
                  info.key in s && s[info.key] == env.sprint(GetAt(env, t, FieldVals(env, v, t), info.index)))
            && (naming.Some? && "name" !in own ==> "name" in s && s["name"] == naming.value)
            && (disc !in own && !(naming.Some? && disc == "name") ==> disc in s && s[disc] == name)
            && s.Keys == own + {disc} + (if naming.Some? then {"name"} else {})
  {
    var infos, vals := AllInfos(t).value, FieldVals(env, v, t);
    SelectorFieldsKeys(env, t, vals, infos);
    forall info | info in infos && info.selector
      ensures info.key in SelectorFields(env, t, vals, infos)
      ensures SelectorFields(env, t, vals, infos)[info.key] == env.sprint(GetAt(env, t, vals, info.index))
    {
      var j :| 0 <= j < |infos| && infos[j] == info;
      SelectorFieldIs(env, t, vals, infos, j);
    }
    hide NamingKey, AllInfos, SelectorFields, GetAt;
  }

  lemma {:induction false} SelectorFieldIs(env: Env, t: Schema, vals: seq<Val>, infos: seq<FieldInfo>, j: nat)
    requires t.StructT? && |vals| == |t.fields| && NoDup(KeysOf(infos)) && j < |infos| && infos[j].selector
    ensures var m := SelectorFields(env, t, vals, infos);
            infos[j].key in m && m[infos[j].key] == env.sprint(GetAt(env, t, vals, infos[j].index))
  {
    hide GetAt;
    if j < |infos| - 1 {
      var init := infos[..|infos| - 1];
      assert forall i | 0 <= i < |init| :: KeysOf(init)[i] == KeysOf(infos)[i];
      assert KeysOf(infos)[j] != KeysOf(infos)[|infos| - 1];
      SelectorFieldIs(env, t, vals, init, j);
    }
  }

  /** A value of a family's type binds only from a tree that names a variant: from any other the run has one error, in
      every order and whatever is registered, and changes nothing. */
  lemma OnlyNamedVariantsBind(env: Env, o: Order, n: Tree, family: nat, empty: bool, v: Val, path: string, used: set<Sel>)
    requires family in env.families && forall name :: !Names(env.families[family], n, name)
    ensures RunValue(env, o, n, IfaceT(family, empty), v, path, used) == Ran(Some(BadVariant), v, [])
    ensures !BindValue(env, n, IfaceT(family, empty), v, path).ok
  {
    var fam := env.families[family];
    if n.Map? && fam.disc in n.children && n.children[fam.disc].Scalar? {
      assert !Names(fam, n, n.children[fam.disc].value);
    }
  }

  /** From a tree that names a variant, its struct is bound from the other keys on what the factory makes; if that goes
      well and the instance is registered, the value is a new pointer to it, and is what is registered last. */
  lemma NamedVariantBinds(env: Env, o: Order, n: Tree, family: nat, empty: bool, v: Val, path: string, used: set<Sel>,
                          name: string)
    requires family in env.families && Names(env.families[family], n, name)
    ensures var fam := env.families[family];
            var variant := fam.variants[name];
            var r := RunStruct(env, o, n, n.children - {fam.disc}, variant.typ, variant.make, path, used);
            var whole := RunValue(env, o, n, IfaceT(family, empty), v, path, used);
            && (r.err.Some? ==> whole == Ran(r.err, v, r.log))
            && (r.err.None? ==> whole.v == New(r.v) && r.log <= whole.log)
            && (whole.err.None? ==>
                  && r.err.None?
                  && var s := Selectors(env, fam.disc, name, variant.typ, r.v, path);
                     whole.log == r.log + [Reg(family, Instance(s, New(r.v)))])
  {
    hide RunStruct, Selectors, Taken;
    assert VariantOf(env.families[family], n) == Some((name, env.families[family].variants[name]));
  }
}
