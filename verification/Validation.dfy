/** Which values are validated: exactly what has to be well for a value to bind, type by type. */
module Validation {
  import opened Text
  import opened Trees
  import opened Schema
  import opened Binding
  import opened BindingLaws
  import opened Agreement

  /** A map or a slice binds exactly if its parts do: there is no hook of its own to refuse it, although the
      documentation has every bound value validated. */
  lemma CollectionsAreNotValidated(env: Env, n: Tree, elem: Schema, v: Val, path: string)
    requires WF(n)
    ensures BindValue(env, n, MapT(true, elem), v, path).ok <==>
            n.Map? && forall i | 0 <= i < |n.keys| ::
                        n.keys[i] in n.children
                        && BindValue(env, n.children[n.keys[i]], elem, Zero(env, elem), JoinPath(path, n.keys[i])).ok
    ensures BindValue(env, n, SliceT(elem), v, path).ok <==>
            n.Seq? && forall i | 0 <= i < |n.items| :: BindValue(env, n.items[i], elem, Zero(env, elem), ItemPath(path, i)).ok
  {
    hide BindValue, BindKeys, BindItems;
    if n.Map? {
      assert forall i | 0 <= i < |n.keys| :: n.keys[i] in SetOf(n.keys);
      KeysOk(env, n, elem, |n.keys|, path);
    }
    MapIsKeys(env, n, elem, v, path);
    if n.Seq? {
      ItemsOk(env, n, elem, |n.items|, path);
    }
    SliceIsItems(env, n, elem, v, path);
  }

  lemma MapIsKeys(env: Env, n: Tree, elem: Schema, v: Val, path: string)
    ensures BindValue(env, n, MapT(true, elem), v, path).ok <==> n.Map? && BindKeys(env, n, elem, |n.keys|, path).ok
  {
    hide BindKeys;
  }

  lemma SliceIsItems(env: Env, n: Tree, elem: Schema, v: Val, path: string)
    ensures BindValue(env, n, SliceT(elem), v, path).ok <==> n.Seq? && BindItems(env, n, elem, |n.items|, path).ok
  {
    hide BindItems;
  }

  lemma {:induction false} KeysOk(env: Env, n: Tree, elem: Schema, m: nat, path: string)
    requires n.Map? && m <= |n.keys| && forall i | 0 <= i < |n.keys| :: n.keys[i] in n.children
    ensures BindKeys(env, n, elem, m, path).ok <==>
            forall i | 0 <= i < m :: BindValue(env, n.children[n.keys[i]], elem, Zero(env, elem), JoinPath(path, n.keys[i])).ok
  {
    NothingYet(env, n, elem, path);
    hide BindKeys, BindValue;
    if m > 0 {
      KeysOk(env, n, elem, m - 1, path);
      KeysStep(env, n, elem, m - 1, path);
    }
  }

  lemma {:induction false} ItemsOk(env: Env, n: Tree, elem: Schema, m: nat, path: string)
    requires n.Seq? && m <= |n.items|
    ensures BindItems(env, n, elem, m, path).ok <==>
            forall i | 0 <= i < m :: BindValue(env, n.items[i], elem, Zero(env, elem), ItemPath(path, i)).ok
  {
    NothingYet(env, n, elem, path);
    hide BindItems, BindValue;
    if m > 0 {
      ItemsOk(env, n, elem, m - 1, path);
      ItemsStep(env, n, elem, m - 1, path);
    }
  }

  /** The tree names this variant of the family: it is a map, and its discriminator is a literal, of no token, that is
      registered for a struct type. */
  ghost predicate Names(fam: Family, n: Tree, name: string) {
    && n.Map? && fam.disc in n.children
    && n.children[fam.disc].Scalar? && !n.children[fam.disc].substituted && n.children[fam.disc].value == name
    && name in fam.variants && fam.variants[name].typ.StructT?
  }

  /** An interface has no hook of its own either. One of a family binds exactly if the tree names a variant and
      the variant's struct binds, from the other keys, to what the factory makes; one without methods binds to anything. */
  lemma InterfacesAreNotValidated(env: Env, n: Tree, family: nat, empty: bool, v: Val, path: string)
    ensures var b := BindValue(env, n, IfaceT(family, empty), v, path);
            if family in env.families then
              var fam := env.families[family];
              b.ok <==> exists name :: Names(fam, n, name) && var variant := fam.variants[name];
                                       BindStruct(env, n, n.children - {fam.disc}, variant.typ, variant.make, path).ok
            else (b.ok <==> empty) && (empty ==> b.v == Untyped(n))
  {
    hide BindStruct, Selectors, Selectable;
    if family in env.families && VariantOf(env.families[family], n).Some? {
      var fam := env.families[family];
      var (name, variant) := VariantOf(fam, n).value;
      assert Names(fam, n, name);
      GoodIfOk(env, n, n.children - {fam.disc}, variant.typ, variant.make, path);
    }
  }

  lemma GoodIfOk(env: Env, n: Tree, cs: map<string, Tree>, t: Schema, v: Val, path: string)
    requires t.StructT? && forall k | k in cs :: cs[k] < n
    ensures BindStruct(env, n, cs, t, v, path).ok ==> GoodStruct(t)
  {}

  /** The field is not there, or binds in its place. */
  ghost predicate FieldBinds(env: Env, n: Tree, cs: map<string, Tree>, t: Schema, vals: seq<Val>, info: FieldInfo, path: string)
    requires t.StructT? && |vals| == |t.fields|
  {
    info.key in cs ==> BindValue(env, cs[info.key], info.typ, GetAt(env, t, vals, info.index), JoinPath(path, info.key)).ok
  }

  /** A struct binds exactly if its keys fit, each field that is there binds in its place, however deep it is
      inlined, and the hook of the struct itself accepts the whole. So a struct that is inlined is not validated:
      its fields are, and the struct it is in. */
  lemma InlinedStructsAreNotValidated(env: Env, n: Tree, cs: map<string, Tree>, t: Schema, v: Val, path: string)
    requires t.StructT? && forall k | k in cs :: cs[k] < n
    ensures var b := BindStruct(env, n, cs, t, v, path);
            b.ok <==>
              && GoodStruct(t) && KeysFit(t, cs)
              && (forall info | info in AllInfos(t).value :: FieldBinds(env, n, cs, t, FieldVals(env, v, t), info, path))
              && env.hook(t.name, b.v)
  {
    if GoodStruct(t) && KeysFit(t, cs) {
      var vals := FieldVals(env, v, t);
      FieldsBindIff(env, n, cs, t, vals, path, cs.Keys);
      AfterAll(env, n, cs, t, vals, path, cs.Keys);
      hide BindFields, KeysFit, GoodStruct, AllInfos, After, FieldBinds;
      assert forall info | info in AllInfos(t).value && info.key !in cs :: FieldBinds(env, n, cs, t, vals, info, path) by {
        NotThere(env, n, cs, t, vals, path);
      }
    }
  }

  lemma NotThere(env: Env, n: Tree, cs: map<string, Tree>, t: Schema, vals: seq<Val>, path: string)
    requires GoodStruct(t) && |vals| == |t.fields|
    ensures forall info | info in AllInfos(t).value && info.key !in cs :: FieldBinds(env, n, cs, t, vals, info, path)
  {
    hide BindValue, GetAt;
  }

  /** The fields bound so far. */
  lemma {:induction false} FieldsBindIff(env: Env, n: Tree, cs: map<string, Tree>, t: Schema, vals: seq<Val>, path: string,
                                         done: set<string>)
    requires GoodStruct(t) && |vals| == |t.fields| && forall k | k in cs :: cs[k] < n
    requires done <= cs.Keys <= AllKeys(t)
    ensures After(env, n, cs, t, vals, path, done).ok <==>
            forall info | info in AllInfos(t).value && info.key in done :: FieldBinds(env, n, cs, t, vals, info, path)
    decreases |done|
  {
    hide After, BindValue, GetAt, AllKeys, SetAt, ChainWalks, Leads;
    if done == {} {
      AfterNone(env, n, cs, t, vals, path);
    } else {
      var k :| k in done;
      var info := FieldOfKey(t, k);
      FieldsBindIff(env, n, cs, t, vals, path, done - {k});
      AfterOneMore(env, n, cs, t, vals, path, done - {k}, info);
      assert done - {k} + {k} == done;
      forall other | other in AllInfos(t).value && other.key == k ensures other == info {
        OneOfKey(t, other, info);
      }
    }
  }

  lemma OneOfKey(t: Schema, a: FieldInfo, b: FieldInfo)
    requires GoodStruct(t) && a in AllInfos(t).value && b in AllInfos(t).value && a.key == b.key
    ensures a == b
  {
    var infos := AllInfos(t).value;
    var i :| 0 <= i < |infos| && infos[i] == a;
    var j :| 0 <= j < |infos| && infos[j] == b;
    assert KeysOf(infos)[i] == KeysOf(infos)[j];
  }
}
