/** A discriminator is never the value of a token: no resolver can choose a variant, at any place of a document and in
    any of the files it is put together from. */
module Discriminators {
  import opened Text
  import opened Trees
  import opened Merge
  import opened Schema
  import opened Binding
  import opened BindingLaws
  import opened Running
  import opened Agreement
  import opened Walks
  import opened Memory
  import opened Validation
  import opened Contents
  import opened Places
  import opened Binder
  import opened Loader
  import opened Layering
  import Scanner
  import R = Resolve

  /// ## Places in a document

  /** The type that the tree at a place is bound with, if it is bound at all. */
  ghost function TypeAt(env: Env, n: Tree, t: Schema, steps: seq<Step>): Option<Schema>
    decreases n, t
  {
    if t.PtrT? then TypeAt(env, n, t.elem, steps)
    else if steps == [] then Some(t)
    else if n.Map? && steps[0].InKey? && steps[0].key in n.children then
      var key := steps[0].key;
      match ChildType(env, n, t, key)
      case None => None
      case Some(s) => TypeAt(env, n.children[key], s, steps[1..])
    else if n.Seq? && steps[0].InItem? && steps[0].index < |n.items| && t.SliceT? then
      TypeAt(env, n.items[steps[0].index], t.elem, steps[1..])
    else None
  }

  /** The same for a key of a map. A variant's struct takes every key but the discriminator. */
  ghost function ChildType(env: Env, n: Tree, t: Schema, key: string): Option<Schema> {
    match t
    case StructT(_, _) => FieldType(t, key)
    case MapT(_, elem) => Some(elem)
    case IfaceT(family, _) =>
      if family in env.families && key != env.families[family].disc
         && exists name :: Names(env.families[family], n, name)
      then
        var name :| Names(env.families[family], n, name);
        FieldType(env.families[family].variants[name].typ, key)
      else None
    case _ => None
  }

  ghost function FieldType(t: Schema, key: string): Option<Schema> {
    if GoodStruct(t) && key in Binding.AllKeys(t) then Some(FieldAtKey(t, key).typ) else None
  }

  /// ## Whatever is bound binds

  lemma FieldBound(env: Env, n: Tree, cs: map<string, Tree>, t: Schema, v: Val, path: string, key: string) returns (w: Val)
    requires t.StructT? && (forall k | k in cs :: cs[k] < n) && BindStruct(env, n, cs, t, v, path).ok
    requires key in cs && FieldType(t, key).Some?
    ensures BindValue(env, cs[key], FieldType(t, key).value, w, JoinPath(path, key)).ok
  {
    hide BindStruct, BindValue, GetAt, AllInfos, KeysFit;
    InlinedStructsAreNotValidated(env, n, cs, t, v, path);
    var info := FieldAtKey(t, key);
    assert FieldBinds(env, n, cs, t, FieldVals(env, v, t), info, path);
    w := GetAt(env, t, FieldVals(env, v, t), info.index);
  }

  lemma ChildBound(env: Env, n: Tree, t: Schema, v: Val, path: string, key: string) returns (w: Val)
    requires WF(n) && n.Map? && BindValue(env, n, t, v, path).ok && key in n.children && ChildType(env, n, t, key).Some?
    ensures BindValue(env, n.children[key], ChildType(env, n, t, key).value, w, JoinPath(path, key)).ok
  {
    match t
    case StructT(_, _) =>
      StructOk(env, n, t, v, path);
      w := FieldBound(env, n, n.children, t, v, path, key);
    case MapT(stringKeys, elem) =>
      w := Zero(env, elem);
      MapOk(env, n, stringKeys, elem, v, path);
      CollectionsAreNotValidated(env, n, elem, v, path);
      assert key in SetOf(n.keys);
      var i :| 0 <= i < |n.keys| && n.keys[i] == key;
      hide BindValue;
    case IfaceT(family, empty) =>
      var fam := env.families[family];
      var name :| Names(fam, n, name) && ChildType(env, n, t, key) == FieldType(fam.variants[name].typ, key);
      InterfacesAreNotValidated(env, n, family, empty, v, path);
      hide BindValue, BindStruct;
      w := FieldBound(env, n, n.children - {fam.disc}, fam.variants[name].typ, fam.variants[name].make, path, key);
  }

  lemma StructOk(env: Env, n: Tree, t: Schema, v: Val, path: string)
    requires t.StructT? && BindValue(env, n, t, v, path).ok
    ensures n.Map? && BindStruct(env, n, n.children, t, v, path).ok
  {
    hide BindStruct;
  }

  lemma MapOk(env: Env, n: Tree, stringKeys: bool, elem: Schema, v: Val, path: string)
    requires BindValue(env, n, MapT(stringKeys, elem), v, path).ok
    ensures stringKeys
  {
    hide BindKeys;
  }

  /** If the whole binds, so does what is at any place, with the type of that place. */
  lemma {:induction false} PartsBind(env: Env, n: Tree, t: Schema, v: Val, path: string, steps: seq<Step>)
    returns (w: Val, at: string)
    requires WF(n) && BindValue(env, n, t, v, path).ok
    requires TreeAt(n, steps).Some? && TypeAt(env, n, t, steps).Some?
    ensures BindValue(env, TreeAt(n, steps).value, TypeAt(env, n, t, steps).value, w, at).ok
    decreases n, t
  {
    hide BindStruct, BindKeys, BindItems, BindVariant, ChildType;
    if t.PtrT? {
      w, at := PartsBind(env, n, t.elem, Pointee(env, v, t.elem), path, steps);
    } else if steps == [] {
      w, at := v, path;
    } else if n.Map? {
      var key := steps[0].key;
      w := ChildBound(env, n, t, v, path, key);
      w, at := PartsBind(env, n.children[key], ChildType(env, n, t, key).value, w, JoinPath(path, key), steps[1..]);
    } else {
      var i := steps[0].index;
      CollectionsAreNotValidated(env, n, t.elem, v, path);
      w, at := PartsBind(env, n.items[i], t.elem, Zero(env, t.elem), ItemPath(path, i), steps[1..]);
    }
  }

  /** So if a place of a family's type has a tree that names no variant, the bind fails, whatever the order of visits and
      whatever is registered. */
  lemma UnnamedVariantFails(env: Env, o: Order, n: Tree, t: Schema, v: Val, path: string, used: set<Sel>, steps: seq<Step>,
                            family: nat, empty: bool)
    requires WF(n) && family in env.families && TypeAt(env, n, t, steps) == Some(IfaceT(family, empty))
    requires TreeAt(n, steps).Some? && forall name :: !Names(env.families[family], TreeAt(n, steps).value, name)
    requires FreshVariants(env)
    ensures RunValue(env, o, n, t, v, path, used).err.Some?
  {
    ValueRuns(env, o, n, t, v, path, used);
    hide BindValue, RunValue, Names, TypeAt, TreeAt, FreshVariants;
    if BindValue(env, n, t, v, path).ok {
      var w, at := PartsBind(env, n, t, v, path, steps);
      OnlyNamedVariantsBind(env, o, TreeAt(n, steps).value, family, empty, w, at, used);
    }
  }

  /// ## Tokens

  /** Some token is in the scalar's text. */
  ghost predicate HoldsToken(s: Tree) {
    s.Scalar? && Scanner.Scan(s.value).Some? && Scanner.HasTokens(Scanner.Scan(s.value).value)
  }

  lemma TokenSubstitutes(r: R.Resolver, s: Tree)
    requires HoldsToken(s) && R.ScalarFailure(r, s).None?
    ensures R.ScalarResult(r, s).substituted
  {
    var segs := Scanner.Scan(s.value).value;
    Scanner.PrintScan(s.value);
    R.FlagsOfText(r, s, segs);
  }

  /** No resolver chooses a variant. Where the last directory that says anything about a place has a discriminator with
      a token in it, in a map or below a list, the load fails, whatever the token resolves to, the order of visits and
      what is registered. */
  lemma TokenNamesNoVariant(env: Env, src: Source, name: string, t: Schema, d: nat, path: seq<string>, rest: seq<Step>,
                            place: seq<Step>, family: nat, empty: bool, o: Order, was: Scene)
    requires t.StructT? && Prepared(src, name, t).Ok? && FreshVariants(env) && family in env.families
    requires d < |src.dirs| && Speaks(src, name, d, path) && !MapAt(LayerAt(src, name, d).value.value, path)
    requires forall c | d < c < |src.dirs| :: !Speaks(src, name, c, path)
    requires var x := At(LayerAt(src, name, d).value.value, path);
             x.Some? && TreeAt(x.value, rest).Some? && HoldsToken(TreeAt(x.value, rest).value)
    requires Keys(path) + rest == place + [InKey(env.families[family].disc)]
    requires TypeAt(env, Prepared(src, name, t).value, t, place) == Some(IfaceT(family, empty))
    ensures Prepared(src, name, t).value.Map? && Attempt(env, o, Prepared(src, name, t).value, t, was).err.Some?
  {
    var n, disc := Prepared(src, name, t).value, env.families[family].disc;
    var x := At(LayerAt(src, name, d).value.value, path).value;
    PreparedIsShaped(src, name, t);
    LastDirectoryDecides(src, name, t, path, d);
    DecidedResolves(src, name, t, path, d);
    hide Prepared, WF, WellShaped, Speaks, MapAt, LayerAt, TypeAt, FreshVariants, RunValue, RunStruct, R.ScalarResult;
    AllScalarsBelow(x, rest, s => R.Resolves(src.resolver, s));
    TreeAtKeys(n, path, rest);
    ResolvedTreeAt(src.resolver, x, rest);
    TreeAtLast(n, place, disc);
    TokenSubstitutes(src.resolver, TreeAt(x, rest).value);
    assert TreeAt(n, place).value.children[disc].substituted;
    UnnamedVariantFails(env, o, n, t, was.view, "", StartSels(was.registered), place, family, empty);
    ValueIsStruct(env, o, n, t, was.view, "", StartSels(was.registered));
  }
}
