/** When a bind is left by a panic: a selector field of a variant behind an inlined pointer that is still nil. */
module Panics {
  import opened Text
  import opened Trees
  import opened Schema
  import opened Binding
  import opened BindingLaws
  import opened Running
  import opened Walks
  import opened Agreement
  import opened Events
  import opened Orders
  import opened UserCode
  import opened Traces
  import opened Pruning

  /** Every inlined pointer on the way to a place is set, or one of the keys it inlines is among these. */
  predicate Reached(env: Env, t: Schema, vals: seq<Val>, index: seq<nat>, keys: set<string>)
    requires t.StructT? && |vals| == |t.fields|
    decreases |index|
  {
    |index| <= 1 || index[0] >= |vals| || Inlined(t.fields[index[0]]).None? ||
    var f, v := t.fields[index[0]], vals[index[0]];
    && (f.typ.PtrT? && !IsPointer(v) ==> !(OwnKeys(t, index[0]) !! keys))
    && Reached(env, Inlined(f).value, InnerVals(env, f, v), index[1..], keys)
  }

  lemma {:induction false} FieldAt(env: Env, n: Tree, cs: map<string, Tree>, t: Schema, vals: seq<Val>, m: nat,
                                   path: string, i: nat)
    requires t.StructT? && |vals| == |t.fields| && i < m <= |vals| && forall x | x in cs :: cs[x] < n
    ensures BindFields(env, n, cs, t, vals, m, path).vals[i] == BindField(env, n, cs, t, i, vals[i], path).v
  {
    hide BindFields, BindField;
    FieldsStep(env, n, cs, t, vals, m, path);
    if i < m - 1 {
      FieldAt(env, n, cs, t, vals, m - 1, path, i);
    }
  }

  /** A place can be read after the bind exactly if it was reached. */
  lemma {:induction false} ReadableAfterIff(env: Env, n: Tree, cs: map<string, Tree>, t: Schema, vals: seq<Val>, path: string,
                                            index: seq<nat>, key: string, typ: Schema)
    requires t.StructT? && |vals| == |t.fields| && Leads(t, index, key, typ) && forall x | x in cs :: cs[x] < n
    ensures Readable(env, t, BindFields(env, n, cs, t, vals, |vals|, path).vals, index) <==> Reached(env, t, vals, index, cs.Keys)
    decreases |index|
  {
    hide BindFields, BindField;
    if |index| > 1 {
      var i := index[0];
      var f, v := t.fields[i], vals[i];
      var st, inner := Inlined(f).value, InnerVals(env, f, v);
      FieldAt(env, n, cs, t, vals, |vals|, path, i);
      ReadableAfterIff(env, n, cs, st, inner, path, index[1..], key, typ);
      if OwnKeys(t, i) !! cs.Keys {
        NoKeys(env, n, cs, st, inner, |inner|, path);
        FieldUntouched(env, n, cs, t, i, v, path);
      } else {
        FieldEntered(env, n, cs, t, i, v, path);
        Rewrapped(env, f, v, BindFields(env, n, cs, st, inner, |inner|, path).vals);
      }
    }
  }

  /** What the selectors of a variant need, said of the keys of the file and the factory's value. */
  ghost predicate SelectorsReached(env: Env, t: Schema, v: Val, keys: set<string>)
    requires GoodStruct(t)
  {
    forall i | 0 <= i < |AllInfos(t).value| && AllInfos(t).value[i].selector ::
      Reached(env, t, FieldVals(env, v, t), AllInfos(t).value[i].index, keys)
  }

  /** The selectors can be derived exactly then. */
  lemma SelectableIff(env: Env, n: Tree, cs: map<string, Tree>, t: Schema, v: Val, path: string)
    requires GoodStruct(t) && forall x | x in cs :: cs[x] < n
    ensures Selectable(env, t, BindStruct(env, n, cs, t, v, path).v) <==> SelectorsReached(env, t, v, cs.Keys)
  {
    var vals, infos := FieldVals(env, v, t), AllInfos(t).value;
    forall i | 0 <= i < |infos|
      ensures Readable(env, t, BindFields(env, n, cs, t, vals, |vals|, path).vals, infos[i].index)
              <==> Reached(env, t, vals, infos[i].index, cs.Keys)
    {
      InfosLead(t, |t.fields|, [], i);
      assert infos[i].index[0..] == infos[i].index;
      ReadableAfterIff(env, n, cs, t, vals, path, infos[i].index, infos[i].key, infos[i].typ);
    }
    hide Readable, Reached, BindFields, AllInfos;
  }

  /** A variant that a map names panics exactly if its fields do, or they bind and a selector is not reached. */
  lemma VariantPanicsIff(env: Env, o: Order, n: Tree, family: nat, v: Val, path: string, used: set<Sel>)
    requires family in env.families && FreshVariants(env) && VariantOf(env.families[family], n).Some?
    requires GoodStruct(VariantOf(env.families[family], n).value.1.typ)
    ensures var fam := env.families[family];
            var variant, cs := VariantOf(fam, n).value.1, n.children - {fam.disc};
            var r := RunStruct(env, o, n, cs, variant.typ, variant.make, path, used);
            RunVariant(env, o, n, family, v, path, used).err == Some(Panicked)
            <==> r.err == Some(Panicked) || (r.err.None? && !SelectorsReached(env, variant.typ, variant.make, cs.Keys))
  {
    hide RunStruct, BindStruct, GoodStruct, Selectable, SelectorsReached, Selectors, FreshVariants, Taken, Agrees;
    var fam := env.families[family];
    var variant, cs := VariantOf(fam, n).value.1, n.children - {fam.disc};
    SelectableIff(env, n, cs, variant.typ, variant.make, path);
    RunsAsBound(env, o, n, cs, variant.typ, variant.make, path, used);
  }

  lemma RunsAsBound(env: Env, o: Order, n: Tree, cs: map<string, Tree>, t: Schema, v: Val, path: string, used: set<Sel>)
    requires t.StructT? && FreshVariants(env) && forall k | k in cs :: cs[k] < n
    ensures RunStruct(env, o, n, cs, t, v, path, used).err.None? ==>
              BindStruct(env, n, cs, t, v, path).ok
              && RunStruct(env, o, n, cs, t, v, path, used).v == BindStruct(env, n, cs, t, v, path).v
  {
    hide RunStruct, BindStruct, FreshVariants;
    StructRuns(env, o, n, cs, t, v, path, used);
  }

  /// ## Which variants can panic

  lemma {:induction false} ReachedMore(env: Env, t: Schema, vals: seq<Val>, index: seq<nat>, keys: set<string>, more: set<string>)
    requires t.StructT? && |vals| == |t.fields| && keys <= more && Reached(env, t, vals, index, keys)
    ensures Reached(env, t, vals, index, more)
    decreases |index|
  {
    if |index| > 1 && index[0] < |vals| && Inlined(t.fields[index[0]]).Some? {
      var f, v := t.fields[index[0]], vals[index[0]];
      ReachedMore(env, Inlined(f).value, InnerVals(env, f, v), index[1..], keys, more);
    }
  }

  lemma {:induction false} ReachedSame(env: Env, code: Code, t: Schema, vals: seq<Val>, index: seq<nat>, keys: set<string>)
    requires t.StructT? && |vals| == |t.fields|
    ensures Reached(With(env, code), t, vals, index, keys) == Reached(env, t, vals, index, keys)
    decreases |index|
  {
    if |index| > 1 && index[0] < |vals| && Inlined(t.fields[index[0]]).Some? {
      var f, v := t.fields[index[0]], vals[index[0]];
      InnerValsSame(env, code, f, v);
      ReachedSame(env, code, Inlined(f).value, InnerVals(env, f, v), index[1..], keys);
    }
  }

  lemma SelectorsReachedMore(env: Env, t: Schema, v: Val, keys: set<string>, more: set<string>)
    requires GoodStruct(t) && keys <= more && SelectorsReached(env, t, v, keys)
    ensures SelectorsReached(env, t, v, more)
  {
    hide Reached;
    forall i | 0 <= i < |AllInfos(t).value| && AllInfos(t).value[i].selector
      ensures Reached(env, t, FieldVals(env, v, t), AllInfos(t).value[i].index, more)
    {
      ReachedMore(env, t, FieldVals(env, v, t), AllInfos(t).value[i].index, keys, more);
    }
  }

  lemma SelectorsReachedSame(env: Env, code: Code, t: Schema, v: Val, keys: set<string>)
    requires GoodStruct(t)
    ensures SelectorsReached(With(env, code), t, v, keys) == SelectorsReached(env, t, v, keys)
  {
    hide Reached;
    FieldValsSame(env, code, v, t);
    forall i | 0 <= i < |AllInfos(t).value|
      ensures Reached(With(env, code), t, FieldVals(env, v, t), AllInfos(t).value[i].index, keys)
              == Reached(env, t, FieldVals(env, v, t), AllInfos(t).value[i].index, keys)
    {
      ReachedSame(env, code, t, FieldVals(env, v, t), AllInfos(t).value[i].index, keys);
    }
  }

  /** The required keys alone reach every selector that the factory's value leaves out of reach. */
  ghost predicate Safe(env: Env, variant: Variant) {
    GoodStruct(variant.typ) ==> SelectorsReached(env, variant.typ, variant.make, RequiredKeys(variant.typ))
  }

  ghost predicate SafeVariants(env: Env) {
    forall f, name | f in env.families && name in env.families[f].variants :: Safe(env, env.families[f].variants[name])
  }

  /** Some tree names this variant and binds to its struct. */
  ghost predicate Filled(env: Env, family: nat, name: string)
    requires family in env.families
  {
    exists code, o, n, path | WF(n) && VariantOf(env.families[family], n).Some?
                              && VariantOf(env.families[family], n).value.0 == name ::
      MadeAndBound(With(env, code), o, n, family, path, {}).err.None?
  }

  ghost predicate CanPanic(env: Env, family: nat, name: string) {
    && family in env.families && name in env.families[family].variants
    && !Safe(env, env.families[family].variants[name]) && Filled(env, family, name)
  }

  /// ## Where a type leads

  lemma {:induction false} InfosBelow(t: Schema, m: nat, prefix: seq<nat>)
    requires t.StructT? && m <= |t.fields| && Infos(t, m, prefix).Some?
    ensures forall info | info in Infos(t, m, prefix).value :: info.typ < t
    decreases t, m
  {
    if m > 0 {
      InfosBelow(t, m - 1, prefix);
      var f := t.fields[m - 1];
      assert f < t;
      if f.tag.Inline? {
        InfosBelow(Inlined(f).value, |Inlined(f).value.fields|, prefix + [m - 1]);
      }
    }
  }

  /** Binding to this type can come to bind to the family, through at most so many variants. */
  ghost predicate LeadsTo(env: Env, t: Schema, family: nat, depth: nat)
    decreases depth, t, 1
  {
    match t
    case PtrT(elem) => LeadsTo(env, elem, family, depth)
    case IfaceT(f, _) =>
      && f in env.families
      && (f == family ||
          (depth > 0 && exists name | name in env.families[f].variants ::
             StructLeadsTo(env, env.families[f].variants[name].typ, {env.families[f].disc}, family, depth - 1)))
    case StructT(_, _) => StructLeadsTo(env, t, {}, family, depth)
    case MapT(stringKeys, elem) => stringKeys && LeadsTo(env, elem, family, depth)
    case SliceT(elem) => LeadsTo(env, elem, family, depth)
    case _ => false
  }

  /** The same through a field of a struct whose key is not among the hidden ones. */
  ghost predicate StructLeadsTo(env: Env, t: Schema, hidden: set<string>, family: nat, depth: nat)
    decreases depth, t, 0
  {
    && GoodStruct(t)
    && exists info | info in AllInfos(t).value && info.key !in hidden ::
         (InfosBelow(t, |t.fields|, []); LeadsTo(env, info.typ, family, depth))
  }

  /// ## Every panic comes from such a variant

  lemma {:induction false} ValuePanics(env: Env, code: Code, o: Order, n: Tree, t: Schema, v: Val, path: string, used: set<Sel>)
    returns (f: nat, name: string, depth: nat)
    requires FreshVariants(env) && WF(n) && RunValue(With(env, code), o, n, t, v, path, used).err == Some(Panicked)
    ensures LeadsTo(env, t, f, depth) && CanPanic(env, f, name)
    decreases n, 4, t
  {
    hide RunStruct, RunKeys, RunItems, RunVariant, FreshVariants, CanPanic, StructLeadsTo;
    var e := With(env, code);
    match t
    case PtrT(elem) => f, name, depth := ValuePanics(env, code, o, n, elem, Pointee(e, v, elem), path, used);
    case IfaceT(family, _) => f, name, depth := VariantPanics(env, code, o, n, family, v, path, used);
    case StructT(_, _) => f, name, depth := StructPanics(env, code, o, n, n.children, t, v, path, used);
    case MapT(_, elem) => f, name, depth := KeysPanic(env, code, o, n, elem, |n.keys|, path, used);
    case SliceT(elem) => f, name, depth := ItemsPanic(env, code, o, n, elem, |n.items|, path, used);
    case ScalarT(_) =>
    case ArrayT(_) =>
  }

  lemma {:induction false} KeysPanic(env: Env, code: Code, o: Order, n: Tree, elem: Schema, m: nat, path: string, used: set<Sel>)
    returns (f: nat, name: string, depth: nat)
    requires FreshVariants(env) && WF(n) && n.Map? && m <= |n.keys|
    requires RunKeys(With(env, code), o, n, elem, m, path, used).err == Some(Panicked)
    ensures LeadsTo(env, elem, f, depth) && CanPanic(env, f, name)
    decreases n, 1, elem, m
  {
    hide RunValue, FreshVariants, CanPanic, LeadsTo;
    var e, key := With(env, code), n.keys[m - 1];
    var a := RunKeys(e, o, n, elem, m - 1, path, used);
    if a.err.Some? || key !in n.children {
      f, name, depth := KeysPanic(env, code, o, n, elem, m - 1, path, used);
    } else {
      f, name, depth := ValuePanics(env, code, o.Below(InKey(key)), n.children[key], elem, Zero(e, elem), JoinPath(path, key),
                                    used + SelsOf(a.log));
    }
  }

  lemma {:induction false} ItemsPanic(env: Env, code: Code, o: Order, n: Tree, elem: Schema, m: nat, path: string, used: set<Sel>)
    returns (f: nat, name: string, depth: nat)
    requires FreshVariants(env) && WF(n) && n.Seq? && m <= |n.items|
    requires RunItems(With(env, code), o, n, elem, m, path, used).err == Some(Panicked)
    ensures LeadsTo(env, elem, f, depth) && CanPanic(env, f, name)
    decreases n, 1, elem, m
  {
    hide RunValue, FreshVariants, CanPanic, LeadsTo;
    var e := With(env, code);
    var a := RunItems(e, o, n, elem, m - 1, path, used);
    if a.err.Some? {
      f, name, depth := ItemsPanic(env, code, o, n, elem, m - 1, path, used);
    } else {
      f, name, depth := ValuePanics(env, code, o.Below(InItem(m - 1)), n.items[m - 1], elem, Zero(e, elem), ItemPath(path, m - 1),
                                    used + SelsOf(a.log));
    }
  }

  lemma {:induction false} StructPanics(env: Env, code: Code, o: Order, n: Tree, cs: map<string, Tree>, t: Schema, v: Val,
                                        path: string, used: set<Sel>)
    returns (f: nat, name: string, depth: nat)
    requires t.StructT? && FreshVariants(env) && forall k | k in cs :: cs[k] < n && WF(cs[k])
    requires RunStruct(With(env, code), o, n, cs, t, v, path, used).err == Some(Panicked)
    ensures forall hidden | hidden !! cs.Keys :: StructLeadsTo(env, t, hidden, f, depth)
    ensures CanPanic(env, f, name)
    decreases n, 2, t
  {
    hide RunFields, FreshVariants, CanPanic, LeadsTo;
    var e := With(env, code);
    var info;
    info, f, name, depth := FieldsPanic(env, code, o, n, cs, t, FieldVals(e, v, t), AllKeys(t), path, used);
    InfosBelow(t, |t.fields|, []);
  }

  lemma {:induction false} FieldsPanic(env: Env, code: Code, o: Order, n: Tree, cs: map<string, Tree>, t: Schema, vals: seq<Val>,
                                       todo: set<string>, path: string, used: set<Sel>)
    returns (info: FieldInfo, f: nat, name: string, depth: nat)
    requires t.StructT? && GoodStruct(t) && FreshVariants(env) && |vals| == |t.fields| && todo <= AllKeys(t)
    requires forall k | k in cs :: cs[k] < n && WF(cs[k])
    requires RunFields(With(env, code), o, n, cs, t, vals, todo, path, used).err == Some(Panicked)
    ensures info in AllInfos(t).value && info.key in cs && LeadsTo(env, info.typ, f, depth) && CanPanic(env, f, name)
    decreases n, 1, t, |todo|
  {
    hide RunValue, FreshVariants, CanPanic, LeadsTo, GoodStruct, AllKeys, GetAt, SetAt;
    var e, k := With(env, code), o.pick(todo);
    var left := todo - {k};
    info := FieldAtKey(t, k);
    if k !in cs {
      info, f, name, depth := FieldsPanic(env, code, o, n, cs, t, vals, left, path, used);
    } else {
      var r := RunField(e, o, n, cs, t, vals, info, path, used);
      if r.err.Some? {
        f, name, depth := ValuePanics(env, code, o.Below(InKey(k)), cs[k], info.typ, GetAt(e, t, vals, info.index),
                                      JoinPath(path, k), used);
      } else {
        info, f, name, depth := FieldsPanic(env, code, o, n, cs, t, r.vals, left, path, used + SelsOf(r.log));
      }
    }
  }

  lemma {:induction false} VariantPanics(env: Env, code: Code, o: Order, n: Tree, family: nat, v: Val, path: string,
                                         used: set<Sel>)
    returns (f: nat, name: string, depth: nat)
    requires family in env.families && FreshVariants(env) && WF(n)
    requires RunVariant(With(env, code), o, n, family, v, path, used).err == Some(Panicked)
    ensures forall empty :: LeadsTo(env, IfaceT(family, empty), f, depth)
    ensures CanPanic(env, f, name)
    decreases n, 3
  {
    hide RunStruct, FreshVariants, CanPanic, StructLeadsTo, Selectors, Selectable, Taken;
    var fam := env.families[family];
    var variant, cs := VariantOf(fam, n).value.1, n.children - {fam.disc};
    ChildrenWF(n);
    if RunStruct(With(env, code), o, n, cs, variant.typ, variant.make, path, used).err.Some? {
      var d;
      f, name, d := StructPanics(env, code, o, n, cs, variant.typ, variant.make, path, used);
      depth := d + 1;
      assert {fam.disc} !! cs.Keys;
    } else {
      f, name, depth := family, VariantOf(fam, n).value.0, 0;
      ThenCanPanic(env, code, o, n, family, v, path, used);
    }
  }

  lemma ThenCanPanic(env: Env, code: Code, o: Order, n: Tree, family: nat, v: Val, path: string, used: set<Sel>)
    requires family in env.families && FreshVariants(env) && WF(n) && VariantOf(env.families[family], n).Some?
    requires RunVariant(With(env, code), o, n, family, v, path, used).err == Some(Panicked)
    requires MadeAndBound(With(env, code), o, n, family, path, used).err.None?
    ensures CanPanic(env, family, VariantOf(env.families[family], n).value.0)
  {
    var e, fam := With(env, code), env.families[family];
    var variant, cs := VariantOf(fam, n).value.1, n.children - {fam.disc};
    StillFresh(env, code);
    GoodIfRun(e, o, n, cs, variant.typ, variant.make, path, used);
    VariantPanicsIff(e, o, n, family, v, path, used);
    StructLessTaken(e, o, n, cs, variant.typ, variant.make, path, used);
    hide RunStruct, RunVariant, FreshVariants, GoodStruct, SelectorsReached, RequiredKeys;
    assert MadeAndBound(e, o, n, family, path, {}).err.None?;
    SelectorsReachedSame(env, code, variant.typ, variant.make, cs.Keys);
    if SelectorsReached(env, variant.typ, variant.make, RequiredKeys(variant.typ)) {
      SelectorsReachedMore(env, variant.typ, variant.make, RequiredKeys(variant.typ), cs.Keys);
    }
  }

  lemma GoodIfRun(env: Env, o: Order, n: Tree, cs: map<string, Tree>, t: Schema, v: Val, path: string, used: set<Sel>)
    requires t.StructT? && FreshVariants(env) && forall k | k in cs :: cs[k] < n
    requires RunStruct(env, o, n, cs, t, v, path, used).err.None?
    ensures GoodStruct(t) && RequiredKeys(t) <= cs.Keys
  {
    RunsAsBound(env, o, n, cs, t, v, path, used);
    FitsIff(t, cs);
  }

  /// ## And every such variant that a type leads to makes some bind panic

  /** The tree that fills the variant, without the keys that are not required. */
  lemma VariantWitness(env: Env, family: nat, name: string, v: Val, path: string) returns (code: Code, o: Order, n: Tree)
    requires FreshVariants(env) && CanPanic(env, family, name)
    ensures WF(n) && RunVariant(With(env, code), o, n, family, v, path, {}).err == Some(Panicked)
  {
    hide RunStruct, RunVariant, FreshVariants, SelectorsReached, RequiredKeys, WF, Willing, GoodStruct;
    var fam := env.families[family];
    var typ, make := fam.variants[name].typ, fam.variants[name].make;
    var full, m, p;
    full, o, m, p :| WF(m) && VariantOf(fam, m).Some? && VariantOf(fam, m).value.0 == name
                     && MadeAndBound(With(env, full), o, m, family, p, {}).err.None?;
    var required := RequiredKeys(typ);
    n, code := Pruned(m, required + {fam.disc}), Willing(full);
    PrunedWF(m, required + {fam.disc});
    ChildrenWF(m);
    var cs, less := m.children - {fam.disc}, n.children - {fam.disc};
    StructPruned(env, full, o, m, cs, typ, make, p, n, required, path);
    assert less == Restrict(cs, required);
    assert less.Keys == required;
    assert n.children[fam.disc] == m.children[fam.disc] && VariantOf(fam, n) == VariantOf(fam, m);
    StillFresh(env, code);
    SelectorsReachedSame(env, code, typ, make, required);
    VariantPanicsIff(With(env, code), o, n, family, v, path, {});
  }

  /** A struct that visits one key first, and panics there. */
  lemma OneKeyPanics(env: Env, o: Order, n: Tree, c: Tree, t: Schema, v: Val, info: FieldInfo, path: string)
    requires GoodStruct(t) && info in AllInfos(t).value && c < n && o.pick(AllKeys(t)) == info.key
    requires RunValue(env, o.Below(InKey(info.key)), c, info.typ, GetAt(env, t, FieldVals(env, v, t), info.index),
                      JoinPath(path, info.key), {}).err == Some(Panicked)
    ensures RunStruct(env, o, n, map[info.key := c], t, v, path, {}).err == Some(Panicked)
  {
    hide RunValue, GetAt, SetAt, FieldVals;
    var infos := AllInfos(t).value;
    var j :| 0 <= j < |infos| && infos[j] == info;
    FieldIsAtKey(t, j);
    var cs := map[info.key := c];
    assert cs.Keys == {info.key} && cs.Keys <= AllKeys(t) && AllKeys(t) != {};
    hide AllInfos, GoodStruct, AllKeys;
    assert RunField(env, o, n, cs, t, FieldVals(env, v, t), info, path, {}).err == Some(Panicked);
  }

  /** A field of a struct, with a tree for it, for which that happens. */
  lemma {:induction false} StructWitness(env: Env, t: Schema, hidden: set<string>, v: Val, path: string, family: nat,
                                         name: string, depth: nat)
    returns (code: Code, o: Order, info: FieldInfo, c: Tree)
    requires FreshVariants(env) && StructLeadsTo(env, t, hidden, family, depth) && CanPanic(env, family, name)
    ensures GoodStruct(t) && info in AllInfos(t).value && info.key !in hidden && WF(c) && WellShaped(c, info.typ)
    ensures forall n | c < n :: RunStruct(With(env, code), o, n, map[info.key := c], t, v, path, {}).err == Some(Panicked)
    decreases depth, t, 0
  {
    hide FreshVariants, CanPanic, RunValue, RunStruct, GetAt, SetAt, WellShaped, WF, LeadsTo;
    InfosBelow(t, |t.fields|, []);
    info :| info in AllInfos(t).value && info.key !in hidden && LeadsTo(env, info.typ, family, depth);
    var vals := FieldVals(env, v, t);
    FieldOfInfo(t, info);
    hide AllInfos, GoodStruct, AllKeys;
    var below;
    code, below, c := PanicWitness(env, info.typ, GetAt(env, t, vals, info.index), JoinPath(path, info.key), family, name, depth);
    o := Order(First(info.key), map[InKey(info.key) := below]);
    FieldValsSame(env, code, v, t);
    PlaceSame(env, code, t, vals, info.index, Nil);
    forall n | c < n ensures RunStruct(With(env, code), o, n, map[info.key := c], t, v, path, {}).err == Some(Panicked) {
      OneKeyPanics(With(env, code), o, n, c, t, v, info, path);
    }
  }

  lemma FieldOfInfo(t: Schema, info: FieldInfo)
    requires GoodStruct(t) && info in AllInfos(t).value
    ensures info.key in AllKeys(t) && First(info.key)(AllKeys(t)) == info.key
  {
    var infos := AllInfos(t).value;
    var j :| 0 <= j < |infos| && infos[j] == info;
    FieldIsAtKey(t, j);
  }

  lemma {:induction false} PanicWitness(env: Env, t: Schema, v: Val, path: string, family: nat, name: string, depth: nat)
    returns (code: Code, o: Order, n: Tree)
    requires FreshVariants(env) && LeadsTo(env, t, family, depth) && CanPanic(env, family, name)
    ensures WF(n) && WellShaped(n, t) && RunValue(With(env, code), o, n, t, v, path, {}).err == Some(Panicked)
    decreases depth, t, 1
  {
    hide FreshVariants, CanPanic, RunStruct, RunVariant, RunKeys, RunItems, StructLeadsTo;
    match t
    case PtrT(elem) =>
      code, o, n := PanicWitness(env, elem, Pointee(env, v, elem), path, family, name, depth);
      ZeroSame(env, code, elem);
    case IfaceT(f, _) =>
      if f == family {
        code, o, n := VariantWitness(env, family, name, v, path);
      } else {
        var fam := env.families[f];
        var x :| x in fam.variants && StructLeadsTo(env, fam.variants[x].typ, {fam.disc}, family, depth - 1);
        var info, c;
        var typ, make := fam.variants[x].typ, fam.variants[x].make;
        code, o, info, c := StructWitness(env, typ, {fam.disc}, make, path, family, name, depth - 1);
        n := NestedWitness(env, code, o, f, x, info, c, v, path);
      }
    case StructT(_, _) =>
      var info, c;
      code, o, info, c := StructWitness(env, t, {}, v, path, family, name, depth);
      n := OneKeyTree(info.key, c);
      OneKeyShaped(t, info, c);
    case MapT(_, elem) =>
      var below, c;
      code, below, c := PanicWitness(env, elem, Zero(env, elem), JoinPath(path, "k"), family, name, depth);
      n, o := OneKeyTree("k", c), Order(First(""), map[InKey("k") := below]);
      OneEntryShaped("k", c, t);
      OneEntry(env, code, o, below, "k", c, elem, path);
      ZeroSame(env, code, elem);
    case SliceT(elem) =>
      var below, c;
      code, below, c := PanicWitness(env, elem, Zero(env, elem), ItemPath(path, 0), family, name, depth);
      n, o := Seq([c], ""), Order(First(""), map[InItem(0) := below]);
      OneItem(env, code, o, below, c, elem, path);
      ZeroSame(env, code, elem);
  }

  /** A variant of another family, that leads there. */
  lemma NestedWitness(env: Env, code: Code, o: Order, f: nat, x: string, info: FieldInfo, c: Tree, v: Val, path: string)
    returns (n: Tree)
    requires FreshVariants(env) && f in env.families && x in env.families[f].variants && WF(c) && info.key != env.families[f].disc
    requires var variant := env.families[f].variants[x];
             && GoodStruct(variant.typ)
             && forall m | c < m ::
                  RunStruct(With(env, code), o, m, map[info.key := c], variant.typ, variant.make, path, {}).err == Some(Panicked)
    ensures WF(n) && RunVariant(With(env, code), o, n, f, v, path, {}).err == Some(Panicked)
  {
    hide FreshVariants, RunStruct, Selectors, Selectable, Taken;
    var fam := env.families[f];
    var named := Scalar(x, "", false, false, "");
    n := Map([fam.disc, info.key], map[fam.disc := named, info.key := c], "");
    assert SetOf([fam.disc, info.key]) == {fam.disc, info.key};
    assert n.children[info.key] == c && c < n && n.children[fam.disc] == named;
    assert n.children - {fam.disc} == map[info.key := c];
    assert VariantOf(fam, n) == Some((x, fam.variants[x]));
  }

  /// ## Types that never panic

  /** The type leads to a family with a variant that can panic. */
  ghost predicate Panicky(env: Env, t: Schema) {
    exists f, name, depth :: LeadsTo(env, t, f, depth) && CanPanic(env, f, name)
  }

  /** Some bind of some tree that passes the shape check, with some user code, is left by a panic, exactly for such
      types; the destination does not matter. */
  lemma PanicsIff(env: Env, t: Schema, v: Val, path: string)
    requires FreshVariants(env)
    ensures (exists code, o, n, used | WF(n) && WellShaped(n, t) ::
               RunValue(With(env, code), o, n, t, v, path, used).err == Some(Panicked))
            <==> Panicky(env, t)
  {
    hide RunValue, FreshVariants, LeadsTo, CanPanic, WF, WellShaped;
    if code, o, n, used :| WF(n) && WellShaped(n, t) && RunValue(With(env, code), o, n, t, v, path, used).err == Some(Panicked) {
      var f, name, depth := ValuePanics(env, code, o, n, t, v, path, used);
    }
    if Panicky(env, t) {
      var f, name, depth :| LeadsTo(env, t, f, depth) && CanPanic(env, f, name);
      var code, o, n := PanicWitness(env, t, v, path, f, name, depth);
      assert RunValue(With(env, code), o, n, t, v, path, {}).err == Some(Panicked);
    }
  }

  /** No bind of another type panics, in any order and whatever else goes wrong with it. */
  lemma NeverPanics(env: Env, o: Order, n: Tree, t: Schema, v: Val, path: string, used: set<Sel>)
    requires !Panicky(env, t) && FreshVariants(env) && WF(n)
    ensures RunValue(env, o, n, t, v, path, used).err != Some(Panicked)
  {
    hide RunValue, FreshVariants, LeadsTo, CanPanic, WF;
    var code := Code(env.coerce, env.scalarHook, env.hook);
    assert With(env, code) == env;
    if RunValue(env, o, n, t, v, path, used).err == Some(Panicked) {
      var f, name, depth := ValuePanics(env, code, o, n, t, v, path, used);
    }
  }

  /** If the variants are safe, every type is such. */
  lemma SafeNeverPanicky(env: Env, t: Schema)
    requires SafeVariants(env)
    ensures !Panicky(env, t)
  {
    hide LeadsTo, Safe, Filled;
  }

  lemma {:induction false} ReadableReached(env: Env, t: Schema, vals: seq<Val>, index: seq<nat>, keys: set<string>)
    requires t.StructT? && |vals| == |t.fields| && Readable(env, t, vals, index)
    ensures Reached(env, t, vals, index, keys)
    decreases |index|
  {
    if |index| > 1 && index[0] < |vals| && Inlined(t.fields[index[0]]).Some? {
      var f, v := t.fields[index[0]], vals[index[0]];
      ReadableReached(env, Inlined(f).value, InnerVals(env, f, v), index[1..], keys);
    }
  }

  /** Factories that set the inlined pointers their selectors lie behind make their variants safe. */
  lemma ReadiedIsSafe(env: Env, variant: Variant)
    requires GoodStruct(variant.typ) ==> Selectable(env, variant.typ, variant.make)
    ensures Safe(env, variant)
  {
    var t := variant.typ;
    if GoodStruct(t) {
      var vals, infos := FieldVals(env, variant.make, t), AllInfos(t).value;
      forall i | 0 <= i < |infos| && infos[i].selector ensures Reached(env, t, vals, infos[i].index, RequiredKeys(t)) {
        ReadableReached(env, t, vals, infos[i].index, RequiredKeys(t));
      }
    }
  }

  /** A chain that enters inlined structs only, no pointer to one. */
  predicate NoPointer(t: Schema, index: seq<nat>)
    requires t.StructT?
    decreases |index|
  {
    |index| <= 1 || index[0] >= |t.fields| || Inlined(t.fields[index[0]]).None? ||
    (t.fields[index[0]].typ.StructT? && NoPointer(Inlined(t.fields[index[0]]).value, index[1..]))
  }

  /** No selector field of a variant lies behind an inlined pointer. */
  ghost predicate NoSelectorBehindPointer(env: Env) {
    forall f, name | f in env.families && name in env.families[f].variants ::
      var t := env.families[f].variants[name].typ;
      GoodStruct(t) ==> forall i | 0 <= i < |AllInfos(t).value| && AllInfos(t).value[i].selector ::
        NoPointer(t, AllInfos(t).value[i].index)
  }

  lemma {:induction false} NoPointerReadable(env: Env, t: Schema, vals: seq<Val>, index: seq<nat>)
    requires t.StructT? && |vals| == |t.fields| && NoPointer(t, index)
    ensures Readable(env, t, vals, index)
    decreases |index|
  {
    if |index| > 1 && index[0] < |vals| && Inlined(t.fields[index[0]]).Some? {
      var f, v := t.fields[index[0]], vals[index[0]];
      NoPointerReadable(env, Inlined(f).value, InnerVals(env, f, v), index[1..]);
    }
  }

  /** Such variants are safe, whatever the factories make. */
  lemma NoSelectorBehindPointerIsSafe(env: Env)
    requires NoSelectorBehindPointer(env)
    ensures SafeVariants(env)
  {
    forall f, name | f in env.families && name in env.families[f].variants ensures Safe(env, env.families[f].variants[name]) {
      var variant := env.families[f].variants[name];
      var t, v := variant.typ, variant.make;
      if GoodStruct(t) {
        forall i | 0 <= i < |AllInfos(t).value| && AllInfos(t).value[i].selector
          ensures Readable(env, t, FieldVals(env, v, t), AllInfos(t).value[i].index)
        {
          NoPointerReadable(env, t, FieldVals(env, v, t), AllInfos(t).value[i].index);
        }
      }
      ReadiedIsSafe(env, variant);
    }
  }
}
