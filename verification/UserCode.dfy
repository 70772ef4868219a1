/** Types apart from the code their user gives them: binding with other coercions and hooks. */
module UserCode {
  import opened Text
  import opened Trees
  import opened Schema
  import opened Binding
  import opened BindingLaws

  /** What a program may choose freely: how its scalars are parsed, and what its hooks accept. */
  datatype Code = Code(
    coerce: (nat, string) -> Option<string>, scalarHook: (nat, string) -> bool, hook: (nat, Val) -> bool)

  function With(env: Env, code: Code): Env {
    env.(coerce := code.coerce, scalarHook := code.scalarHook, hook := code.hook)
  }

  /// ## What does not depend on it

  lemma {:induction false} ZeroSame(env: Env, code: Code, t: Schema)
    ensures Zero(With(env, code), t) == Zero(env, t)
  {
    if t.StructT? {
      forall i | 0 <= i < |t.fields| ensures Zero(With(env, code), t.fields[i].typ) == Zero(env, t.fields[i].typ) {
        ZeroSame(env, code, t.fields[i].typ);
      }
      assert Zero(With(env, code), t).fields == Zero(env, t).fields;
    }
  }

  lemma FieldValsSame(env: Env, code: Code, v: Val, t: Schema)
    requires t.StructT?
    ensures FieldVals(With(env, code), v, t) == FieldVals(env, v, t)
  {
    ZeroSame(env, code, t);
  }

  lemma InnerValsSame(env: Env, code: Code, f: Field, v: Val)
    requires Inlined(f).Some?
    ensures InnerVals(With(env, code), f, v) == InnerVals(env, f, v)
  {
    var st := Inlined(f).value;
    ZeroSame(env, code, st);
  }

  lemma {:induction false} PlaceSame(env: Env, code: Code, t: Schema, vals: seq<Val>, index: seq<nat>, x: Val)
    requires t.StructT? && |vals| == |t.fields|
    ensures GetAt(With(env, code), t, vals, index) == GetAt(env, t, vals, index)
    ensures SetAt(With(env, code), t, vals, index, x) == SetAt(env, t, vals, index, x)
    ensures Readable(With(env, code), t, vals, index) == Readable(env, t, vals, index)
    decreases |index|
  {
    if |index| > 1 && index[0] < |vals| && Inlined(t.fields[index[0]]).Some? {
      var f, v := t.fields[index[0]], vals[index[0]];
      InnerValsSame(env, code, f, v);
      PlaceSame(env, code, Inlined(f).value, InnerVals(env, f, v), index[1..], x);
    }
  }

  lemma {:induction false} SelectorFieldsSame(env: Env, code: Code, t: Schema, vals: seq<Val>, infos: seq<FieldInfo>)
    requires t.StructT? && |vals| == |t.fields|
    ensures SelectorFields(With(env, code), t, vals, infos) == SelectorFields(env, t, vals, infos)
  {
    hide GetAt;
    if infos != [] {
      SelectorFieldsSame(env, code, t, vals, infos[..|infos| - 1]);
      PlaceSame(env, code, t, vals, infos[|infos| - 1].index, Nil);
    }
  }

  lemma SelectorsSame(env: Env, code: Code, disc: string, name: string, t: Schema, v: Val, path: string)
    requires GoodStruct(t)
    ensures Selectors(With(env, code), disc, name, t, v, path) == Selectors(env, disc, name, t, v, path)
    ensures Selectable(With(env, code), t, v) == Selectable(env, t, v)
  {
    FieldValsSame(env, code, v, t);
    var vals, infos := FieldVals(env, v, t), AllInfos(t).value;
    SelectorFieldsSame(env, code, t, vals, infos);
    forall i | 0 <= i < |infos|
      ensures Readable(With(env, code), t, vals, infos[i].index) == Readable(env, t, vals, infos[i].index)
    {
      PlaceSame(env, code, t, vals, infos[i].index, Nil);
    }
  }

  /// ## Hooks that accept more

  /** The other code parses alike, and its hooks accept what those of the first accept, unless it is larger than `w`. */
  ghost predicate Accepts(code: Code, other: Code, w: Val) {
    && other.coerce == code.coerce && other.scalarHook == code.scalarHook
    && forall name, x | code.hook(name, x) && !(w < x) :: other.hook(name, x)
  }

  /** The same code, but every hook refuses what is larger than `w`. */
  ghost function Limited(code: Code, w: Val): (other: Code)
    ensures Accepts(code, other, w)
  {
    code.(hook := (name: nat, x: Val) => code.hook(name, x) && !(w < x))
  }

  /** A bind that succeeds asks no hook about anything larger than its result: with hooks that accept as much up to
      that, it has the same outcome. */
  lemma {:induction false} ValueAccepted(env: Env, code: Code, other: Code, w: Val, n: Tree, t: Schema, v: Val, path: string)
    requires Accepts(code, other, w)
    requires WF(n) && BindValue(With(env, code), n, t, v, path).ok && !(w < BindValue(With(env, code), n, t, v, path).v)
    ensures BindValue(With(env, other), n, t, v, path) == BindValue(With(env, code), n, t, v, path)
    decreases n, 3, t
  {
    hide BindStruct, BindKeys, BindItems, BindVariant;
    match t
    case PtrT(elem) =>
      ZeroSame(env, code, elem);
      ZeroSame(env, other, elem);
      ValueAccepted(env, code, other, w, n, elem, Pointee(env, v, elem), path);
    case IfaceT(family, _) =>
      if family in env.families {
        VariantAccepted(env, code, other, w, n, family, v, path);
      }
    case StructT(_, _) =>
      if n.Map? {
        StructAccepted(env, code, other, w, n, n.children, t, v, path);
      }
    case MapT(_, elem) =>
      if n.Map? {
        KeysAccepted(env, code, other, w, n, elem, |n.keys|, path);
      }
    case SliceT(elem) =>
      if n.Seq? {
        ItemsAccepted(env, code, other, w, n, elem, |n.items|, path);
      }
    case _ =>
  }

  lemma {:induction false} KeysAccepted(env: Env, code: Code, other: Code, w: Val, n: Tree, elem: Schema, m: nat, path: string)
    requires Accepts(code, other, w)
    requires WF(n) && n.Map? && m <= |n.keys| && BindKeys(With(env, code), n, elem, m, path).ok
    requires var entries := BindKeys(With(env, code), n, elem, m, path).v.entries;
             forall k | k in entries :: !(w < entries[k])
    ensures BindKeys(With(env, other), n, elem, m, path) == BindKeys(With(env, code), n, elem, m, path)
    ensures BindKeys(With(env, code), n, elem, m, path).v.entries.Keys <= SetOf(n.keys[..m])
    decreases n, 1, elem, m
  {
    hide BindValue;
    if m > 0 {
      var key := n.keys[m - 1];
      assert key in SetOf(n.keys);
      assert n.keys[..m] == n.keys[..m - 1] + [key];
      NoDupAppend(n.keys[..m - 1], [key]);
      var a := BindKeys(With(env, code), n, elem, m - 1, path);
      KeysWithin(env, code, n, elem, m - 1, path);
      KeyIsNew(n.keys, m - 1);
      ZeroSame(env, code, elem);
      ZeroSame(env, other, elem);
      var entries := BindKeys(With(env, code), n, elem, m, path).v.entries;
      forall k | k in a.v.entries ensures !(w < a.v.entries[k]) {
        assert k in entries && entries[k] == a.v.entries[k];
      }
      assert key in entries;
      KeysAccepted(env, code, other, w, n, elem, m - 1, path);
      ValueAccepted(env, code, other, w, n.children[key], elem, Zero(env, elem), JoinPath(path, key));
    }
  }

  lemma KeyIsNew(keys: seq<string>, i: nat)
    requires NoDup(keys) && i < |keys|
    ensures keys[i] !in SetOf(keys[..i])
  {}

  lemma {:induction false} KeysWithin(env: Env, code: Code, n: Tree, elem: Schema, m: nat, path: string)
    requires n.Map? && m <= |n.keys|
    ensures BindKeys(With(env, code), n, elem, m, path).v.entries.Keys <= SetOf(n.keys[..m])
  {
    hide BindValue;
    if m > 0 {
      KeysWithin(env, code, n, elem, m - 1, path);
      assert n.keys[..m] == n.keys[..m - 1] + [n.keys[m - 1]];
    }
  }

  lemma {:induction false} ItemsAccepted(env: Env, code: Code, other: Code, w: Val, n: Tree, elem: Schema, m: nat, path: string)
    requires Accepts(code, other, w)
    requires WF(n) && n.Seq? && m <= |n.items| && BindItems(With(env, code), n, elem, m, path).ok
    requires var elems := BindItems(With(env, code), n, elem, m, path).v.elems;
             forall i | 0 <= i < |elems| :: !(w < elems[i])
    ensures BindItems(With(env, other), n, elem, m, path) == BindItems(With(env, code), n, elem, m, path)
    decreases n, 1, elem, m
  {
    hide BindValue;
    if m > 0 {
      ZeroSame(env, code, elem);
      ZeroSame(env, other, elem);
      var a := BindItems(With(env, code), n, elem, m - 1, path).v.elems;
      var all := BindItems(With(env, code), n, elem, m, path).v.elems;
      assert forall i | 0 <= i < |a| :: all[i] == a[i];
      assert !(w < all[|a|]);
      ItemsAccepted(env, code, other, w, n, elem, m - 1, path);
      ValueAccepted(env, code, other, w, n.items[m - 1], elem, Zero(env, elem), ItemPath(path, m - 1));
    }
  }

  lemma {:induction false} StructAccepted(env: Env, code: Code, other: Code, w: Val, n: Tree, cs: map<string, Tree>,
                                          t: Schema, v: Val, path: string)
    requires Accepts(code, other, w)
    requires t.StructT? && forall k | k in cs :: cs[k] < n && WF(cs[k])
    requires BindStruct(With(env, code), n, cs, t, v, path).ok && !(w < BindStruct(With(env, code), n, cs, t, v, path).v)
    ensures BindStruct(With(env, other), n, cs, t, v, path) == BindStruct(With(env, code), n, cs, t, v, path)
    decreases n, 1, t
  {
    hide BindFields;
    if GoodStruct(t) {
      FieldValsSame(env, code, v, t);
      FieldValsSame(env, other, v, t);
      FieldsAccepted(env, code, other, w, n, cs, t, FieldVals(env, v, t), |t.fields|, path);
    }
  }

  lemma {:induction false} FieldsAccepted(env: Env, code: Code, other: Code, w: Val, n: Tree, cs: map<string, Tree>,
                                          t: Schema, vals: seq<Val>, m: nat, path: string)
    requires Accepts(code, other, w)
    requires t.StructT? && |vals| == |t.fields| && m <= |vals| && forall k | k in cs :: cs[k] < n && WF(cs[k])
    requires var b := BindFields(With(env, code), n, cs, t, vals, m, path);
             b.ok && forall i | 0 <= i < m :: !(w < b.vals[i])
    ensures BindFields(With(env, other), n, cs, t, vals, m, path)
              == BindFields(With(env, code), n, cs, t, vals, m, path)
    decreases n, 0, t, m
  {
    hide BindField;
    if m > 0 {
      var a, b := BindFields(With(env, code), n, cs, t, vals, m - 1, path), BindFields(With(env, code), n, cs, t, vals, m, path);
      assert forall i | 0 <= i < m - 1 :: b.vals[i] == a.vals[i];
      assert !(w < b.vals[m - 1]);
      FieldsAccepted(env, code, other, w, n, cs, t, vals, m - 1, path);
      FieldAccepted(env, code, other, w, n, cs, t, m - 1, vals[m - 1], path);
    }
  }

  lemma {:induction false} FieldAccepted(env: Env, code: Code, other: Code, w: Val, n: Tree, cs: map<string, Tree>,
                                         t: Schema, i: nat, v: Val, path: string)
    requires Accepts(code, other, w)
    requires t.StructT? && i < |t.fields| && forall k | k in cs :: cs[k] < n && WF(cs[k])
    requires BindField(With(env, code), n, cs, t, i, v, path).ok && !(w < BindField(With(env, code), n, cs, t, i, v, path).v)
    ensures BindField(With(env, other), n, cs, t, i, v, path) == BindField(With(env, code), n, cs, t, i, v, path)
    decreases n, 0, t, i
  {
    hide BindValue, BindFields;
    var f := t.fields[i];
    if f.tag.Key? && f.tag.key in cs {
      ValueAccepted(env, code, other, w, cs[f.tag.key], f.typ, v, JoinPath(path, f.tag.key));
    } else if f.tag.Inline? && Inlined(f).Some? && !(OwnKeys(t, i) !! cs.Keys) {
      var st := Inlined(f).value;
      InnerValsSame(env, code, f, v);
      InnerValsSame(env, other, f, v);
      var b := BindFields(With(env, code), n, cs, st, InnerVals(env, f, v), |st.fields|, path);
      Within(w, f, v, b.vals);
      FieldsAccepted(env, code, other, w, n, cs, st, InnerVals(env, f, v), |st.fields|, path);
    }
  }

  lemma Within(w: Val, f: Field, v: Val, vals: seq<Val>)
    requires !(w < WrapInner(f, v, vals))
    ensures forall i | 0 <= i < |vals| :: !(w < vals[i])
  {
    forall i | 0 <= i < |vals| ensures !(w < vals[i]) {
      assert vals[i] < Struct(vals);
    }
  }

  lemma {:induction false} VariantAccepted(env: Env, code: Code, other: Code, w: Val, n: Tree, family: nat, v: Val, path: string)
    requires Accepts(code, other, w)
    requires WF(n) && family in env.families
    requires BindVariant(With(env, code), n, family, v, path).ok && !(w < BindVariant(With(env, code), n, family, v, path).v)
    ensures BindVariant(With(env, other), n, family, v, path) == BindVariant(With(env, code), n, family, v, path)
    decreases n, 2
  {
    hide BindStruct, Selectors, Selectable;
    var fam := env.families[family];
    var (name, variant) := VariantOf(fam, n).value;
    StructAccepted(env, code, other, w, n, n.children - {fam.disc}, variant.typ, variant.make, path);
    var x := BindStruct(With(env, code), n, n.children - {fam.disc}, variant.typ, variant.make, path).v;
    SelectorsSame(env, code, fam.disc, name, variant.typ, x, path);
    SelectorsSame(env, other, fam.disc, name, variant.typ, x, path);
  }
}
