/** Why the order in which a struct's fields are bound does not matter: index chains lead to different
    places, and what one key does to a struct is independent of the keys already bound. */
module BindingLaws {
  import opened Text
  import opened Trees
  import opened Schema
  import opened Binding

  /// ## Keys and index chains

  /** No key occurs in two fields, at any depth of inlining. */
  ghost predicate UniqueKeys(t: Schema, m: nat)
    requires t.StructT? && m <= |t.fields|
    decreases t, m
  {
    m == 0 ||
    (&& UniqueKeys(t, m - 1)
     && OwnKeys(t, m - 1) !! KeySet(t, m - 1)
     && var f := t.fields[m - 1];
        f.tag.Inline? && Inlined(f).Some? ==> UniqueKeys(Inlined(f).value, |Inlined(f).value.fields|))
  }

  lemma {:induction false} InfosKeys(t: Schema, m: nat, prefix: seq<nat>, x: string)
    requires t.StructT? && m <= |t.fields| && Infos(t, m, prefix).Some?
    ensures x in KeysOf(Infos(t, m, prefix).value) <==> x in KeySet(t, m)
    decreases t, m
  {
    if m > 0 {
      InfosKeys(t, m - 1, prefix, x);
      InfosOfKeys(t, m - 1, prefix, x);
      var a, b := Infos(t, m - 1, prefix).value, InfosOf(t, m - 1, prefix).value;
      assert KeysOf(a + b) == KeysOf(a) + KeysOf(b);
    }
  }

  lemma {:induction false} InfosOfKeys(t: Schema, i: nat, prefix: seq<nat>, x: string)
    requires t.StructT? && i < |t.fields| && InfosOf(t, i, prefix).Some?
    ensures x in KeysOf(InfosOf(t, i, prefix).value) <==> x in OwnKeys(t, i)
    decreases t, i
  {
    var f := t.fields[i];
    if f.tag.Key? {
      assert KeysOf([FieldInfo(f.tag.key, prefix + [i], f.tag.required, f.tag.selector, f.typ)]) == [f.tag.key];
    } else if f.tag.Inline? {
      InfosKeys(Inlined(f).value, |Inlined(f).value.fields|, prefix + [i], x);
    }
  }

  lemma {:induction false} InfosUnique(t: Schema, m: nat, prefix: seq<nat>)
    requires t.StructT? && m <= |t.fields| && Infos(t, m, prefix).Some? && NoDup(KeysOf(Infos(t, m, prefix).value))
    ensures UniqueKeys(t, m)
    decreases t, m
  {
    if m > 0 {
      var a, b := Infos(t, m - 1, prefix).value, InfosOf(t, m - 1, prefix).value;
      var ka, kb := KeysOf(a), KeysOf(b);
      assert KeysOf(a + b) == ka + kb;
      NoDupAppend(ka, kb);
      InfosUnique(t, m - 1, prefix);
      var own, others := OwnKeys(t, m - 1), KeySet(t, m - 1);
      forall x | x in own ensures x !in others {
        assert x in kb ==> x in SetOf(kb);
        assert x in ka ==> x in SetOf(ka);
        InfosKeys(t, m - 1, prefix, x);
        InfosOfKeys(t, m - 1, prefix, x);
      }
      var f := t.fields[m - 1];
      if f.tag.Inline? {
        InfosUnique(Inlined(f).value, |Inlined(f).value.fields|, prefix + [m - 1]);
      }
    }
  }

  /** Each collected field's chain starts with the prefix and then leads to the field. */
  lemma {:induction false} InfosLead(t: Schema, m: nat, prefix: seq<nat>, j: nat)
    requires t.StructT? && m <= |t.fields| && Infos(t, m, prefix).Some? && j < |Infos(t, m, prefix).value|
    ensures var info := Infos(t, m, prefix).value[j];
            && prefix <= info.index
            && Leads(t, info.index[|prefix|..], info.key, info.typ) && info.index[|prefix|] < m
    decreases t, m
  {
    var a, b := Infos(t, m - 1, prefix).value, InfosOf(t, m - 1, prefix).value;
    if j < |a| {
      InfosLead(t, m - 1, prefix, j);
    } else {
      var info, f := b[j - |a|], t.fields[m - 1];
      assert (a + b)[j] == info;
      if f.tag.Inline? {
        var longer := prefix + [m - 1];
        InfosLead(Inlined(f).value, |Inlined(f).value.fields|, longer, j - |a|);
        assert info.index[|prefix|..][1..] == info.index[|longer|..];
        assert info.index[|prefix|] == longer[|prefix|];
      }
    }
  }

  lemma {:induction false} LeadsKey(t: Schema, index: seq<nat>, key: string, typ: Schema)
    requires t.StructT? && Leads(t, index, key, typ)
    ensures key in OwnKeys(t, index[0])
    decreases |index|
  {
    if |index| > 1 {
      var st := Inlined(t.fields[index[0]]).value;
      LeadsKey(st, index[1..], key, typ);
      OwnInAll(st, index[1], |st.fields|);
    }
  }

  lemma {:induction false} OwnInAll(t: Schema, i: nat, m: nat)
    requires t.StructT? && i < m <= |t.fields|
    ensures OwnKeys(t, i) <= KeySet(t, m)
  {
    if i < m - 1 {
      OwnInAll(t, i, m - 1);
    }
  }

  /// ## One more key

  lemma FieldsStep(env: Env, n: Tree, cs: map<string, Tree>, t: Schema, vals: seq<Val>, m: nat, path: string)
    requires t.StructT? && |vals| == |t.fields| && 0 < m <= |vals| && forall x | x in cs :: cs[x] < n
    ensures var a := BindFields(env, n, cs, t, vals, m - 1, path);
            var b := BindField(env, n, cs, t, m - 1, vals[m - 1], path);
            BindFields(env, n, cs, t, vals, m, path)
              == BoundFields(a.ok && b.ok, a.walks + b.walks, a.vals[m - 1 := b.v], a.parts + b.parts)
  {}

  lemma FieldsNone(env: Env, n: Tree, cs: map<string, Tree>, t: Schema, vals: seq<Val>, path: string)
    requires t.StructT? && |vals| == |t.fields| && forall x | x in cs :: cs[x] < n
    ensures BindFields(env, n, cs, t, vals, 0, path) == BoundFields(true, {}, vals, map[])
  {}

  lemma FieldKey(env: Env, n: Tree, cs: map<string, Tree>, t: Schema, i: nat, v: Val, path: string)
    requires t.StructT? && i < |t.fields| && t.fields[i].tag.Key? && forall x | x in cs :: cs[x] < n
    ensures var key := t.fields[i].tag.key;
            BindField(env, n, cs, t, i, v, path)
              == if key in cs then
                   var b := BindValue(env, cs[key], t.fields[i].typ, v, JoinPath(path, key));
                   BoundField(b.ok, b.walks, b.v, map[key := b.plan])
                 else Untouched(v)
  {}

  lemma FieldUntouched(env: Env, n: Tree, cs: map<string, Tree>, t: Schema, i: nat, v: Val, path: string)
    requires t.StructT? && i < |t.fields| && forall x | x in cs :: cs[x] < n
    requires OwnKeys(t, i) !! cs.Keys
    ensures BindField(env, n, cs, t, i, v, path) == Untouched(v)
  {}

  lemma FieldEntered(env: Env, n: Tree, cs: map<string, Tree>, t: Schema, i: nat, v: Val, path: string)
    requires t.StructT? && i < |t.fields| && t.fields[i].tag.Inline? && Inlined(t.fields[i]).Some?
    requires forall x | x in cs :: cs[x] < n
    requires !(OwnKeys(t, i) !! cs.Keys)
    ensures var f := t.fields[i];
            var st := Inlined(f).value;
            var b := BindFields(env, n, cs, st, InnerVals(env, f, v), |st.fields|, path);
            BindField(env, n, cs, t, i, v, path)
              == BoundField(b.ok, (if f.typ.PtrT? then WalkOf(v) else {}) + b.walks, WrapInner(f, v, b.vals), b.parts)
  {}

  /** A key that is not its own leaves a field alone. */
  lemma {:induction false} IgnoresKey(env: Env, n: Tree, cs: map<string, Tree>, t: Schema, i: nat, v: Val,
                                      path: string, k: string, c: Tree)
    requires t.StructT? && i < |t.fields| && c < n && forall x | x in cs :: cs[x] < n
    requires k !in OwnKeys(t, i)
    ensures BindField(env, n, cs[k := c], t, i, v, path) == BindField(env, n, cs, t, i, v, path)
    decreases t, i, 0
  {
    hide BindValue, BindFields, BindField;
    var f := t.fields[i];
    if OwnKeys(t, i) !! cs.Keys {
      FieldUntouched(env, n, cs, t, i, v, path);
      FieldUntouched(env, n, cs[k := c], t, i, v, path);
    } else if f.tag.Key? {
      FieldKey(env, n, cs, t, i, v, path);
      FieldKey(env, n, cs[k := c], t, i, v, path);
    } else {
      var st := Inlined(f).value;
      IgnoresKeys(env, n, cs, st, InnerVals(env, f, v), |st.fields|, path, k, c);
      FieldEntered(env, n, cs, t, i, v, path);
      FieldEntered(env, n, cs[k := c], t, i, v, path);
    }
  }

  lemma {:induction false} IgnoresKeys(env: Env, n: Tree, cs: map<string, Tree>, t: Schema, vals: seq<Val>,
                                       m: nat, path: string, k: string, c: Tree)
    requires t.StructT? && |vals| == |t.fields| && m <= |vals| && c < n && forall x | x in cs :: cs[x] < n
    requires k !in KeySet(t, m)
    ensures BindFields(env, n, cs[k := c], t, vals, m, path) == BindFields(env, n, cs, t, vals, m, path)
    decreases t, m, 1
  {
    if m > 0 {
      hide BindValue, BindFields, BindField;
      IgnoresKeys(env, n, cs, t, vals, m - 1, path, k, c);
      IgnoresKey(env, n, cs, t, m - 1, vals[m - 1], path, k, c);
      FieldsStep(env, n, cs, t, vals, m, path);
      FieldsStep(env, n, cs[k := c], t, vals, m, path);
    }
  }

  /** Without a key of its own a struct is left alone. */
  lemma {:induction false} NoKeys(env: Env, n: Tree, cs: map<string, Tree>, t: Schema, vals: seq<Val>, m: nat,
                                  path: string)
    requires t.StructT? && |vals| == |t.fields| && m <= |vals| && forall x | x in cs :: cs[x] < n
    requires KeySet(t, m) !! cs.Keys
    ensures BindFields(env, n, cs, t, vals, m, path) == BoundFields(true, {}, vals, map[])
  {
    hide BindFields, BindField;
    if m == 0 {
      FieldsNone(env, n, cs, t, vals, path);
    } else {
      NoKeys(env, n, cs, t, vals, m - 1, path);
      FieldUntouched(env, n, cs, t, m - 1, vals[m - 1], path);
      FieldsStep(env, n, cs, t, vals, m, path);
      assert vals[m - 1 := vals[m - 1]] == vals;
    }
  }

  /** `b` is `a` with one more place, that of the key `k`, bound to `x`. */
  ghost predicate Extends(a: BoundFields, b: BoundFields, x: Bound, chain: set<nat>, k: string) {
    && b.ok == (a.ok && x.ok)
    && b.walks == a.walks + chain + x.walks
    && b.parts == a.parts[k := x.plan]
  }

  /** Binding one more key of a struct writes its own place and adds its own registrations, whatever
      keys were bound before. */
  lemma {:induction false} OneMoreKey(env: Env, n: Tree, cs: map<string, Tree>, t: Schema, vals: seq<Val>,
                                      m: nat, path: string, index: seq<nat>, k: string, typ: Schema, c: Tree)
    requires t.StructT? && |vals| == |t.fields| && m <= |vals| && c < n && forall x | x in cs :: cs[x] < n
    requires UniqueKeys(t, m) && Leads(t, index, k, typ) && index[0] < m && k !in cs
    ensures var a, b := BindFields(env, n, cs, t, vals, m, path), BindFields(env, n, cs[k := c], t, vals, m, path);
            var x := BindValue(env, c, typ, GetAt(env, t, vals, index), JoinPath(path, k));
            && Extends(a, b, x, ChainWalks(env, t, vals, index), k)
            && b.vals == SetAt(env, t, a.vals, index, x.v)
            && GetAt(env, t, a.vals, index) == GetAt(env, t, vals, index)
            && ChainWalks(env, t, a.vals, index) == ChainWalks(env, t, vals, index)
    decreases t, m, 1
  {
    hide BindValue, BindFields, BindField, GetAt, SetAt, ChainWalks;
    var i := index[0];
    LeadsKey(t, index, k, typ);
    if i == m - 1 {
      var a := BindFields(env, n, cs, t, vals, m - 1, path);
      IgnoresKeys(env, n, cs, t, vals, m - 1, path, k, c);
      OneMoreKeyField(env, n, cs, t, vals, a.vals, path, index, k, typ, c);
      OneMoreLast(env, n, cs, t, vals, m, path, index, k, typ, c);
    } else {
      OwnInAll(t, i, m - 1);
      IgnoresKey(env, n, cs, t, m - 1, vals[m - 1], path, k, c);
      OneMoreKey(env, n, cs, t, vals, m - 1, path, index, k, typ, c);
      OneMoreBefore(env, n, cs, t, vals, m, path, index, k, typ, c);
    }
  }

  /** A key of the last field, when the others ignore it. */
  lemma OneMoreLast(env: Env, n: Tree, cs: map<string, Tree>, t: Schema, vals: seq<Val>, m: nat, path: string,
                    index: seq<nat>, k: string, typ: Schema, c: Tree)
    requires t.StructT? && |vals| == |t.fields| && 0 < m <= |vals| && c < n && forall x | x in cs :: cs[x] < n
    requires index != [] && index[0] == m - 1 && k !in cs
    requires BindFields(env, n, cs[k := c], t, vals, m - 1, path) == BindFields(env, n, cs, t, vals, m - 1, path)
    requires OneMoreIn(env, t, vals, BindFields(env, n, cs, t, vals, m - 1, path).vals, index, k,
                       BindField(env, n, cs, t, m - 1, vals[m - 1], path),
                       BindField(env, n, cs[k := c], t, m - 1, vals[m - 1], path),
                       BindValue(env, c, typ, GetAt(env, t, vals, index), JoinPath(path, k)))
    ensures var a, b := BindFields(env, n, cs, t, vals, m, path), BindFields(env, n, cs[k := c], t, vals, m, path);
            var x := BindValue(env, c, typ, GetAt(env, t, vals, index), JoinPath(path, k));
            && Extends(a, b, x, ChainWalks(env, t, vals, index), k)
            && b.vals == SetAt(env, t, a.vals, index, x.v)
            && GetAt(env, t, a.vals, index) == GetAt(env, t, vals, index)
            && ChainWalks(env, t, a.vals, index) == ChainWalks(env, t, vals, index)
  {
    hide BindValue, BindFields, BindField, GetAt, SetAt, ChainWalks;
    FieldsStep(env, n, cs, t, vals, m, path);
    FieldsStep(env, n, cs[k := c], t, vals, m, path);
    var a, f, g := BindFields(env, n, cs, t, vals, m - 1, path), BindField(env, n, cs, t, m - 1, vals[m - 1], path),
                   BindField(env, n, cs[k := c], t, m - 1, vals[m - 1], path);
    var x := BindValue(env, c, typ, GetAt(env, t, vals, index), JoinPath(path, k));
    assert a.parts + f.parts[k := x.plan] == (a.parts + f.parts)[k := x.plan];
  }

  /** A key of an earlier field, when the last one ignores it. */
  lemma OneMoreBefore(env: Env, n: Tree, cs: map<string, Tree>, t: Schema, vals: seq<Val>, m: nat, path: string,
                      index: seq<nat>, k: string, typ: Schema, c: Tree)
    requires t.StructT? && |vals| == |t.fields| && 0 < m <= |vals| && c < n && forall x | x in cs :: cs[x] < n
    requires index != [] && index[0] < m - 1 && k !in cs
    requires BindField(env, n, cs[k := c], t, m - 1, vals[m - 1], path) == BindField(env, n, cs, t, m - 1, vals[m - 1], path)
    requires var a, b := BindFields(env, n, cs, t, vals, m - 1, path), BindFields(env, n, cs[k := c], t, vals, m - 1, path);
             var x := BindValue(env, c, typ, GetAt(env, t, vals, index), JoinPath(path, k));
             && Extends(a, b, x, ChainWalks(env, t, vals, index), k)
             && b.vals == SetAt(env, t, a.vals, index, x.v)
             && GetAt(env, t, a.vals, index) == GetAt(env, t, vals, index)
             && ChainWalks(env, t, a.vals, index) == ChainWalks(env, t, vals, index)
    ensures var a, b := BindFields(env, n, cs, t, vals, m, path), BindFields(env, n, cs[k := c], t, vals, m, path);
            var x := BindValue(env, c, typ, GetAt(env, t, vals, index), JoinPath(path, k));
            && Extends(a, b, x, ChainWalks(env, t, vals, index), k)
            && b.vals == SetAt(env, t, a.vals, index, x.v)
            && GetAt(env, t, a.vals, index) == GetAt(env, t, vals, index)
            && ChainWalks(env, t, a.vals, index) == ChainWalks(env, t, vals, index)
  {
    hide BindValue, BindFields, BindField, GetAt, SetAt, ChainWalks;
    var a := BindFields(env, n, cs, t, vals, m - 1, path);
    FieldsStep(env, n, cs, t, vals, m, path);
    FieldsStep(env, n, cs[k := c], t, vals, m, path);
    var x := BindValue(env, c, typ, GetAt(env, t, vals, index), JoinPath(path, k));
    OtherPlace(env, t, a.vals, m - 1, BindField(env, n, cs, t, m - 1, vals[m - 1], path).v, index, x.v);
  }

  /** Places in different fields are independent. */
  lemma OtherPlace(env: Env, t: Schema, vals: seq<Val>, j: nat, w: Val, index: seq<nat>, x: Val)
    requires t.StructT? && |vals| == |t.fields| && j < |vals| && index != [] && index[0] != j
    ensures SetAt(env, t, vals[j := w], index, x) == SetAt(env, t, vals, index, x)[j := w]
    ensures GetAt(env, t, vals[j := w], index) == GetAt(env, t, vals, index)
    ensures ChainWalks(env, t, vals[j := w], index) == ChainWalks(env, t, vals, index)
  {}

  /** What one more key does to the field it is in; `was` are the struct's fields by then. */
  ghost predicate OneMoreIn(env: Env, t: Schema, vals: seq<Val>, was: seq<Val>, index: seq<nat>, k: string,
                            a: BoundField, b: BoundField, x: Bound)
    requires t.StructT? && |vals| == |t.fields| == |was| && index != [] && index[0] < |vals|
  {
    var i := index[0];
    && b.ok == (a.ok && x.ok)
    && b.walks == a.walks + ChainWalks(env, t, vals, index) + x.walks
    && b.parts == a.parts[k := x.plan]
    && was[i := b.v] == SetAt(env, t, was[i := a.v], index, x.v)
    && GetAt(env, t, was[i := a.v], index) == GetAt(env, t, vals, index)
    && ChainWalks(env, t, was[i := a.v], index) == ChainWalks(env, t, vals, index)
  }

  lemma {:induction false} OneMoreKeyField(env: Env, n: Tree, cs: map<string, Tree>, t: Schema, vals: seq<Val>,
                                           was: seq<Val>, path: string, index: seq<nat>, k: string, typ: Schema, c: Tree)
    requires t.StructT? && |vals| == |t.fields| == |was| && c < n && forall x | x in cs :: cs[x] < n
    requires Leads(t, index, k, typ) && UniqueKeys(t, index[0] + 1) && k !in cs
    ensures OneMoreIn(env, t, vals, was, index, k,
                      BindField(env, n, cs, t, index[0], vals[index[0]], path),
                      BindField(env, n, cs[k := c], t, index[0], vals[index[0]], path),
                      BindValue(env, c, typ, GetAt(env, t, vals, index), JoinPath(path, k)))
    decreases t, index[0], 1
  {
    hide BindValue, BindFields, BindField;
    if |index| == 1 {
      FieldKey(env, n, cs, t, index[0], vals[index[0]], path);
      FieldKey(env, n, cs[k := c], t, index[0], vals[index[0]], path);
    } else {
      hide GetAt, OneMoreIn;
      OneMoreKeyInner(env, n, cs, t, vals, was, path, index, k, typ, c);
      Deeper(env, t, vals, index, Nil);
    }
  }

  lemma {:induction false} OneMoreKeyInner(env: Env, n: Tree, cs: map<string, Tree>, t: Schema, vals: seq<Val>,
                                           was: seq<Val>, path: string, index: seq<nat>, k: string, typ: Schema, c: Tree)
    requires t.StructT? && |vals| == |t.fields| == |was| && c < n && forall x | x in cs :: cs[x] < n
    requires |index| > 1 && Leads(t, index, k, typ) && UniqueKeys(t, index[0] + 1) && k !in cs
    ensures var f := t.fields[index[0]];
            var at := GetAt(env, Inlined(f).value, InnerVals(env, f, vals[index[0]]), index[1..]);
            OneMoreIn(env, t, vals, was, index, k,
                      BindField(env, n, cs, t, index[0], vals[index[0]], path),
                      BindField(env, n, cs[k := c], t, index[0], vals[index[0]], path),
                      BindValue(env, c, typ, at, JoinPath(path, k)))
    decreases t, index[0], 0
  {
    hide BindValue, BindFields, BindField;
    var i := index[0];
    var f, v := t.fields[i], vals[i];
    var st, inner := Inlined(f).value, InnerVals(env, f, v);
    LeadsKey(t, index, k, typ);
    hide GetAt, SetAt, ChainWalks, InnerVals, OneMoreIn, Leads, LastSegment;
    OneMoreKey(env, n, cs, st, inner, |st.fields|, path, index[1..], k, typ, c);
    FieldEntered(env, n, cs[k := c], t, i, v, path);
    var b := BindFields(env, n, cs[k := c], st, inner, |st.fields|, path);
    var x := BindValue(env, c, typ, GetAt(env, st, inner, index[1..]), JoinPath(path, k));
    if OwnKeys(t, i) !! cs.Keys {
      NoKeys(env, n, cs, st, inner, |st.fields|, path);
      FieldUntouched(env, n, cs, t, i, v, path);
      InnerUntouched(env, t, vals, was, index, k, b, x);
    } else {
      FieldEntered(env, n, cs, t, i, v, path);
      InnerEntered(env, t, vals, was, index, k, BindFields(env, n, cs, st, inner, |st.fields|, path), b, x);
    }
  }

  lemma InnerEntered(env: Env, t: Schema, vals: seq<Val>, was: seq<Val>, index: seq<nat>, k: string,
                     a: BoundFields, b: BoundFields, x: Bound)
    requires t.StructT? && |vals| == |t.fields| == |was| && |index| > 1 && index[0] < |vals|
    requires Inlined(t.fields[index[0]]).Some? && |a.vals| == |b.vals| == |Inlined(t.fields[index[0]]).value.fields|
    requires var f, st, v := t.fields[index[0]], Inlined(t.fields[index[0]]).value, vals[index[0]];
             var inner, rest := InnerVals(env, f, v), index[1..];
             && Extends(a, b, x, ChainWalks(env, st, inner, rest), k) && b.vals == SetAt(env, st, a.vals, rest, x.v)
             && GetAt(env, st, a.vals, rest) == GetAt(env, st, inner, rest)
             && ChainWalks(env, st, a.vals, rest) == ChainWalks(env, st, inner, rest)
    ensures var f, v := t.fields[index[0]], vals[index[0]];
            var walk := if f.typ.PtrT? then WalkOf(v) else {};
            OneMoreIn(env, t, vals, was, index, k,
                      BoundField(a.ok, walk + a.walks, WrapInner(f, v, a.vals), a.parts),
                      BoundField(b.ok, walk + b.walks, WrapInner(f, v, b.vals), b.parts), x)
  {
    var i := index[0];
    var f, v := t.fields[i], vals[i];
    Deeper(env, t, vals, index, x.v);
    Deeper(env, t, was[i := WrapInner(f, v, a.vals)], index, x.v);
    Rewrapped(env, f, v, a.vals);
    hide GetAt, SetAt, ChainWalks, InnerVals, WrapInner;
  }

  lemma InnerUntouched(env: Env, t: Schema, vals: seq<Val>, was: seq<Val>, index: seq<nat>, k: string, b: BoundFields, x: Bound)
    requires t.StructT? && |vals| == |t.fields| == |was| && |index| > 1 && index[0] < |vals|
    requires Inlined(t.fields[index[0]]).Some? && |b.vals| == |Inlined(t.fields[index[0]]).value.fields|
    requires var f, st, v := t.fields[index[0]], Inlined(t.fields[index[0]]).value, vals[index[0]];
             var inner, rest := InnerVals(env, f, v), index[1..];
             && Extends(BoundFields(true, {}, inner, map[]), b, x, ChainWalks(env, st, inner, rest), k)
             && b.vals == SetAt(env, st, inner, rest, x.v)
    ensures var f, v := t.fields[index[0]], vals[index[0]];
            var walk := if f.typ.PtrT? then WalkOf(v) else {};
            OneMoreIn(env, t, vals, was, index, k, Untouched(v),
                      BoundField(b.ok, walk + b.walks, WrapInner(f, v, b.vals), b.parts), x)
  {
    var i := index[0];
    Deeper(env, t, vals, index, x.v);
    Deeper(env, t, was[i := vals[i]], index, x.v);
    hide GetAt, SetAt, ChainWalks, InnerVals, WrapInner;
  }

  /** A place behind an inlined field is a place in the struct it inlines. */
  lemma Deeper(env: Env, t: Schema, vals: seq<Val>, index: seq<nat>, x: Val)
    requires t.StructT? && |vals| == |t.fields| && |index| > 1 && index[0] < |vals|
    requires Inlined(t.fields[index[0]]).Some?
    ensures var i := index[0];
            var f, st, v := t.fields[i], Inlined(t.fields[i]).value, vals[i];
            var inner := InnerVals(env, f, v);
            && GetAt(env, t, vals, index) == GetAt(env, st, inner, index[1..])
            && SetAt(env, t, vals, index, x) == vals[i := WrapInner(f, v, SetAt(env, st, inner, index[1..], x))]
            && ChainWalks(env, t, vals, index)
                 == (if f.typ.PtrT? then WalkOf(v) else {}) + ChainWalks(env, st, inner, index[1..])
  {}

  lemma Rewrapped(env: Env, f: Field, v: Val, vals: seq<Val>)
    requires Inlined(f).Some? && |vals| == |Inlined(f).value.fields|
    ensures var w := WrapInner(f, v, vals);
            && InnerVals(env, f, w) == vals && (f.typ.PtrT? ==> WalkOf(w) == WalkOf(v))
            && forall more :: WrapInner(f, w, more) == WrapInner(f, v, more)
  {}

  /// ## Any set of keys

  function Restrict(cs: map<string, Tree>, done: set<string>): map<string, Tree> {
    map k | k in cs && k in done :: cs[k]
  }

  /** The fields of a struct after the keys in `done`, bound in whatever order. */
  ghost function After(env: Env, n: Tree, cs: map<string, Tree>, t: Schema, vals: seq<Val>, path: string,
                       done: set<string>): (r: BoundFields)
    requires t.StructT? && |vals| == |t.fields| && forall x | x in cs :: cs[x] < n
    ensures |r.vals| == |vals| && r.parts.Keys <= cs.Keys * done
  {
    BindFields(env, n, Restrict(cs, done), t, vals, |vals|, path)
  }

  lemma AfterNone(env: Env, n: Tree, cs: map<string, Tree>, t: Schema, vals: seq<Val>, path: string)
    requires t.StructT? && |vals| == |t.fields| && forall x | x in cs :: cs[x] < n
    ensures After(env, n, cs, t, vals, path, {}) == BoundFields(true, {}, vals, map[])
  {
    NoKeys(env, n, Restrict(cs, {}), t, vals, |vals|, path);
  }

  lemma AfterAll(env: Env, n: Tree, cs: map<string, Tree>, t: Schema, vals: seq<Val>, path: string, done: set<string>)
    requires t.StructT? && |vals| == |t.fields| && forall x | x in cs :: cs[x] < n
    requires cs.Keys <= done
    ensures After(env, n, cs, t, vals, path, done) == BindFields(env, n, cs, t, vals, |vals|, path)
  {
    assert Restrict(cs, done) == cs;
  }

  /** One more field, in any order: its place is untouched so far, and only its place changes. */
  lemma AfterOneMore(env: Env, n: Tree, cs: map<string, Tree>, t: Schema, vals: seq<Val>, path: string,
                     done: set<string>, info: FieldInfo)
    requires GoodStruct(t) && |vals| == |t.fields| && forall x | x in cs :: cs[x] < n
    requires info.key in cs && info.key !in done && info in AllInfos(t).value
    ensures var a, b := After(env, n, cs, t, vals, path, done), After(env, n, cs, t, vals, path, done + {info.key});
            var c := ChainWalks(env, t, vals, info.index);
            var x := BindValue(env, cs[info.key], info.typ, GetAt(env, t, a.vals, info.index), JoinPath(path, info.key));
            && Extends(a, b, x, c, info.key) && b.vals == SetAt(env, t, a.vals, info.index, x.v)
            && ChainWalks(env, t, a.vals, info.index) == c
            && GetAt(env, t, a.vals, info.index) == GetAt(env, t, vals, info.index)
            && Leads(t, info.index, info.key, info.typ)
  {
    hide BindFields, BindValue, GetAt, SetAt, ChainWalks, Leads, UniqueKeys;
    ChainOf(t, info);
    assert Restrict(cs, done + {info.key}) == Restrict(cs, done)[info.key := cs[info.key]];
    OneMoreKey(env, n, Restrict(cs, done), t, vals, |vals|, path, info.index, info.key, info.typ, cs[info.key]);
  }

  lemma ChainOf(t: Schema, info: FieldInfo)
    requires GoodStruct(t) && info in AllInfos(t).value
    ensures Leads(t, info.index, info.key, info.typ) && info.index[0] < |t.fields| && UniqueKeys(t, |t.fields|)
  {
    var infos := AllInfos(t).value;
    InfosUnique(t, |t.fields|, []);
    var j :| 0 <= j < |infos| && infos[j] == info;
    InfosLead(t, |t.fields|, [], j);
    assert info.index[0..] == info.index;
  }

  /** The collected field with a given key. */
  lemma FieldOfKey(t: Schema, k: string) returns (info: FieldInfo)
    requires GoodStruct(t) && k in Binding.AllKeys(t)
    ensures info in AllInfos(t).value && info.key == k
  {
    var infos := AllInfos(t).value;
    InfosKeys(t, |t.fields|, [], k);
    var j :| 0 <= j < |infos| && infos[j].key == k;
    info := infos[j];
  }

  /** Binding fewer keys asks for less: it succeeds if binding all does, and does part of what that does. */
  lemma {:induction false} FewerKeys(env: Env, n: Tree, cs: map<string, Tree>, t: Schema, vals: seq<Val>,
                                     path: string, done: set<string>)
    requires GoodStruct(t) && |vals| == |t.fields| && forall x | x in cs :: cs[x] < n
    requires cs.Keys <= Binding.AllKeys(t)
    ensures var a := After(env, n, cs, t, vals, path, done);
            var b := BindFields(env, n, cs, t, vals, |vals|, path);
            (b.ok ==> a.ok) && a.walks <= b.walks && a.parts.Keys <= b.parts.Keys
            && forall k | k in a.parts :: a.parts[k] == b.parts[k]
    decreases |cs.Keys - done|
  {
    hide After, BindFields, BindValue, GetAt, SetAt, ChainWalks, Leads, Binding.AllKeys;
    if cs.Keys <= done {
      AfterAll(env, n, cs, t, vals, path, done);
    } else {
      var k :| k in cs.Keys && k !in done;
      var info := FieldOfKey(t, k);
      AfterOneMore(env, n, cs, t, vals, path, done, info);
      assert k !in After(env, n, cs, t, vals, path, done).parts;
      SmallerSet(cs.Keys - (done + {k}), cs.Keys - done);
      FewerKeys(env, n, cs, t, vals, path, done + {k});
    }
  }

  lemma SmallerSet<T>(a: set<T>, b: set<T>)
    requires a < b
    ensures |a| < |b|
  {
    assert b == a + (b - a);
  }

  /// ## Why the shape theorem leaves out arrays and interfaces

  /** An array passes the shape check of every layer and then binds from nothing. */
  lemma ArraysPassButNeverBind(env: Env, n: Tree, elem: Schema, v: Val, path: string)
    ensures WellShaped(Seq([], ""), ArrayT(elem))
    ensures !BindValue(env, n, ArrayT(elem), v, path).ok
  {}

  /** So does a scalar where a variant is expected. */
  lemma ScalarsPassAsVariants(env: Env, n: Tree, family: nat, empty: bool, v: Val, path: string)
    requires n.Scalar? && family in env.families
    ensures WellShaped(n, IfaceT(family, empty)) && !BindValue(env, n, IfaceT(family, empty), v, path).ok
  {
    assert VariantOf(env.families[family], n).None?;
  }
}
