/** Collecting a struct's fields and checking one layer, as flexconf/schema.go runs them. */
module Fields {
  import opened Text
  import opened Trees
  import opened Schema

  lemma {:induction false} InfosPrefix(t: Schema, k: nat, m: nat, prefix: seq<nat>)
    requires t.StructT? && k <= m <= |t.fields| && Infos(t, m, prefix).Some?
    ensures Infos(t, k, prefix).Some? && Infos(t, k, prefix).value <= Infos(t, m, prefix).value
  {
    if k < m {
      InfosPrefix(t, k, m - 1, prefix);
    }
  }

  /** No key twice, and none that was there before. */
  ghost predicate Collects(before: map<string, FieldInfo>, infos: seq<FieldInfo>) {
    NoDup(KeysOf(infos)) && SetOf(KeysOf(infos)) !! before.Keys
  }

  lemma {:induction false} IndexKeys(infos: seq<FieldInfo>)
    ensures IndexByKey(infos).Keys == SetOf(KeysOf(infos))
  {
    if infos != [] {
      var init := infos[..|infos| - 1];
      IndexKeys(init);
      assert KeysOf(infos) == KeysOf(init) + [infos[|infos| - 1].key];
    }
  }

  lemma {:induction false} IndexAppend(a: seq<FieldInfo>, b: seq<FieldInfo>)
    ensures IndexByKey(a + b) == IndexByKey(a) + IndexByKey(b)
  {
    if b == [] {
      assert a + b == a;
    } else {
      IndexAppend(a, b[..|b| - 1]);
      assert (a + b)[..|a + b| - 1] == a + b[..|b| - 1];
    }
  }

  lemma CollectsBoth(before: map<string, FieldInfo>, a: seq<FieldInfo>, b: seq<FieldInfo>)
    requires Collects(before, a)
    ensures Collects(before, a + b) <==> Collects(before + IndexByKey(a), b)
  {
    IndexKeys(a);
    assert KeysOf(a + b) == KeysOf(a) + KeysOf(b);
    NoDupAppend(KeysOf(a), KeysOf(b));
    MapUnion(before, IndexByKey(a));
  }

  lemma MapUnion<K, V>(a: map<K, V>, b: map<K, V>)
    ensures (a + b).Keys == a.Keys + b.Keys
  {}

  lemma UnionAssociates<K, V>(a: map<K, V>, b: map<K, V>, c: map<K, V>)
    ensures a + (b + c) == a + b + c
  {}

  lemma CollectsSplit(before: map<string, FieldInfo>, a: seq<FieldInfo>, b: seq<FieldInfo>)
    requires a <= b && Collects(before, b)
    ensures Collects(before, a)
  {
    assert KeysOf(b) == KeysOf(a) + KeysOf(b)[|a|..];
    NoDupAppend(KeysOf(a), KeysOf(b)[|a|..]);
  }

  lemma CollectsOne(before: map<string, FieldInfo>, info: FieldInfo)
    ensures Collects(before, []) && (Collects(before, [info]) <==> info.key !in before)
    ensures IndexByKey([]) == map[] && IndexByKey([info]) == map[info.key := info]
  {
    assert [info][..0] == [];
    assert KeysOf([info]) == [info.key] && KeysOf([]) == [];
    assert SetOf([info.key]) == {info.key};
  }

  /** The map that the recursion over inlined structs fills. */
  class Collector {
    var out: map<string, FieldInfo>

    constructor ()
      ensures out == map[]
    {
      out := map[];
    }

    /** Adds the bindable fields of `t`, or reports a tag error: a tag that does not parse, an inlined
        field that is no struct, or a key that is already taken. */
    method Collect(t: Schema, prefix: seq<nat>) returns (ok: bool)
      requires t.StructT?
      modifies this
      ensures ok <==> Infos(t, |t.fields|, prefix).Some? && Collects(old(out), Infos(t, |t.fields|, prefix).value)
      ensures ok ==> out == old(out) + IndexByKey(Infos(t, |t.fields|, prefix).value)
      decreases t
    {
      hide IndexByKey, KeysOf, NoDup, Collects;
      ghost var all := Infos(t, |t.fields|, prefix);
      CollectsOne(out, FieldInfo("", [], false, false, t));
      for i := 0 to |t.fields|
        invariant Infos(t, i, prefix).Some? && Collects(old(out), Infos(t, i, prefix).value)
        invariant out == old(out) + IndexByKey(Infos(t, i, prefix).value)
      {
        var f := t.fields[i];
        ghost var before, own := Infos(t, i, prefix).value, InfosOf(t, i, prefix);
        if all.Some? {
          InfosPrefix(t, i + 1, |t.fields|, prefix);
          if Collects(old(out), all.value) {
            CollectsSplit(old(out), before + own.value, all.value);
          }
        }
        if own.Some? {
          CollectsBoth(old(out), before, own.value);
          IndexAppend(before, own.value);
          UnionAssociates(old(out), IndexByKey(before), IndexByKey(own.value));
        }
        if f.tag.Skip? {
          assert before + [] == before;
          continue;
        }
        if f.tag.Malformed? {
          return false;
        }
        if f.tag.Inline? {
          var st := Inlined(f);
          if st.None? {
            return false;
          }
          var inner := Collect(st.value, prefix + [i]);
          if !inner {
            return false;
          }
          continue;
        }
        var info := FieldInfo(f.tag.key, prefix + [i], f.tag.required, f.tag.selector, f.typ);
        CollectsOne(out, info);
        if f.tag.key in out {
          return false;
        }
        out := out[f.tag.key := info];
      }
      ok := true;
    }
  }

  /** The bindable fields of a struct type by key, or a tag error. */
  method StructFields(t: Schema) returns (fields: Option<map<string, FieldInfo>>)
    requires t.StructT?
    ensures fields.Some? <==> GoodStruct(t)
    ensures fields.Some? ==> fields.value == IndexByKey(AllInfos(t).value)
  {
    var c := new Collector();
    var ok := c.Collect(t, []);
    fields := if ok then Some(c.out) else None;
  }

  /** Each key leads to the field that has it. */
  lemma {:induction false} IndexFinds(infos: seq<FieldInfo>, i: nat)
    requires NoDup(KeysOf(infos)) && i < |infos|
    ensures infos[i].key in IndexByKey(infos) && IndexByKey(infos)[infos[i].key] == infos[i]
  {
    if i < |infos| - 1 {
      var init := infos[..|infos| - 1];
      assert forall j | 0 <= j < |init| :: KeysOf(init)[j] == KeysOf(infos)[j];
      assert KeysOf(infos)[i] != KeysOf(infos)[|infos| - 1];
      IndexFinds(init, i);
    }
  }

  /** And nothing else is found. */
  lemma {:induction false} IndexFound(infos: seq<FieldInfo>, key: string)
    requires key in IndexByKey(infos)
    ensures IndexByKey(infos)[key] in infos && IndexByKey(infos)[key].key == key
  {
    if infos[|infos| - 1].key != key {
      IndexFound(infos[..|infos| - 1], key);
    }
  }

  /** Checks one layer against the schema. */
  method ValidateShape(n: Tree, t: Schema) returns (ok: bool)
    requires WF(n)
    ensures ok <==> WellShaped(n, t)
    decreases n, t
  {
    match t
    case ScalarT(_) => ok := n.Scalar?;
    case PtrT(elem) => ok := ValidateShape(n, elem);
    case IfaceT(_, _) => ok := true;
    case StructT(_, _) => ok := ValidateStruct(n, t);
    case MapT(_, elem) => ok := ValidateElements(n, elem);
    case SliceT(elem) => ok := ValidateItems(n, elem);
    case ArrayT(elem) => ok := ValidateItems(n, elem);
  }

  method ValidateStruct(n: Tree, t: Schema) returns (ok: bool)
    requires t.StructT? && WF(n)
    ensures ok <==> WellShaped(n, t)
    decreases n, t, 0
  {
    if !n.Map? {
      return false;
    }
    var fields := StructFields(t);
    if fields.None? {
      return false;
    }
    ghost var infos := AllInfos(t).value;
    for i := 0 to |n.keys|
      invariant forall j | 0 <= j < i && n.keys[j] in fields.value ::
        WellShaped(n.children[n.keys[j]], fields.value[n.keys[j]].typ)
    {
      var key := n.keys[i];
      assert key in SetOf(n.keys);
      if key !in fields.value {
        continue;
      }
      IndexFound(infos, key);
      ok := ValidateShape(n.children[key], fields.value[key].typ);
      if !ok {
        ghost var j :| 0 <= j < |infos| && infos[j] == fields.value[key];
        return false;
      }
    }
    forall i, k | 0 <= i < |infos| && k in n.children && infos[i].key == k
      ensures WellShaped(n.children[k], infos[i].typ)
    {
      IndexFinds(infos, i);
      assert k in SetOf(n.keys);
      var j :| 0 <= j < |n.keys| && n.keys[j] == k;
    }
    ok := true;
  }

  method ValidateElements(n: Tree, elem: Schema) returns (ok: bool)
    requires WF(n)
    ensures ok <==> n.Map? && forall k | k in n.children :: WellShaped(n.children[k], elem)
    decreases n, elem, 1
  {
    if !n.Map? {
      return false;
    }
    for i := 0 to |n.keys|
      invariant forall j | 0 <= j < i :: n.keys[j] in n.children && WellShaped(n.children[n.keys[j]], elem)
    {
      assert n.keys[i] in SetOf(n.keys);
      ok := ValidateShape(n.children[n.keys[i]], elem);
      if !ok {
        return;
      }
    }
    forall k | k in n.children ensures WellShaped(n.children[k], elem) {
      assert k in SetOf(n.keys);
      var j :| 0 <= j < |n.keys| && n.keys[j] == k;
    }
    ok := true;
  }

  method ValidateItems(n: Tree, elem: Schema) returns (ok: bool)
    requires WF(n)
    ensures ok <==> n.Seq? && forall i | 0 <= i < |n.items| :: WellShaped(n.items[i], elem)
    decreases n, elem, 1
  {
    if !n.Seq? {
      return false;
    }
    for i := 0 to |n.items|
      invariant forall j | 0 <= j < i :: WellShaped(n.items[j], elem)
    {
      ok := ValidateShape(n.items[i], elem);
      if !ok {
        return;
      }
    }
    ok := true;
  }
}
