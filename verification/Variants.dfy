/** The variant registry of internal/variant/variant.go, and what makes its duplicate check exact. */
module Variants {
  import opened Text
  import opened Trees
  import opened Schema
  import opened Binding

  /** Go's `m[k]` on a map of strings: a missing key reads as the empty string. */
  function Lookup(m: map<string, string>, k: string): string {
    if k in m then m[k] else ""
  }

  predicate EqualSelectors(a: map<string, string>, b: map<string, string>) {
    |a| == |b| && forall k | k in a :: Lookup(b, k) == a[k]
  }

  predicate MatchesAll(have: map<string, string>, want: seq<(string, string)>) {
    forall i | 0 <= i < |want| :: Lookup(have, want[i].0) == want[i].1
  }

  /** The instances that satisfy a query. */
  function Matching(insts: seq<Instance>, want: seq<(string, string)>): seq<Instance> {
    if insts == [] then []
    else
      var last := insts[|insts| - 1];
      Matching(insts[..|insts| - 1], want) + if MatchesAll(last.selectors, want) then [last] else []
  }

  datatype Resolution = Found(value: Val) | NotFound | Ambiguous

  function ResolveIn(insts: seq<Instance>, want: seq<(string, string)>): Resolution {
    var ms := Matching(insts, want);
    if |ms| == 1 then Found(ms[0].value) else if ms == [] then NotFound else Ambiguous
  }

  /** No instance counts as a duplicate of a later one. */
  ghost predicate NoDuplicates(insts: seq<Instance>) {
    forall i, j | 0 <= i < j < |insts| :: !EqualSelectors(insts[i].selectors, insts[j].selectors)
  }

  class Registry {
    const familyType: nat
    const family: Family
    var instances: seq<Instance>

    constructor (familyType: nat, family: Family)
      ensures this.familyType == familyType && this.family == family && instances == [] && Distinct()
    {
      this.familyType, this.family := familyType, family;
      instances := [];
    }

    ghost predicate Distinct()
      reads this
    {
      NoDuplicates(instances)
    }

    /** Records an instance unless one with equal selectors is there. */
    method AddInstance(inst: Instance) returns (ok: bool)
      modifies this
      ensures ok <==> forall e | e in old(instances) :: !EqualSelectors(e.selectors, inst.selectors)
      ensures instances == old(instances) + if ok then [inst] else []
      ensures old(Distinct()) ==> Distinct()
    {
      for i := 0 to |instances|
        invariant forall j | 0 <= j < i :: !EqualSelectors(instances[j].selectors, inst.selectors)
      {
        if EqualSelectors(instances[i].selectors, inst.selectors) {
          return false;
        }
      }
      instances := instances + [inst];
      ok := true;
    }

    /** Drops what was registered after the first `n`. */
    method TruncateInstances(n: int)
      modifies this
      ensures instances == if 0 <= n < |old(instances)| then old(instances)[..n] else old(instances)
      ensures old(Distinct()) ==> Distinct()
    {
      if n >= 0 && n < |instances| {
        instances := instances[..n];
      }
    }

    method ClearInstances()
      modifies this
      ensures instances == [] && Distinct()
    {
      instances := [];
    }

    method InstanceCount() returns (n: nat)
      ensures n == |instances|
    {
      n := |instances|;
    }

    method Resolve(want: seq<(string, string)>) returns (r: Resolution)
      ensures r == ResolveIn(instances, want)
    {
      var matches := [];
      for i := 0 to |instances|
        invariant matches == Matching(instances[..i], want)
      {
        assert instances[..i + 1][..i] == instances[..i];
        if MatchesAll(instances[i].selectors, want) {
          matches := matches + [instances[i]];
        }
      }
      assert instances[..|instances|] == instances;
      if |matches| == 1 {
        return Found(matches[0].value);
      }
      r := if |matches| == 0 then NotFound else Ambiguous;
    }
  }

  /// ## Resolution

  ghost predicate OnlyMatch(insts: seq<Instance>, want: seq<(string, string)>, i: nat) {
    && i < |insts| && MatchesAll(insts[i].selectors, want)
    && forall j | 0 <= j < |insts| && j != i :: !MatchesAll(insts[j].selectors, want)
  }

  lemma {:induction false} MatchingNone(insts: seq<Instance>, want: seq<(string, string)>)
    ensures Matching(insts, want) == [] <==> forall j | 0 <= j < |insts| :: !MatchesAll(insts[j].selectors, want)
  {
    hide MatchesAll;
    if insts != [] {
      var init := insts[..|insts| - 1];
      MatchingNone(init, want);
      assert forall j | 0 <= j < |init| :: insts[j] == init[j];
    }
  }

  lemma {:induction false} MatchingOne(insts: seq<Instance>, want: seq<(string, string)>) returns (i: nat)
    requires |Matching(insts, want)| == 1
    ensures OnlyMatch(insts, want, i)
  {
    hide MatchesAll;
    var init := insts[..|insts| - 1];
    assert forall j | 0 <= j < |init| :: insts[j] == init[j];
    if MatchesAll(insts[|insts| - 1].selectors, want) {
      MatchingNone(init, want);
      i := |insts| - 1;
    } else {
      i := MatchingOne(init, want);
    }
  }

  lemma {:induction false} MatchingOnly(insts: seq<Instance>, want: seq<(string, string)>, i: nat)
    requires OnlyMatch(insts, want, i)
    ensures Matching(insts, want) == [insts[i]]
  {
    hide MatchesAll;
    var init := insts[..|insts| - 1];
    assert forall j | 0 <= j < |init| :: insts[j] == init[j];
    if i == |init| {
      MatchingNone(init, want);
    } else {
      MatchingOnly(init, want, i);
    }
  }

  /** A query gives an instance exactly when one and only one satisfies it. */
  lemma ResolveExactlyOne(insts: seq<Instance>, want: seq<(string, string)>)
    ensures ResolveIn(insts, want).Found? <==> exists i: nat :: OnlyMatch(insts, want, i)
    ensures forall i: nat | OnlyMatch(insts, want, i) :: ResolveIn(insts, want) == Found(insts[i].value)
  {
    if ResolveIn(insts, want).Found? {
      var i := MatchingOne(insts, want);
    }
    forall i: nat | OnlyMatch(insts, want, i) ensures ResolveIn(insts, want) == Found(insts[i].value) {
      MatchingOnly(insts, want, i);
    }
  }

  lemma {:induction false} MatchingMultiset(insts: seq<Instance>, want: seq<(string, string)>, x: Instance)
    ensures multiset(Matching(insts, want))[x] == if MatchesAll(x.selectors, want) then multiset(insts)[x] else 0
  {
    if insts != [] {
      MatchingMultiset(insts[..|insts| - 1], want, x);
      assert insts == insts[..|insts| - 1] + [insts[|insts| - 1]];
    }
  }

  /** The order of registration does not matter to a query. */
  lemma ResolvePermutation(a: seq<Instance>, b: seq<Instance>, want: seq<(string, string)>)
    requires multiset(a) == multiset(b)
    ensures ResolveIn(a, want) == ResolveIn(b, want)
  {
    var ma, mb := Matching(a, want), Matching(b, want);
    forall x ensures multiset(ma)[x] == multiset(mb)[x] {
      MatchingMultiset(a, want, x);
      MatchingMultiset(b, want, x);
    }
    assert multiset(ma) == multiset(mb);
    assert |ma| == |multiset(ma)| && |mb| == |multiset(mb)|;
    if |ma| == 1 {
      assert ma[0] in multiset(mb);
    }
  }

  /** A found instance stays found when the query is narrowed by selectors it satisfies. */
  lemma ResolveNarrowed(insts: seq<Instance>, want: seq<(string, string)>, more: seq<(string, string)>, i: nat)
    requires OnlyMatch(insts, want, i) && MatchesAll(insts[i].selectors, more)
    ensures ResolveIn(insts, want + more) == Found(insts[i].value)
  {
    forall j | 0 <= j < |insts| && j != i ensures !MatchesAll(insts[j].selectors, want + more) {
      var k :| 0 <= k < |want| && Lookup(insts[j].selectors, want[k].0) != want[k].1;
      assert (want + more)[k] == want[k];
    }
    assert OnlyMatch(insts, want + more, i);
    ResolveExactlyOne(insts, want + more);
  }

  /// ## When the duplicate check is exact

  /** In general the check is not equality, and not even symmetric. */
  lemma EqualSelectorsIsNotEquality()
    ensures var a, b, c := map["x" := ""], map["y" := ""], map["y" := "v"];
            EqualSelectors(a, b) && a != b && EqualSelectors(a, c) && !EqualSelectors(c, a)
  {
    var a, b, c := map["x" := ""], map["y" := ""], map["y" := "v"];
    assert "x" in a && "x" !in b;
    assert Lookup(a, "y") == "" && c["y"] == "v";
  }

  function SelectorKeys(infos: seq<FieldInfo>): set<string> {
    set i | 0 <= i < |infos| && infos[i].selector :: infos[i].key
  }

  /** The family's discriminator is neither `name` nor a selector field of one of its variants. */
  ghost predicate GoodFamily(fam: Family) {
    && fam.disc != "name"
    && forall name | name in fam.variants && GoodStruct(fam.variants[name].typ) ::
         fam.disc !in SelectorKeys(AllInfos(fam.variants[name].typ).value)
  }

  /** A selector set as binding builds it for this family. */
  ghost predicate Built(fam: Family, s: map<string, string>) {
    && fam.disc in s && s[fam.disc] in fam.variants && GoodStruct(fam.variants[s[fam.disc]].typ)
    && var base := {fam.disc} + SelectorKeys(AllInfos(fam.variants[s[fam.disc]].typ).value);
       s.Keys == base || s.Keys == base + {"name"}
  }

  lemma {:induction false} SelectorFieldsKeys(env: Env, t: Schema, vals: seq<Val>, infos: seq<FieldInfo>)
    requires t.StructT? && |vals| == |t.fields|
    ensures SelectorFields(env, t, vals, infos).Keys == SelectorKeys(infos)
  {
    if infos != [] {
      var init, last := infos[..|infos| - 1], infos[|infos| - 1];
      SelectorFieldsKeys(env, t, vals, init);
      assert SelectorKeys(infos) == SelectorKeys(init) + if last.selector then {last.key} else {};
    }
  }

  /** Binding a variant of a good family builds such a set. */
  lemma SelectorsBuilt(env: Env, fam: Family, name: string, v: Val, path: string)
    requires GoodFamily(fam) && name in fam.variants && GoodStruct(fam.variants[name].typ)
    ensures Built(fam, Selectors(env, fam.disc, name, fam.variants[name].typ, v, path))
  {
    var t := fam.variants[name].typ;
    SelectorFieldsKeys(env, t, FieldVals(env, v, t), AllInfos(t).value);
    var s := Selectors(env, fam.disc, name, t, v, path);
    var base := {fam.disc} + SelectorKeys(AllInfos(t).value);
    assert s[fam.disc] == name;
    if NamingKey(path).None? {
      assert s.Keys == base;
    } else {
      assert s.Keys == base + {"name"};
    }
  }

  /** On the sets binding builds, the check is equality. */
  lemma BuiltEqual(fam: Family, a: map<string, string>, b: map<string, string>)
    requires GoodFamily(fam) && Built(fam, a) && Built(fam, b)
    ensures EqualSelectors(a, b) <==> a == b
  {
    if EqualSelectors(a, b) {
      assert Lookup(b, fam.disc) == a[fam.disc];
      var base := {fam.disc} + SelectorKeys(AllInfos(fam.variants[a[fam.disc]].typ).value);
      assert |a| == |a.Keys| && |b| == |b.Keys|;
      if "name" !in base {
        assert |base + {"name"}| == |base| + 1;
      } else {
        assert base + {"name"} == base;
      }
      assert a.Keys == b.Keys;
      assert a == b;
    }
  }

  ghost predicate GoodFamilies(env: Env) {
    forall f | f in env.families :: GoodFamily(env.families[f])
  }

  ghost predicate AllBuiltFor(env: Env, p: Plan) {
    forall x | Registers(p, x) :: x.family in env.families && Built(env.families[x.family], x.selectors)
  }

  ghost predicate PartsBuilt(env: Env, parts: map<string, Plan>) {
    forall k | k in parts :: AllBuiltFor(env, parts[k])
  }

  lemma BuiltTogether(env: Env, p: Plan, q: Plan, step: Step, keys: set<string>, parts: map<string, Plan>)
    ensures AllBuiltFor(env, Nothing) && AllBuiltFor(env, Breaks)
    ensures AllBuiltFor(env, p) && AllBuiltFor(env, q) ==> AllBuiltFor(env, InTurn(p, q))
    ensures AllBuiltFor(env, p) ==> AllBuiltFor(env, Under(step, p))
    ensures PartsBuilt(env, parts) ==> AllBuiltFor(env, AnyOrder(keys, parts))
  {
    hide Built;
  }

  lemma OneBuilt(env: Env, reg: Reg)
    requires reg.family in env.families && Built(env.families[reg.family], reg.inst.selectors)
    ensures AllBuiltFor(env, Adds(reg))
  {}

  /** Every selector set of a bind was built so. */
  lemma {:induction false} ValueBuilt(env: Env, n: Tree, t: Schema, v: Val, path: string)
    requires GoodFamilies(env)
    ensures AllBuiltFor(env, BindValue(env, n, t, v, path).plan)
    decreases n, 3, t
  {
    hide BindStruct, BindKeys, BindItems, BindVariant, GoodFamily, Built, AllBuiltFor;
    BuiltTogether(env, Nothing, Nothing, InItem(0), {}, map[]);
    match t
    case PtrT(elem) => ValueBuilt(env, n, elem, Pointee(env, v, elem), path);
    case IfaceT(family, _) =>
      if family in env.families {
        VariantBuilt(env, n, family, v, path);
      }
    case StructT(_, _) =>
      if n.Map? {
        StructBuilt(env, n, n.children, t, v, path);
      }
    case MapT(_, elem) =>
      if n.Map? {
        KeysBuilt(env, n, elem, |n.keys|, path);
      }
    case SliceT(elem) =>
      if n.Seq? {
        ItemsBuilt(env, n, elem, |n.items|, path);
      }
    case _ =>
  }

  lemma {:induction false} KeysBuilt(env: Env, n: Tree, elem: Schema, m: nat, path: string)
    requires n.Map? && m <= |n.keys| && GoodFamilies(env)
    ensures AllBuiltFor(env, BindKeys(env, n, elem, m, path).plan)
    decreases n, 1, elem, m
  {
    hide BindValue, GoodFamily, Built, AllBuiltFor;
    BuiltTogether(env, Nothing, Nothing, InItem(0), {}, map[]);
    if m > 0 {
      KeysBuilt(env, n, elem, m - 1, path);
      var key := n.keys[m - 1];
      if key in n.children {
        ValueBuilt(env, n.children[key], elem, Zero(env, elem), JoinPath(path, key));
        var p := BindValue(env, n.children[key], elem, Zero(env, elem), JoinPath(path, key)).plan;
        BuiltTogether(env, p, Nothing, InKey(key), {}, map[]);
        BuiltTogether(env, BindKeys(env, n, elem, m - 1, path).plan, Under(InKey(key), p), InKey(key), {}, map[]);
      }
    }
  }

  lemma {:induction false} ItemsBuilt(env: Env, n: Tree, elem: Schema, m: nat, path: string)
    requires n.Seq? && m <= |n.items| && GoodFamilies(env)
    ensures AllBuiltFor(env, BindItems(env, n, elem, m, path).plan)
    decreases n, 1, elem, m
  {
    hide BindValue, GoodFamily, Built, AllBuiltFor;
    BuiltTogether(env, Nothing, Nothing, InItem(0), {}, map[]);
    if m > 0 {
      ItemsBuilt(env, n, elem, m - 1, path);
      ValueBuilt(env, n.items[m - 1], elem, Zero(env, elem), ItemPath(path, m - 1));
      var p := BindValue(env, n.items[m - 1], elem, Zero(env, elem), ItemPath(path, m - 1)).plan;
      BuiltTogether(env, p, Nothing, InItem(m - 1), {}, map[]);
      BuiltTogether(env, BindItems(env, n, elem, m - 1, path).plan, Under(InItem(m - 1), p), InItem(m - 1), {}, map[]);
    }
  }

  lemma {:induction false} StructBuilt(env: Env, n: Tree, cs: map<string, Tree>, t: Schema, v: Val, path: string)
    requires t.StructT? && GoodFamilies(env) && forall k | k in cs :: cs[k] < n
    ensures AllBuiltFor(env, BindStruct(env, n, cs, t, v, path).plan)
    decreases n, 1, t
  {
    hide BindFields, GoodFamily, Built, AllBuiltFor, PartsBuilt;
    FieldsBuilt(env, n, cs, t, FieldVals(env, v, t), |t.fields|, path);
    BuiltTogether(env, Nothing, Nothing, InItem(0), AllKeys(t),
                  BindFields(env, n, cs, t, FieldVals(env, v, t), |t.fields|, path).parts);
  }

  lemma {:induction false} FieldsBuilt(env: Env, n: Tree, cs: map<string, Tree>, t: Schema, vals: seq<Val>, m: nat, path: string)
    requires t.StructT? && |vals| == |t.fields| && m <= |vals| && GoodFamilies(env) && forall k | k in cs :: cs[k] < n
    ensures PartsBuilt(env, BindFields(env, n, cs, t, vals, m, path).parts)
    decreases n, 0, t, m
  {
    hide BindField, GoodFamily, Built, AllBuiltFor;
    if m > 0 {
      FieldsBuilt(env, n, cs, t, vals, m - 1, path);
      FieldBuilt(env, n, cs, t, m - 1, vals[m - 1], path);
    }
  }

  lemma {:induction false} FieldBuilt(env: Env, n: Tree, cs: map<string, Tree>, t: Schema, i: nat, v: Val, path: string)
    requires t.StructT? && i < |t.fields| && GoodFamilies(env) && forall k | k in cs :: cs[k] < n
    ensures PartsBuilt(env, BindField(env, n, cs, t, i, v, path).parts)
    decreases n, 0, t, i
  {
    hide BindValue, BindFields, GoodFamily, Built, AllBuiltFor;
    var f := t.fields[i];
    if f.tag.Key? && f.tag.key in cs {
      ValueBuilt(env, cs[f.tag.key], f.typ, v, JoinPath(path, f.tag.key));
    } else if f.tag.Inline? && Inlined(f).Some? {
      FieldsBuilt(env, n, cs, Inlined(f).value, InnerVals(env, f, v), |Inlined(f).value.fields|, path);
    }
  }

  lemma {:induction false} VariantBuilt(env: Env, n: Tree, family: nat, v: Val, path: string)
    requires family in env.families && GoodFamilies(env)
    ensures AllBuiltFor(env, BindVariant(env, n, family, v, path).plan)
    decreases n, 2
  {
    hide BindStruct, Selectors, GoodFamily, Built, Selectable, AllBuiltFor;
    BuiltTogether(env, Nothing, Nothing, InItem(0), {}, map[]);
    var fam := env.families[family];
    if VariantOf(fam, n).Some? {
      var (name, variant) := VariantOf(fam, n).value;
      StructBuilt(env, n, n.children - {fam.disc}, variant.typ, variant.make, path);
      if GoodStruct(variant.typ) {
        var b := BindStruct(env, n, n.children - {fam.disc}, variant.typ, variant.make, path);
        SelectorsBuilt(env, fam, name, b.v, path);
        var reg := Reg(family, Instance(Selectors(env, fam.disc, name, variant.typ, b.v, path), New(b.v)));
        OneBuilt(env, reg);
        BuiltTogether(env, b.plan, Adds(reg), InItem(0), {}, map[]);
        BuiltTogether(env, b.plan, Breaks, InItem(0), {}, map[]);
      }
    }
  }

  /** Without it, it is not: when the discriminator is called `name`, the naming key overwrites it, and
      instances of two variants with unlike selector sets count as duplicates. */
  lemma NameDiscriminatorCollides(env: Env, v: Val, w: Val) returns (f: Schema, g: Schema)
    requires forall x :: env.sprint(x) == ""
    ensures f.StructT? && g.StructT? && AllInfos(f).Some? && AllInfos(g).Some?
    ensures var a, b := Selectors(env, "name", "a", f, v, "p"), Selectors(env, "name", "b", g, w, "p");
            a != b && EqualSelectors(a, b)
  {
    f, g := OneField("f"), OneField("g");
    OneFieldSelectors(env, "a", "f", v);
    OneFieldSelectors(env, "b", "g", w);
    hide Selectors, EqualSelectors, AllInfos, OneField;
    UnlikeButEqual();
  }

  lemma UnlikeButEqual()
    ensures var a, b := map["name" := "p", "f" := ""], map["name" := "p", "g" := ""];
            a != b && EqualSelectors(a, b)
  {
    var a, b := map["name" := "p", "f" := ""], map["name" := "p", "g" := ""];
    assert "f" in a && "f" !in b;
    assert a.Keys == {"name", "f"} && b.Keys == {"name", "g"};
    assert |a| == |a.Keys| == 2 && |b| == |b.Keys| == 2;
  }

  function OneField(key: string): (t: Schema)
    ensures t.StructT? && AllInfos(t) == Some([FieldInfo(key, [0], false, true, ScalarT(0))])
  {
    var t := StructT(0, [Field(Key(key, false, true), ScalarT(0))]);
    var info := FieldInfo(key, [] + [0], false, true, ScalarT(0));
    assert Infos(t, 0, []) == Some([]) && InfosOf(t, 0, []) == Some([info]);
    assert [] + [info] == [info] && [] + [0] == [0];
    t
  }

  lemma OneFieldSelectors(env: Env, name: string, key: string, v: Val)
    requires (forall x :: env.sprint(x) == "") && key != "name"
    ensures Selectors(env, "name", name, OneField(key), v, "p") == map["name" := "p", key := ""]
  {
    var t := OneField(key);
    var vals, infos := FieldVals(env, v, t), AllInfos(t).value;
    assert infos[..0] == [];
    assert SelectorFields(env, t, vals, infos) == map[key := ""] by {
      hide GetAt, AllInfos, OneField;
      assert SelectorFields(env, t, vals, infos[..0]) == map[];
    }
    assert NamingKey("p") == Some("p");
  }
}
