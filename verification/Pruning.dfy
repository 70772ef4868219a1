/** What binds also binds without the keys that are not required, at any place, with hooks that accept everything. */
module Pruning {
  import opened Text
  import opened Trees
  import opened Schema
  import opened Binding
  import opened BindingLaws
  import opened Running
  import opened Walks
  import opened Agreement
  import opened Events
  import opened Orders
  import opened UserCode
  import opened Traces
  import opened Paths

  ghost function RequiredKeys(t: Schema): set<string>
    requires GoodStruct(t)
  {
    set info | info in AllInfos(t).value && info.required :: info.key
  }

  /** The same code with hooks that accept everything. */
  function Willing(code: Code): Code {
    code.(hook := (_, _) => true)
  }

  lemma FitsIff(t: Schema, cs: map<string, Tree>)
    requires GoodStruct(t)
    ensures KeysFit(t, cs) <==> RequiredKeys(t) <= cs.Keys <= AllKeys(t)
  {
    var infos := AllInfos(t).value;
    if KeysFit(t, cs) {
      forall k | k in RequiredKeys(t) ensures k in cs {
        var info :| info in infos && info.required && info.key == k;
        var i :| 0 <= i < |infos| && infos[i] == info;
      }
    }
    if RequiredKeys(t) <= cs.Keys <= AllKeys(t) {
      forall i | 0 <= i < |infos| && infos[i].required ensures infos[i].key in cs {
        assert infos[i] in infos && infos[i].key in RequiredKeys(t);
      }
    }
  }

  /** The map the children are from does not matter. */
  lemma {:induction false} FieldsOfAnyMap(env: Env, n: Tree, m: Tree, cs: map<string, Tree>, t: Schema, vals: seq<Val>, i: nat,
                                          path: string)
    requires t.StructT? && |vals| == |t.fields| && i <= |vals| && forall k | k in cs :: cs[k] < n && cs[k] < m
    ensures BindFields(env, n, cs, t, vals, i, path) == BindFields(env, m, cs, t, vals, i, path)
    decreases t, i, 1
  {
    hide BindField;
    if i > 0 {
      FieldsOfAnyMap(env, n, m, cs, t, vals, i - 1, path);
      FieldOfAnyMap(env, n, m, cs, t, i - 1, vals[i - 1], path);
    }
  }

  lemma {:induction false} FieldOfAnyMap(env: Env, n: Tree, m: Tree, cs: map<string, Tree>, t: Schema, i: nat, v: Val,
                                         path: string)
    requires t.StructT? && i < |t.fields| && forall k | k in cs :: cs[k] < n && cs[k] < m
    ensures BindField(env, n, cs, t, i, v, path) == BindField(env, m, cs, t, i, v, path)
    decreases t, i, 0
  {
    hide BindValue, BindFields, BindField;
    var f := t.fields[i];
    if OwnKeys(t, i) !! cs.Keys {
      FieldUntouched(env, n, cs, t, i, v, path);
      FieldUntouched(env, m, cs, t, i, v, path);
    } else if f.tag.Key? {
      FieldKey(env, n, cs, t, i, v, path);
      FieldKey(env, m, cs, t, i, v, path);
    } else {
      FieldsOfAnyMap(env, n, m, cs, Inlined(f).value, InnerVals(env, f, v), |Inlined(f).value.fields|, path);
      FieldEntered(env, n, cs, t, i, v, path);
      FieldEntered(env, m, cs, t, i, v, path);
    }
  }

  /// ## Fewer events

  /** Part of what the fields do, in the same order. */
  ghost predicate PartOf(p: Plan, q: Plan) {
    && p.AnyOrder? && q.AnyOrder? && p.keys == q.keys
    && forall k | k in p.parts :: k in q.parts && p.parts[k] == q.parts[k]
  }

  lemma {:induction false} PartClears(used: set<Sel>, o: Order, p: Plan, q: Plan, todo: set<string>)
    requires PartOf(p, q) && Clear(used, FieldEvents(o, q, todo))
    ensures Clear(used, FieldEvents(o, p, todo))
    ensures forall x | Occurs(FieldEvents(o, p, todo), x) :: Occurs(FieldEvents(o, q, todo), x)
    decreases |todo|
  {
    hide Clear, Clash, Occurs;
    if todo == {} {
      assert FieldEvents(o, p, todo) == FieldEvents(o, q, todo);
    } else {
      var k := o.pick(todo);
      var left := todo - {k};
      ClearTogether(used, PartEvents(o, q, k), FieldEvents(o, q, left));
      PartClears(used, o, p, q, left);
      OnePart(used, o, p, q, k);
      ClearTogether(used, PartEvents(o, p, k), FieldEvents(o, p, left));
      forall x | Occurs(FieldEvents(o, p, todo), x) ensures Occurs(FieldEvents(o, q, todo), x) {
        OccursTogether(PartEvents(o, p, k), FieldEvents(o, p, left), x);
        OccursTogether(PartEvents(o, q, k), FieldEvents(o, q, left), x);
      }
    }
  }

  lemma OnePart(used: set<Sel>, o: Order, p: Plan, q: Plan, k: string)
    requires PartOf(p, q) && Clear(used, PartEvents(o, q, k))
    ensures Clear(used, PartEvents(o, p, k))
    ensures forall x | Occurs(PartEvents(o, p, k), x) :: Occurs(PartEvents(o, q, k), x)
  {
    if k in p.parts {
      assert PartEvents(o, p, k) == PartEvents(o, q, k);
    }
  }

  lemma PartEnds(used: set<Sel>, o: Order, p: Plan, q: Plan)
    requires PartOf(p, q) && End(used, EventsOf(o, q)).None?
    ensures End(used, EventsOf(o, p)).None?
  {
    hide Clear, End;
    EndIff(used, EventsOf(o, q));
    PartClears(used, o, p, q, q.keys);
    EndIff(used, EventsOf(o, p));
  }

  /// ## Fewer keys

  lemma StructPruned(env: Env, code: Code, o: Order, n: Tree, cs: map<string, Tree>, t: Schema, v: Val, p: string,
                     m: Tree, done: set<string>, q: string)
    requires GoodStruct(t) && FreshVariants(env) && RequiredKeys(t) <= done
    requires forall k | k in cs :: cs[k] < n && WF(cs[k]) && (k in done ==> cs[k] < m)
    requires RunStruct(With(env, code), o, n, cs, t, v, p, {}).err.None?
    ensures RequiredKeys(t) <= cs.Keys
    ensures RunStruct(With(env, Willing(code)), o, m, Restrict(cs, done), t, v, q, {}).err.None?
  {
    var e, w, less := With(env, code), With(env, Willing(code)), Restrict(cs, done);
    StillFresh(env, code);
    StillFresh(env, Willing(code));
    StructEnds(e, o, n, cs, t, v, p, {});
    PrunedBinds(env, code, n, cs, t, v, p, m, done, q);
    hide RunStruct, BindStruct, FreshVariants, End, EventsOf;
    PartEnds({}, o, BindStruct(w, m, less, t, v, q).plan, BindStruct(e, n, cs, t, v, p).plan);
    StructEnds(w, o, m, less, t, v, q, {});
  }

  lemma PrunedBinds(env: Env, code: Code, n: Tree, cs: map<string, Tree>, t: Schema, v: Val, p: string,
                    m: Tree, done: set<string>, q: string)
    requires GoodStruct(t) && RequiredKeys(t) <= done
    requires forall k | k in cs :: cs[k] < n && WF(cs[k]) && (k in done ==> cs[k] < m)
    requires BindStruct(With(env, code), n, cs, t, v, p).ok
    ensures RequiredKeys(t) <= cs.Keys
    ensures var b := BindStruct(With(env, Willing(code)), m, Restrict(cs, done), t, v, q);
            b.ok && PartOf(b.plan, BindStruct(With(env, code), n, cs, t, v, p).plan)
  {
    var e, w, less, vals := With(env, code), With(env, Willing(code)), Restrict(cs, done), FieldVals(env, v, t);
    FitsIff(t, cs);
    FitsIff(t, less);
    assert less.Keys == cs.Keys * done;
    FieldValsSame(env, code, v, t);
    FieldValsSame(env, Willing(code), v, t);
    hide BindFields, FieldVals, GoodStruct, AllInfos, AllKeys, RequiredKeys, KeysFit;
    FewerKeys(e, n, cs, t, vals, p, done);
    FieldsOfAnyMap(e, n, m, less, t, vals, |vals|, p);
    FieldsAnywhere(e, m, less, t, vals, |vals|, p, q);
    var b := BindFields(e, m, less, t, vals, |vals|, q);
    Larger(b.vals);
    FieldsAccepted(env, code, Willing(code), Struct(b.vals), m, less, t, vals, |vals|, q);
  }

  lemma Larger(vals: seq<Val>)
    ensures forall i | 0 <= i < |vals| :: !(Struct(vals) < vals[i])
  {
    forall i | 0 <= i < |vals| ensures !(Struct(vals) < vals[i]) {
      assert Struct(vals).fields[i] < Struct(vals);
    }
  }

  /// ## The map without them

  /** The keys of a list that are among some. */
  function Kept(keys: seq<string>, some: set<string>): seq<string> {
    if keys == [] then []
    else
      var last := keys[|keys| - 1];
      Kept(keys[..|keys| - 1], some) + if last in some then [last] else []
  }

  lemma {:induction false} KeptKeys(keys: seq<string>, some: set<string>)
    requires NoDup(keys)
    ensures NoDup(Kept(keys, some)) && SetOf(Kept(keys, some)) == SetOf(keys) * some
  {
    if keys != [] {
      var init, last := keys[..|keys| - 1], keys[|keys| - 1];
      assert keys == init + [last];
      NoDupAppend(init, [last]);
      KeptKeys(init, some);
      assert SetOf([last]) == {last};
      NoDupAppend(Kept(init, some), if last in some then [last] else []);
    }
  }

  function Pruned(n: Tree, some: set<string>): Tree
    requires n.Map?
  {
    Map(Kept(n.keys, some), Restrict(n.children, some), n.file)
  }

  lemma PrunedWF(n: Tree, some: set<string>)
    requires WF(n) && n.Map?
    ensures WF(Pruned(n, some)) && Pruned(n, some).children.Keys == n.children.Keys * some
    ensures forall k | k in Pruned(n, some).children :: Pruned(n, some).children[k] == n.children[k] < Pruned(n, some)
  {
    KeptKeys(n.keys, some);
    var m := Pruned(n, some);
    forall k | k in m.children ensures m.children[k] == n.children[k] && m.children[k] < m {
      assert m.children[k] < m;
    }
  }
}
