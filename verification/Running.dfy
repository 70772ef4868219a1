/** What the binder does, in a given order of visits: every step up to the one it stops at, as a function. The
    binder itself is proved to compute it, and module `Agreement` compares it with the meaning. */
module Running {
  import opened Text
  import opened Trees
  import opened Schema
  import opened Binding
  import opened BindingLaws
  import opened Variants

  datatype Error =
    | KindMismatch
    | BadTag
    | UnknownField
    | MissingRequired
    | BadScalar
    | Invalid
    | BadMapKey
    | Unsupported
    | BadVariant
    | Duplicate
    | Panicked      // not an error of the code: the bind is left by a panic

  /** The errors that remain possible once every layer has passed the shape check. */
  predicate Expected(e: Error) {
    e.UnknownField? || e.MissingRequired? || e.BadScalar? || e.Invalid? || e.BadMapKey?
  }

  function SelsOf(log: seq<Reg>): set<Sel> {
    set r | r in log :: SelOf(r)
  }

  /** `y` counts as a duplicate once `x` is registered. */
  predicate Clash(x: Sel, y: Sel) {
    x.family == y.family && EqualSelectors(x.selectors, y.selectors)
  }

  /** It counts as one of some that are taken. */
  ghost predicate Taken(used: set<Sel>, x: Sel) {
    exists u | u in used :: Clash(u, x)
  }

  /** How a bind in a given order ends, what it leaves in its place, also when it fails, and what it has
      registered by then. `used` are the selector sets that are taken when it starts. */
  datatype Ran = Ran(err: Option<Error>, v: Val, log: seq<Reg>)

  datatype RanFields = RanFields(err: Option<Error>, vals: seq<Val>, log: seq<Reg>)

  ghost function RunValue(env: Env, o: Order, n: Tree, t: Schema, v: Val, path: string, used: set<Sel>): Ran
    decreases n, 4, t
  {
    match t
    case ScalarT(id) => RunScalar(env, n, id, v)
    case PtrT(elem) =>
      var r := RunValue(env, o, n, elem, Pointee(env, v, elem), path, used);
      r.(v := Repoint(v, r.v))
    case IfaceT(family, empty) =>
      if family in env.families then RunVariant(env, o, n, family, v, path, used)
      else if empty then Ran(None, Untyped(n), [])
      else Ran(Some(Unsupported), v, [])
    case StructT(_, _) =>
      if n.Map? then RunStruct(env, o, n, n.children, t, v, path, used) else Ran(Some(KindMismatch), v, [])
    case MapT(stringKeys, elem) =>
      if !stringKeys then Ran(Some(BadMapKey), v, [])
      else if !n.Map? then Ran(Some(KindMismatch), v, [])
      else OnlyWhole(RunKeys(env, o, n, elem, |n.keys|, path, used), v)
    case SliceT(elem) =>
      if !n.Seq? then Ran(Some(KindMismatch), v, [])
      else OnlyWhole(RunItems(env, o, n, elem, |n.items|, path, used), v)
    case ArrayT(_) => Ran(Some(if n.Scalar? then Unsupported else KindMismatch), v, [])
  }

  function RunScalar(env: Env, n: Tree, id: nat, v: Val): Ran {
    if !n.Scalar? then Ran(Some(KindMismatch), v, [])
    else
      match env.coerce(id, n.value)
      case None => Ran(Some(BadScalar), v, [])
      case Some(x) => Ran(if env.scalarHook(id, x) then None else Some(Invalid), Leaf(x), [])
  }

  /** A map or a slice is put in its place only once all of it is bound. */
  function OnlyWhole(r: Ran, v: Val): Ran {
    if r.err.Some? then r.(v := v) else r
  }

  /** The first `m` keys of a map, in its order. */
  ghost function RunKeys(env: Env, o: Order, n: Tree, elem: Schema, m: nat, path: string, used: set<Sel>): (r: Ran)
    requires n.Map? && m <= |n.keys|
    ensures r.v.MapV?
    decreases n, 1, elem, m
  {
    if m == 0 then Ran(None, MapV(map[]), [])
    else
      var a, key := RunKeys(env, o, n, elem, m - 1, path, used), n.keys[m - 1];
      if a.err.Some? || key !in n.children then a
      else
        var b := RunValue(env, o.Below(InKey(key)), n.children[key], elem, Zero(env, elem), JoinPath(path, key),
                          used + SelsOf(a.log));
        Ran(b.err, MapV(a.v.entries[key := b.v]), a.log + b.log)
  }

  /** The first `m` items of a sequence, in its order. */
  ghost function RunItems(env: Env, o: Order, n: Tree, elem: Schema, m: nat, path: string, used: set<Sel>): (r: Ran)
    requires n.Seq? && m <= |n.items|
    ensures r.v.SliceV?
    decreases n, 1, elem, m
  {
    if m == 0 then Ran(None, SliceV([]), [])
    else
      var a := RunItems(env, o, n, elem, m - 1, path, used);
      if a.err.Some? then a
      else
        var b := RunValue(env, o.Below(InItem(m - 1)), n.items[m - 1], elem, Zero(env, elem), ItemPath(path, m - 1),
                          used + SelsOf(a.log));
        Ran(b.err, SliceV(a.v.elems + [b.v]), a.log + b.log)
  }

  /** Strict keys, the fields, and then the hook. */
  ghost function RunStruct(env: Env, o: Order, n: Tree, cs: map<string, Tree>, t: Schema, v: Val, path: string, used: set<Sel>)
    : (r: Ran)
    requires t.StructT? && forall k | k in cs :: cs[k] < n
    ensures r.err.None? ==> GoodStruct(t)
    decreases n, 2, t
  {
    if !GoodStruct(t) then Ran(Some(BadTag), v, [])
    else if !(cs.Keys <= AllKeys(t)) then Ran(Some(UnknownField), v, [])
    else
      var r := RunFields(env, o, n, cs, t, FieldVals(env, v, t), AllKeys(t), path, used);
      if r.err.Some? then Ran(r.err, Struct(r.vals), r.log)
      else Ran(if env.hook(t.name, Struct(r.vals)) then None else Some(Invalid), Struct(r.vals), r.log)
  }

  /** The fields that are left, in the order of visits: one that is there is bound in its place, one that is not
      must not be required. */
  ghost function RunFields(env: Env, o: Order, n: Tree, cs: map<string, Tree>, t: Schema, vals: seq<Val>, todo: set<string>,
                           path: string, used: set<Sel>): (r: RanFields)
    requires GoodStruct(t) && |vals| == |t.fields| && todo <= AllKeys(t) && forall k | k in cs :: cs[k] < n
    ensures |r.vals| == |vals|
    decreases n, 1, t, |todo|
  {
    if todo == {} then RanFields(None, vals, [])
    else
      var k := o.pick(todo);
      var info := FieldAtKey(t, k);
      var left := todo - {k};
      if k !in cs then
        if info.required then RanFields(Some(MissingRequired), vals, [])
        else RunFields(env, o, n, cs, t, vals, left, path, used)
      else
        var r := RunField(env, o, n, cs, t, vals, info, path, used);
        if r.err.Some? then r
        else
          var rest := RunFields(env, o, n, cs, t, r.vals, left, path, used + SelsOf(r.log));
          rest.(log := r.log + rest.log)
  }

  /** One field, in its place. */
  ghost function RunField(env: Env, o: Order, n: Tree, cs: map<string, Tree>, t: Schema, vals: seq<Val>, info: FieldInfo,
                          path: string, used: set<Sel>): (r: RanFields)
    requires t.StructT? && |vals| == |t.fields| && info.key in cs && forall k | k in cs :: cs[k] < n
    ensures |r.vals| == |vals|
    decreases n, 0
  {
    var r := RunValue(env, o.Below(InKey(info.key)), cs[info.key], info.typ, GetAt(env, t, vals, info.index),
                      JoinPath(path, info.key), used);
    RanFields(r.err, SetAt(env, t, vals, info.index, r.v), r.log)
  }

  /** The field of a key. */
  ghost function FieldAtKey(t: Schema, k: string): (info: FieldInfo)
    requires GoodStruct(t) && k in AllKeys(t)
    ensures info in AllInfos(t).value && info.key == k
  {
    var j := KeyIndex(t, k);
    AllInfos(t).value[j]
  }

  ghost function KeyIndex(t: Schema, k: string): (j: nat)
    requires GoodStruct(t) && k in AllKeys(t)
    ensures j < |AllInfos(t).value| && AllInfos(t).value[j].key == k
  {
    InfosKeys(t, |t.fields|, [], k);
    assert exists j: nat :: j < |AllInfos(t).value| && AllInfos(t).value[j].key == k by {
      var keys := KeysOf(AllInfos(t).value);
      assert k in keys;
    }
    var j: nat :| j < |AllInfos(t).value| && AllInfos(t).value[j].key == k;
    j
  }

  ghost function RunVariant(env: Env, o: Order, n: Tree, family: nat, v: Val, path: string, used: set<Sel>): Ran
    requires family in env.families
    decreases n, 3
  {
    var fam := env.families[family];
    match VariantOf(fam, n)
    case None => Ran(Some(BadVariant), v, [])
    case Some((name, variant)) =>
      var r := RunStruct(env, o, n, n.children - {fam.disc}, variant.typ, variant.make, path, used);
      if r.err.Some? then r.(v := v)
      else
        var x := Registered(env, family, name, variant.typ, r.v, path, used + SelsOf(r.log));
        x.(log := r.log + x.log)
  }

  /** The registration of a bound variant: a panic at a selector that cannot be read, or a duplicate. */
  ghost function Registered(env: Env, family: nat, name: string, t: Schema, v: Val, path: string, used: set<Sel>): Ran
    requires family in env.families && GoodStruct(t)
  {
    var reg := Reg(family, Instance(Selectors(env, env.families[family].disc, name, t, v, path), New(v)));
    if !Selectable(env, t, v) then Ran(Some(Panicked), New(v), [])
    else if Taken(used, SelOf(reg)) then Ran(Some(Duplicate), New(v), [])
    else Ran(None, New(v), [reg])
  }

  /** A map or a slice fails as its first part that fails does. */
  lemma {:induction false} KeysFailed(env: Env, o: Order, n: Tree, elem: Schema, m: nat, path: string, used: set<Sel>)
    requires n.Map? && m <= |n.keys|
    ensures RunKeys(env, o, n, elem, m, path, used).err.Some? ==>
              RunKeys(env, o, n, elem, |n.keys|, path, used) == RunKeys(env, o, n, elem, m, path, used)
    decreases |n.keys| - m
  {
    hide RunValue;
    if m < |n.keys| {
      KeysFailed(env, o, n, elem, m + 1, path, used);
    }
  }

  lemma {:induction false} ItemsFailed(env: Env, o: Order, n: Tree, elem: Schema, m: nat, path: string, used: set<Sel>)
    requires n.Seq? && m <= |n.items|
    ensures RunItems(env, o, n, elem, m, path, used).err.Some? ==>
              RunItems(env, o, n, elem, |n.items|, path, used) == RunItems(env, o, n, elem, m, path, used)
    decreases |n.items| - m
  {
    hide RunValue;
    if m < |n.items| {
      ItemsFailed(env, o, n, elem, m + 1, path, used);
    }
  }

  /// ## How a sequence of events ends

  ghost function End(used: set<Sel>, events: seq<Event>): Option<Error>
    decreases |events|
  {
    if events == [] then None
    else
      match events[0]
      case Panic => Some(Panicked)
      case Adding(reg) => if Taken(used, SelOf(reg)) then Some(Duplicate) else End(used + {SelOf(reg)}, events[1..])
  }

  /** The instances registered by then. */
  ghost function Done(used: set<Sel>, events: seq<Event>): seq<Reg>
    decreases |events|
  {
    if events == [] || events[0].Panic? || Taken(used, SelOf(events[0].reg)) then []
    else [events[0].reg] + Done(used + {SelOf(events[0].reg)}, events[1..])
  }

  lemma SelsOfTogether(a: seq<Reg>, b: seq<Reg>)
    ensures SelsOf(a + b) == SelsOf(a) + SelsOf(b)
  {
    assert forall r :: r in a + b <==> r in a || r in b;
  }

  lemma SelsOfOne(reg: Reg)
    ensures SelsOf([reg]) == {SelOf(reg)}
  {
    assert reg in [reg];
  }

  lemma NoSels()
    ensures SelsOf([]) == {}
  {}

  lemma TakenByThen(used: set<Sel>, reg: Reg, rest: seq<Reg>)
    ensures used + SelsOf([reg] + rest) == used + {SelOf(reg)} + SelsOf(rest)
  {
    SelsOfOne(reg);
    SelsOfTogether([reg], rest);
  }

  lemma Associates(reg: Reg, a: seq<Reg>, b: seq<Reg>)
    ensures [reg] + a + b == [reg] + (a + b)
  {}

  /** One sequence after another. */
  lemma {:induction false} EndTogether(used: set<Sel>, a: seq<Event>, b: seq<Event>)
    ensures var after := used + SelsOf(Done(used, a));
            && End(used, a + b) == (if End(used, a).Some? then End(used, a) else End(after, b))
            && Done(used, a + b) == (if End(used, a).Some? then Done(used, a) else Done(used, a) + Done(after, b))
    decreases |a|
  {
    hide Taken, SelsOf;
    if a == [] {
      NoSels();
      assert a + b == b && used + SelsOf([]) == used;
    } else {
      assert (a + b)[1..] == a[1..] + b && (a + b)[0] == a[0];
      if a[0].Adding? && !Taken(used, SelOf(a[0].reg)) {
        var more := used + {SelOf(a[0].reg)};
        var rest := Done(more, a[1..]);
        EndTogether(more, a[1..], b);
        TakenByThen(used, a[0].reg, rest);
        Associates(a[0].reg, rest, Done(more + SelsOf(rest), b));
      }
    }
  }
}
