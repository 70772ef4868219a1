/** What a load can leave behind pointers of the caller: which of them lead to a place that some tree, with some
    user code, changes. The condition is one on the type and the destination alone, and it is exact. */
module Traces {
  import opened Text
  import opened Trees
  import opened Schema
  import opened Binding
  import opened BindingLaws
  import opened Running
  import opened Walks
  import opened Memory
  import opened Agreement
  import opened Events
  import opened Orders
  import opened UserCode

  /// ## Places that a bind can change

  /** Some tree passes the shape check for this type. */
  ghost predicate Shapeable(t: Schema) {
    match t
    case PtrT(elem) => Shapeable(elem)
    case StructT(_, _) => GoodStruct(t)
    case _ => true
  }

  /** Some tree binds to a zero value of this type, with some user code. */
  ghost predicate Bindable(env: Env, elem: Schema, path: string) {
    exists code, o, n | WF(n) && WellShaped(n, elem) ::
      RunValue(With(env, code), o, n, elem, Zero(env, elem), path, {}).err.None?
  }

  /** The variant a tree names, bound from what the factory makes. */
  ghost function MadeAndBound(env: Env, o: Order, n: Tree, family: nat, path: string, used: set<Sel>): Ran
    requires family in env.families && VariantOf(env.families[family], n).Some?
  {
    var fam := env.families[family];
    var variant := VariantOf(fam, n).value.1;
    RunStruct(env, o, n, n.children - {fam.disc}, variant.typ, variant.make, path, used)
  }

  /** Some tree binds to a variant of this family. */
  ghost predicate VariantBinds(env: Env, family: nat, path: string)
    requires family in env.families
  {
    exists code, o, n | WF(n) && VariantOf(env.families[family], n).Some? ::
      MadeAndBound(With(env, code), o, n, family, path, {}).err.None?
  }

  predicate FitsStruct(v: Val, t: Schema)
    requires t.StructT?
  {
    v.Struct? && |v.fields| == |t.fields|
  }

  /** Some tree changes a place of this type that holds `v`: the place itself, not one behind a pointer of the
      caller. */
  ghost predicate CanChange(env: Env, t: Schema, v: Val, path: string)
    decreases t, 1, 0
  {
    match t
    case ScalarT(_) => true
    case PtrT(elem) =>
      if v.Own? || v.Ref? then false else if v.New? then CanChange(env, elem, v.to, path) else Shapeable(elem)
    case IfaceT(family, empty) => if family in env.families then VariantBinds(env, family, path) else empty
    case StructT(_, _) =>
      && GoodStruct(t)
      && (!FitsStruct(v, t) ||
          exists info | info in AllInfos(t).value && Shapeable(info.typ) ::
            ChangesAt(env, t, v.fields, info.index, JoinPath(path, info.key)))
    case MapT(stringKeys, elem) => stringKeys && (v != MapV(map[]) || exists key :: Bindable(env, elem, JoinPath(path, key)))
    case SliceT(elem) => v != SliceV([]) || Bindable(env, elem, ItemPath(path, 0))
    case ArrayT(_) => false
  }

  /** Binding the place an index chain leads to can change the struct itself. */
  ghost predicate ChangesAt(env: Env, t: Schema, vals: seq<Val>, index: seq<nat>, path: string)
    requires t.StructT? && |vals| == |t.fields|
    decreases t, 0, |index|
  {
    && index != [] && index[0] < |vals|
    && var f, v := t.fields[index[0]], vals[index[0]];
       if |index| == 1 then CanChange(env, f.typ, v, path)
       else
         && Inlined(f).Some?
         && var st := Inlined(f).value;
            if f.typ.StructT? then ChangesIn(env, st, v, index[1..], path)
            else if v.Own? || v.Ref? then false
            else if v.New? then ChangesIn(env, st, v.to, index[1..], path)
            else true
  }

  ghost predicate ChangesIn(env: Env, t: Schema, v: Val, index: seq<nat>, path: string)
    requires t.StructT?
    decreases t, 1, 0
  {
    !FitsStruct(v, t) || ChangesAt(env, t, v.fields, index, path)
  }

  /** The pointers of the caller behind which some key leads to a place that some tree changes. */
  ghost function Writable(env: Env, t: Schema, v: Val, path: string): set<nat>
    decreases t, 1, 0
  {
    match t
    case PtrT(elem) =>
      if v.Own? then (if CanChange(env, elem, v.to, path) then {v.addr} else {}) + Writable(env, elem, v.to, path)
      else if v.New? then Writable(env, elem, v.to, path)
      else {}
    case StructT(_, _) =>
      if GoodStruct(t) && FitsStruct(v, t) then
        set info, a | info in AllInfos(t).value && Shapeable(info.typ)
                      && a in WritesAt(env, t, v.fields, info.index, JoinPath(path, info.key)) :: a
      else {}
    case _ => {}
  }

  ghost function WritesAt(env: Env, t: Schema, vals: seq<Val>, index: seq<nat>, path: string): set<nat>
    requires t.StructT? && |vals| == |t.fields|
    decreases t, 0, |index|
  {
    if index == [] || index[0] >= |vals| then {}
    else
      var f, v := t.fields[index[0]], vals[index[0]];
      if |index| == 1 then Writable(env, f.typ, v, path)
      else if Inlined(f).None? then {}
      else
        var st := Inlined(f).value;
        if f.typ.StructT? then WritesIn(env, st, v, index[1..], path)
        else if v.Own? then
          (if ChangesIn(env, st, v.to, index[1..], path) then {v.addr} else {}) + WritesIn(env, st, v.to, index[1..], path)
        else if v.New? then WritesIn(env, st, v.to, index[1..], path)
        else {}
  }

  ghost function WritesIn(env: Env, t: Schema, v: Val, index: seq<nat>, path: string): set<nat>
    requires t.StructT?
    decreases t, 1, 0
  {
    if FitsStruct(v, t) then WritesAt(env, t, v.fields, index, path) else {}
  }

  /// ## What does not depend on anything behind pointers

  lemma {:induction false} CanChangeFlat(env: Env, t: Schema, v: Val, w: Val, path: string)
    requires Flat(v) == Flat(w)
    ensures CanChange(env, t, v, path) == CanChange(env, t, w, path)
    decreases t, 1, 0
  {
    hide Bindable, VariantBinds, Shapeable, AllInfos;
    match t
    case PtrT(elem) =>
      if v.New? {
        CanChangeFlat(env, elem, v.to, w.to, path);
      }
    case StructT(_, _) =>
      if GoodStruct(t) && FitsStruct(v, t) {
        assert FitsStruct(w, t) by {
          assert |Flat(v).fields| == |Flat(w).fields|;
        }
        forall info | info in AllInfos(t).value
          ensures ChangesAt(env, t, v.fields, info.index, JoinPath(path, info.key))
                  == ChangesAt(env, t, w.fields, info.index, JoinPath(path, info.key))
        {
          ChangesAtFlat(env, t, v.fields, w.fields, info.index, JoinPath(path, info.key));
        }
      } else if FitsStruct(w, t) {
        assert |Flat(v).fields| == |Flat(w).fields|;
      }
    case MapT(_, _) => EmptyFlat(v, w);
    case SliceT(_) => EmptyFlat(v, w);
    case _ =>
  }

  lemma EmptyFlat(v: Val, w: Val)
    requires Flat(v) == Flat(w)
    ensures (v == MapV(map[]) <==> w == MapV(map[])) && (v == SliceV([]) <==> w == SliceV([]))
  {
    if v.MapV? {
      assert v.entries.Keys == Flat(v).entries.Keys == Flat(w).entries.Keys == w.entries.Keys;
    }
    if v.SliceV? {
      assert |v.elems| == |Flat(v).elems| == |Flat(w).elems| == |w.elems|;
    }
  }

  lemma {:induction false} ChangesAtFlat(env: Env, t: Schema, vals: seq<Val>, was: seq<Val>, index: seq<nat>, path: string)
    requires t.StructT? && |vals| == |was| == |t.fields| && Flat(Struct(vals)) == Flat(Struct(was))
    ensures ChangesAt(env, t, vals, index, path) == ChangesAt(env, t, was, index, path)
    decreases t, 0, |index|
  {
    if index != [] && index[0] < |vals| {
      SeqsFlat(vals, was);
      var f, v, w := t.fields[index[0]], vals[index[0]], was[index[0]];
      assert Flat(v) == Flat(w);
      if |index| == 1 {
        CanChangeFlat(env, f.typ, v, w, path);
      } else if Inlined(f).Some? {
        var st := Inlined(f).value;
        if f.typ.StructT? {
          ChangesInFlat(env, st, v, w, index[1..], path);
        } else if v.New? {
          ChangesInFlat(env, st, v.to, w.to, index[1..], path);
        }
      }
    }
  }

  lemma {:induction false} ChangesInFlat(env: Env, t: Schema, v: Val, w: Val, index: seq<nat>, path: string)
    requires t.StructT? && Flat(v) == Flat(w)
    ensures FitsStruct(v, t) == FitsStruct(w, t) && ChangesIn(env, t, v, index, path) == ChangesIn(env, t, w, index, path)
    decreases t, 1, 0
  {
    if v.Struct? {
      assert |v.fields| == |Flat(v).fields| == |Flat(w).fields| == |w.fields|;
      if FitsStruct(v, t) {
        assert v == Struct(v.fields) && w == Struct(w.fields);
        ChangesAtFlat(env, t, v.fields, w.fields, index, path);
      }
    }
  }

  /// ## Nothing else changes

  lemma {:induction false} ShapedIsShapeable(n: Tree, t: Schema)
    requires WellShaped(n, t)
    ensures Shapeable(t)
    decreases t
  {
    if t.PtrT? {
      ShapedIsShapeable(n, t.elem);
    }
  }

  /** What succeeds with some sets taken succeeds with none. */
  lemma ValueLessTaken(env: Env, o: Order, n: Tree, t: Schema, v: Val, path: string, used: set<Sel>)
    requires FreshVariants(env) && RunValue(env, o, n, t, v, path, used).err.None?
    ensures RunValue(env, o, n, t, v, path, {}).err.None?
  {
    ValueRuns(env, o, n, t, v, path, used);
    ValueRuns(env, o, n, t, v, path, {});
    hide BindValue, RunValue, FreshVariants, End;
    EventsLessTaken(used, EventsOf(o, BindValue(env, n, t, v, path).plan));
  }

  lemma StructLessTaken(env: Env, o: Order, n: Tree, cs: map<string, Tree>, t: Schema, v: Val, path: string, used: set<Sel>)
    requires t.StructT? && FreshVariants(env) && forall k | k in cs :: cs[k] < n
    requires RunStruct(env, o, n, cs, t, v, path, used).err.None?
    ensures RunStruct(env, o, n, cs, t, v, path, {}).err.None?
  {
    StructRuns(env, o, n, cs, t, v, path, used);
    StructRuns(env, o, n, cs, t, v, path, {});
    hide BindStruct, RunStruct, FreshVariants, End;
    EventsLessTaken(used, EventsOf(o, BindStruct(env, n, cs, t, v, path).plan));
  }

  lemma EventsLessTaken(used: set<Sel>, events: seq<Event>)
    requires End(used, events).None?
    ensures End({}, events).None?
  {
    EndIff(used, events);
    EndIff({}, events);
  }

  lemma {:induction false} EvolvesFollowed(v: Val, w: Val, walks: set<nat>)
    requires Evolves(v, w, walks, {}) && Followed(v)
    ensures Followed(w)
  {
    if w == v {
    } else if Places(w) == {} {
      NoPlacesApart(w);
    } else if v.Struct? {
      forall i | 0 <= i < |w.fields| ensures Followed(w.fields[i]) {
        EvolvesFollowed(v.fields[i], w.fields[i], walks);
      }
    } else {
      EvolvesFollowed(v.to, w.to, walks);
    }
  }

  lemma {:induction false} ZeroFollowed(env: Env, t: Schema)
    ensures Followed(Zero(env, t)) && Places(Zero(env, t)) == {}
  {
    ZeroPlaces(env, t);
    NoPlacesApart(Zero(env, t));
  }

  lemma {:induction false} GetAtFollowed(env: Env, t: Schema, vals: seq<Val>, index: seq<nat>)
    requires t.StructT? && |vals| == |t.fields| && Followed(Struct(vals))
    ensures Followed(GetAt(env, t, vals, index))
    decreases |index|
  {
    if index != [] && index[0] < |vals| {
      assert Followed(Struct(vals).fields[index[0]]);
      if |index| > 1 && Inlined(t.fields[index[0]]).Some? {
        var f, v := t.fields[index[0]], vals[index[0]];
        ZeroFollowed(env, Inlined(f).value);
        assert Followed(Struct(InnerVals(env, f, v)));
        GetAtFollowed(env, Inlined(f).value, InnerVals(env, f, v), index[1..]);
      }
    }
  }

  /** Where nothing can change the struct itself, putting a place back does not. */
  lemma {:induction false} SetAtFlat(env: Env, t: Schema, vals: seq<Val>, index: seq<nat>, key: string, typ: Schema,
                                     x: Val, path: string)
    requires t.StructT? && |vals| == |t.fields| && Leads(t, index, key, typ) && !ChangesAt(env, t, vals, index, path)
    requires !CanChange(env, typ, GetAt(env, t, vals, index), path) ==> Flat(x) == Flat(GetAt(env, t, vals, index))
    requires Followed(Struct(vals))
    ensures Flat(Struct(SetAt(env, t, vals, index, x))) == Flat(Struct(vals))
    decreases |index|
  {
    hide CanChange, SetAt, GetAt, InnerVals, Flat;
    var i := index[0];
    var f, v := t.fields[i], vals[i];
    assert Followed(Struct(vals).fields[i]);
    SetAtOnly(env, t, vals, index, x);
    GetAtField(env, t, vals, index);
    if |index| > 1 {
      var st := Inlined(f).value;
      Deeper(env, t, vals, index, x);
      InnerIs(env, f, v);
      FlatWrapped(f, v, SetAt(env, st, InnerVals(env, f, v), index[1..], x));
      if f.typ.StructT? || v.New? {
        assert FitsStruct(if f.typ.StructT? then v else v.to, st);
        assert Struct(InnerVals(env, f, v)) == if f.typ.StructT? then v else v.to;
        SetAtFlat(env, st, InnerVals(env, f, v), index[1..], key, typ, x, path);
      }
    }
    SeqsFlat(SetAt(env, t, vals, index, x), vals);
  }

  lemma GetAtField(env: Env, t: Schema, vals: seq<Val>, index: seq<nat>)
    requires t.StructT? && |vals| == |t.fields|
    ensures |index| == 1 && index[0] < |vals| ==> GetAt(env, t, vals, index) == vals[index[0]]
  {}

  lemma FlatWrapped(f: Field, v: Val, vals: seq<Val>)
    requires Inlined(f).Some?
    ensures f.typ.StructT? ==> WrapInner(f, v, vals) == Struct(vals)
    ensures f.typ.PtrT? && v.New? && Flat(Struct(vals)) == Flat(v.to) ==> Flat(WrapInner(f, v, vals)) == Flat(v)
    ensures f.typ.PtrT? && v.Own? ==> Flat(WrapInner(f, v, vals)) == Flat(v)
  {}

  /** A run changes nothing about a place that nothing can change. */
  lemma {:induction false} ValueFlat(env: Env, code: Code, o: Order, n: Tree, t: Schema, v: Val, path: string, used: set<Sel>)
    requires FreshVariants(env) && WF(n) && WellShaped(n, t) && Followed(v) && !CanChange(env, t, v, path)
    ensures Flat(RunValue(With(env, code), o, n, t, v, path, used).v) == Flat(v)
    decreases n, 4, t
  {
    hide RunStruct, RunKeys, RunItems, RunVariant, Bindable, VariantBinds, FreshVariants;
    match t
    case ScalarT(_) =>
    case PtrT(elem) =>
      ShapedIsShapeable(n, elem);
      if v.New? {
        ValueFlat(env, code, o, n, elem, v.to, path, used);
      }
    case IfaceT(family, empty) =>
      if family in env.families {
        VariantStays(env, code, o, n, family, v, path, used);
      }
    case StructT(_, _) =>
      ShapedStruct(n, t);
      StructFlat(env, code, o, n, n.children, t, v, path, used);
    case MapT(_, elem) => MapStays(env, code, o, n, t, v, path, used);
    case SliceT(elem) => SliceStays(env, code, o, n, t, v, path, used);
    case ArrayT(_) =>
  }

  lemma ThenVariantBinds(env: Env, code: Code, o: Order, n: Tree, family: nat, path: string, used: set<Sel>)
    requires family in env.families && FreshVariants(env) && WF(n) && VariantOf(env.families[family], n).Some?
    requires MadeAndBound(With(env, code), o, n, family, path, used).err.None?
    ensures VariantBinds(env, family, path)
  {
    var fam := env.families[family];
    var variant, cs := VariantOf(fam, n).value.1, n.children - {fam.disc};
    StructLessTaken(With(env, code), o, n, cs, variant.typ, variant.make, path, used);
    assert MadeAndBound(With(env, code), o, n, family, path, {}).err.None?;
  }

  lemma ThenBindable(env: Env, code: Code, o: Order, n: Tree, elem: Schema, path: string, used: set<Sel>)
    requires FreshVariants(env) && WF(n) && WellShaped(n, elem)
    requires RunValue(With(env, code), o, n, elem, Zero(env, elem), path, used).err.None?
    ensures Bindable(env, elem, path)
  {
    ValueLessTaken(With(env, code), o, n, elem, Zero(env, elem), path, used);
    assert RunValue(With(env, code), o, n, elem, Zero(env, elem), path, {}).err.None?;
  }

  lemma VariantStays(env: Env, code: Code, o: Order, n: Tree, family: nat, v: Val, path: string, used: set<Sel>)
    requires family in env.families && FreshVariants(env) && WF(n) && !VariantBinds(env, family, path)
    ensures RunVariant(With(env, code), o, n, family, v, path, used).v == v
  {
    var e, fam := With(env, code), env.families[family];
    if VariantOf(fam, n).Some? {
      var variant, cs := VariantOf(fam, n).value.1, n.children - {fam.disc};
      if RunStruct(e, o, n, cs, variant.typ, variant.make, path, used).err.None? {
        ThenVariantBinds(env, code, o, n, family, path, used);
      }
    }
    hide RunStruct, FreshVariants, VariantBinds;
  }

  lemma MapStays(env: Env, code: Code, o: Order, n: Tree, t: Schema, v: Val, path: string, used: set<Sel>)
    requires t.MapT? && FreshVariants(env) && WF(n) && WellShaped(n, t) && !CanChange(env, t, v, path)
    ensures RunValue(With(env, code), o, n, t, v, path, used).v == v
  {
    var e := With(env, code);
    if t.stringKeys && n.keys != [] {
      var key := n.keys[0];
      assert key in SetOf(n.keys);
      var below, c := o.Below(InKey(key)), n.children[key];
      ZeroSame(env, code, t.elem);
      assert RunKeys(e, o, n, t.elem, 0, path, used) == Ran(None, MapV(map[]), []);
      var r := RunValue(e, below, c, t.elem, Zero(env, t.elem), JoinPath(path, key), used + SelsOf([]));
      if r.err.None? {
        ThenBindable(env, code, below, c, t.elem, JoinPath(path, key), used + SelsOf([]));
      }
      assert RunKeys(e, o, n, t.elem, 1, path, used).err.Some?;
      KeysFailed(e, o, n, t.elem, 1, path, used);
    }
  }

  lemma SliceStays(env: Env, code: Code, o: Order, n: Tree, t: Schema, v: Val, path: string, used: set<Sel>)
    requires t.SliceT? && FreshVariants(env) && WF(n) && WellShaped(n, t) && !CanChange(env, t, v, path)
    ensures RunValue(With(env, code), o, n, t, v, path, used).v == v
  {
    var e := With(env, code);
    if n.items != [] {
      var below, c := o.Below(InItem(0)), n.items[0];
      ZeroSame(env, code, t.elem);
      assert RunItems(e, o, n, t.elem, 0, path, used) == Ran(None, SliceV([]), []);
      var r := RunValue(e, below, c, t.elem, Zero(env, t.elem), ItemPath(path, 0), used + SelsOf([]));
      if r.err.None? {
        ThenBindable(env, code, below, c, t.elem, ItemPath(path, 0), used + SelsOf([]));
      }
      assert RunItems(e, o, n, t.elem, 1, path, used).err.Some?;
      ItemsFailed(e, o, n, t.elem, 1, path, used);
    }
  }

  /** No field of a struct can change it. */
  ghost predicate FieldsStay(env: Env, t: Schema, vals: seq<Val>, path: string)
    requires GoodStruct(t) && |vals| == |t.fields|
  {
    forall info | info in AllInfos(t).value && Shapeable(info.typ) ::
      !ChangesAt(env, t, vals, info.index, JoinPath(path, info.key))
  }

  lemma {:induction false} StructFlat(env: Env, code: Code, o: Order, n: Tree, cs: map<string, Tree>, t: Schema, v: Val,
                                      path: string, used: set<Sel>)
    requires t.StructT? && FreshVariants(env) && ShapedFields(cs, t) && forall k | k in cs :: cs[k] < n && WF(cs[k])
    requires Followed(v) && !CanChange(env, t, v, path)
    ensures Flat(RunStruct(With(env, code), o, n, cs, t, v, path, used).v) == Flat(v)
    decreases n, 2, t
  {
    hide RunFields, ChangesAt, FreshVariants;
    if cs.Keys <= AllKeys(t) {
      assert v == Struct(v.fields) && FieldsStay(env, t, v.fields, path);
      FieldsFlat(env, code, o, n, cs, t, v.fields, AllKeys(t), path, used);
    }
  }

  lemma {:induction false} FieldsFlat(env: Env, code: Code, o: Order, n: Tree, cs: map<string, Tree>, t: Schema, vals: seq<Val>,
                                      todo: set<string>, path: string, used: set<Sel>)
    requires GoodStruct(t) && FreshVariants(env) && ShapedFields(cs, t) && forall k | k in cs :: cs[k] < n && WF(cs[k])
    requires |vals| == |t.fields| && todo <= AllKeys(t) && Followed(Struct(vals)) && FieldsStay(env, t, vals, path)
    ensures Flat(Struct(RunFields(With(env, code), o, n, cs, t, vals, todo, path, used).vals)) == Flat(Struct(vals))
    decreases n, 1, t, |todo|
  {
    hide ChangesAt, RunField, FreshVariants, ShapedFields, FieldsStay, Flat, Followed;
    if todo != {} {
      var k := o.pick(todo);
      var info, left := FieldAtKey(t, k), todo - {k};
      if k in cs {
        var r := RunField(With(env, code), o, n, cs, t, vals, info, path, used);
        FieldFlat(env, code, o, n, cs, t, vals, info, path, used);
        if r.err.None? {
          FieldsFlat(env, code, o, n, cs, t, r.vals, left, path, used + SelsOf(r.log));
        }
      } else if !info.required {
        FieldsFlat(env, code, o, n, cs, t, vals, left, path, used);
      }
    }
  }

  lemma {:induction false} FieldFlat(env: Env, code: Code, o: Order, n: Tree, cs: map<string, Tree>, t: Schema, vals: seq<Val>,
                                     info: FieldInfo, path: string, used: set<Sel>)
    requires GoodStruct(t) && FreshVariants(env) && ShapedFields(cs, t) && forall k | k in cs :: cs[k] < n && WF(cs[k])
    requires |vals| == |t.fields| && Followed(Struct(vals)) && FieldsStay(env, t, vals, path)
    requires info in AllInfos(t).value && info.key in cs
    ensures var r := RunField(With(env, code), o, n, cs, t, vals, info, path, used);
            Flat(Struct(r.vals)) == Flat(Struct(vals)) && Followed(Struct(r.vals)) && FieldsStay(env, t, r.vals, path)
    decreases n, 0
  {
    var e, at, c := With(env, code), GetAt(env, t, vals, info.index), cs[info.key];
    var below, p := o.Below(InKey(info.key)), JoinPath(path, info.key);
    var x := RunValue(e, below, c, info.typ, at, p, used).v;
    var r := RunField(e, o, n, cs, t, vals, info, path, used);
    ChainOf(t, info);
    assert WellShaped(c, info.typ);
    ShapedIsShapeable(c, info.typ);
    PlaceSame(env, code, t, vals, info.index, x);
    GetAtFollowed(env, t, vals, info.index);
    if !CanChange(env, info.typ, at, p) {
      ValueFlat(env, code, below, c, info.typ, at, p, used);
    }
    assert !ChangesAt(env, t, vals, info.index, p);
    hide RunValue, BindValue, GetAt, SetAt, ChainWalks, CanChange, ChangesAt, FreshVariants, ShapedFields, Flat, Followed,
         Leads, Evolves,
         WellShaped, Shapeable, AllInfos, GoodStruct;
    SetAtFlat(env, t, vals, info.index, info.key, info.typ, x, p);
    ValueRuns(e, below, c, info.typ, at, p, used);
    var walks, chain := BindValue(e, c, info.typ, at, p).walks, ChainWalks(env, t, vals, info.index);
    EvolvesMore(at, x, walks, walks + chain, {});
    PlaceEvolved(env, t, vals, info.index, info.key, info.typ, x, walks + chain);
    EvolvesFollowed(Struct(vals), Struct(r.vals), walks + chain);
    StaysStaying(env, t, vals, r.vals, path);
  }

  lemma StaysStaying(env: Env, t: Schema, vals: seq<Val>, was: seq<Val>, path: string)
    requires GoodStruct(t) && |vals| == |was| == |t.fields| && Flat(Struct(vals)) == Flat(Struct(was))
    requires FieldsStay(env, t, vals, path)
    ensures FieldsStay(env, t, was, path)
  {
    hide ChangesAt, Flat;
    forall info | info in AllInfos(t).value && Shapeable(info.typ)
      ensures !ChangesAt(env, t, was, info.index, JoinPath(path, info.key))
    {
      ChangesAtFlat(env, t, vals, was, info.index, JoinPath(path, info.key));
    }
  }

  /// ## No trace

  /** What can be written lies somewhere in the value. */
  lemma {:induction false} WritablePlaces(env: Env, t: Schema, v: Val, path: string)
    ensures Writable(env, t, v, path) <= Places(v)
    decreases t, 1, 0
  {
    hide CanChange, Shapeable, AllInfos;
    match t
    case PtrT(elem) =>
      if v.Own? || v.New? {
        WritablePlaces(env, elem, v.to, path);
      }
    case StructT(_, _) =>
      if GoodStruct(t) && FitsStruct(v, t) {
        forall info | info in AllInfos(t).value
          ensures WritesAt(env, t, v.fields, info.index, JoinPath(path, info.key)) <= Places(v)
        {
          WritesAtPlaces(env, t, v.fields, info.index, JoinPath(path, info.key));
        }
        assert v == Struct(v.fields);
      }
    case _ =>
  }

  lemma {:induction false} WritesAtPlaces(env: Env, t: Schema, vals: seq<Val>, index: seq<nat>, path: string)
    requires t.StructT? && |vals| == |t.fields|
    ensures WritesAt(env, t, vals, index, path) <= Places(Struct(vals))
    decreases t, 0, |index|
  {
    hide ChangesIn;
    if index != [] && index[0] < |vals| {
      var f, v := t.fields[index[0]], vals[index[0]];
      assert Places(Struct(vals).fields[index[0]]) <= Places(Struct(vals));
      if |index| == 1 {
        WritablePlaces(env, f.typ, v, path);
      } else if Inlined(f).Some? {
        var st, w := Inlined(f).value, if v.Own? || v.New? then v.to else v;
        WritesInPlaces(env, st, w, index[1..], path);
      }
    }
  }

  lemma {:induction false} WritesInPlaces(env: Env, t: Schema, v: Val, index: seq<nat>, path: string)
    requires t.StructT?
    ensures WritesIn(env, t, v, index, path) <= Places(v)
    decreases t, 1, 0
  {
    if FitsStruct(v, t) {
      WritesAtPlaces(env, t, v.fields, index, path);
      assert v == Struct(v.fields);
    }
  }

  /** A bind that walks no pointer changes nothing in memory. */
  lemma {:induction false} EvolvesUnwalked(h: Heap, v: Val, w: Val)
    requires Evolves(v, w, {}, {}) && Backed(h, v)
    ensures Backed(h, w)
  {
    if w == v {
    } else if Places(w) == {} {
      NoPlacesBacked(h, w);
    } else if v.Struct? {
      forall i | 0 <= i < |w.fields| ensures Backed(h, w.fields[i]) {
        EvolvesUnwalked(h, v.fields[i], w.fields[i]);
      }
    } else {
      EvolvesUnwalked(h, v.to, w.to);
    }
  }

  /** A place inside a settled struct that no key can write behind. */
  lemma {:induction false} PlaceQuiet(h: Heap, env: Env, t: Schema, vals: seq<Val>, index: seq<nat>, key: string,
                                      typ: Schema, path: string)
    requires t.StructT? && |vals| == |t.fields| && Leads(t, index, key, typ)
    requires Settled(Struct(vals)) && Backed(h, Struct(vals)) && WritesAt(env, t, vals, index, path) == {}
    ensures var v := GetAt(env, t, vals, index); Settled(v) && Backed(h, v) && Writable(env, typ, v, path) == {}
    decreases |index|, 0
  {
    hide CanChange, Writable, ChangesIn;
    var f, v := t.fields[index[0]], vals[index[0]];
    assert Settled(Struct(vals).fields[index[0]]) && Backed(h, Struct(vals).fields[index[0]]);
    if |index| > 1 {
      var st, w := Inlined(f).value, if f.typ.PtrT? && v.Own? then v.to else v;
      var inner := InnerVals(env, f, v);
      if FitsStruct(w, st) && (f.typ.StructT? || v.Own?) {
        assert w == Struct(inner);
        PlaceQuiet(h, env, st, inner, index[1..], key, typ, path);
      } else {
        ZeroQuiet(h, env, st, index[1..], key, typ, path);
      }
    }
  }

  lemma {:induction false} ZeroSettled(env: Env, t: Schema)
    ensures Settled(Zero(env, t))
  {
    if t.StructT? {
      forall i | 0 <= i < |t.fields| ensures Settled(Zero(env, t.fields[i].typ)) {
        ZeroSettled(env, t.fields[i].typ);
      }
    }
  }

  lemma ZeroQuiet(h: Heap, env: Env, t: Schema, index: seq<nat>, key: string, typ: Schema, path: string)
    requires t.StructT? && Leads(t, index, key, typ)
    ensures var v := GetAt(env, t, Zero(env, t).fields, index); Settled(v) && Backed(h, v) && Writable(env, typ, v, path) == {}
    decreases |index|, 1
  {
    ZeroSettled(env, t);
    ZeroPlaces(env, t);
    NoPlacesBacked(h, Zero(env, t));
    WritesAtPlaces(env, t, Zero(env, t).fields, index, path);
    assert Struct(Zero(env, t).fields) == Zero(env, t);
    PlaceQuiet(h, env, t, Zero(env, t).fields, index, key, typ, path);
  }

  lemma {:induction false} PutPlainly(h: Heap, env: Env, t: Schema, vals: seq<Val>, index: seq<nat>, x: Val)
    requires t.StructT? && |vals| == |t.fields| && Places(Struct(vals)) == {} && Backed(h, x)
    ensures Backed(h, Struct(SetAt(env, t, vals, index, x)))
    decreases |index|
  {
    NoPlacesBacked(h, Struct(vals));
    if index != [] && index[0] < |vals| {
      var i := index[0];
      assert Places(Struct(vals).fields[i]) <= Places(Struct(vals));
      if |index| > 1 && Inlined(t.fields[i]).Some? {
        var f, v := t.fields[i], vals[i];
        ZeroPlaces(env, Inlined(f).value);
        FieldPlaces(env, if f.typ.StructT? then v else Pointee(env, v, Inlined(f).value), Inlined(f).value);
        assert Places(Struct(InnerVals(env, f, v))) == {};
        PutPlainly(h, env, Inlined(f).value, InnerVals(env, f, v), index[1..], x);
      }
    }
  }

  /** Putting a place back changes nothing in memory, if no key can write behind a pointer there. `was` are the
      fields before the bind, `vals` those by then. */
  lemma {:induction false} PutQuietly(h: Heap, env: Env, t: Schema, was: seq<Val>, vals: seq<Val>, index: seq<nat>, key: string,
                                      typ: Schema, x: Val, walks: set<nat>, path: string)
    requires t.StructT? && |was| == |vals| == |t.fields| && Leads(t, index, key, typ)
    requires Settled(Struct(was)) && Backed(h, Struct(was)) && Backed(h, Struct(vals)) && Backed(h, x)
    requires Evolves(Struct(was), Struct(vals), walks, {}) && WritesAt(env, t, was, index, path) == {}
    requires GetAt(env, t, vals, index) == GetAt(env, t, was, index)
    requires !CanChange(env, typ, GetAt(env, t, was, index), path) ==> Flat(x) == Flat(GetAt(env, t, was, index))
    ensures Backed(h, Struct(SetAt(env, t, vals, index, x)))
    decreases |index|, 1
  {
    hide CanChange, Writable, WritesAt, ChangesIn, WritesIn, SetAt, GetAt, Flat, Evolves, InnerVals, WrapInner, Backed, Settled,
         Leads;
    LeadsDeeper(t, index, key, typ);
    var i := index[0];
    var f, v, w := t.fields[i], was[i], vals[i];
    FieldsEvolve(Struct(was), Struct(vals), walks, {}, i);
    OneField(h, was, vals, i);
    SetAtOnly(env, t, vals, index, x);
    if |index| > 1 {
      PlaceBelow(env, t, was, index, x);
      PlaceBelow(env, t, vals, index, x);
      WritesDeeper(env, t, was, index, path);
      PutInner(h, env, f, v, w, index[1..], key, typ, x, walks, path);
    }
    OneBacked(h, vals, SetAt(env, t, vals, index, x), i);
  }

  lemma LeadsDeeper(t: Schema, index: seq<nat>, key: string, typ: Schema)
    requires t.StructT? && Leads(t, index, key, typ)
    ensures index != [] && index[0] < |t.fields| && (|index| == 1 ==> t.fields[index[0]].typ == typ)
    ensures |index| > 1 ==>
              Inlined(t.fields[index[0]]).Some? && Leads(Inlined(t.fields[index[0]]).value, index[1..], key, typ)
  {}

  lemma PlaceBelow(env: Env, t: Schema, vals: seq<Val>, index: seq<nat>, x: Val)
    requires t.StructT? && |vals| == |t.fields| && |index| > 1 && index[0] < |vals|
    requires Inlined(t.fields[index[0]]).Some?
    ensures var f, v, rest := t.fields[index[0]], vals[index[0]], index[1..];
            var st, inner := Inlined(f).value, InnerVals(env, f, v);
            && GetAt(env, t, vals, index) == GetAt(env, st, inner, rest)
            && SetAt(env, t, vals, index, x)[index[0]] == WrapInner(f, v, SetAt(env, st, inner, rest, x))
  {
    Deeper(env, t, vals, index, x);
  }

  /** The same for the field that inlines the place. */
  lemma {:induction false} PutInner(h: Heap, env: Env, f: Field, v: Val, w: Val, index: seq<nat>, key: string, typ: Schema,
                                    x: Val, walks: set<nat>, path: string)
    requires Inlined(f).Some? && Leads(Inlined(f).value, index, key, typ)
    requires Settled(v) && Backed(h, v) && Backed(h, w) && Backed(h, x) && Evolves(v, w, walks, {})
    requires f.typ.StructT? ==> WritesIn(env, f.typ, v, index, path) == {}
    requires f.typ.PtrT? && v.Own? ==>
               WritesIn(env, Inlined(f).value, v.to, index, path) == {} && !ChangesIn(env, Inlined(f).value, v.to, index, path)
    requires var st := Inlined(f).value;
             var at := GetAt(env, st, InnerVals(env, f, v), index);
             && GetAt(env, st, InnerVals(env, f, w), index) == at && (!CanChange(env, typ, at, path) ==> Flat(x) == Flat(at))
    ensures Backed(h, WrapInner(f, w, SetAt(env, Inlined(f).value, InnerVals(env, f, w), index, x)))
    decreases |index|, 4
  {
    hide CanChange, Writable, WritesAt, ChangesIn, WritesIn, SetAt, GetAt, Flat, Evolves, InnerVals, WrapInner, Backed, Settled,
         Leads;
    var st := Inlined(f).value;
    InnerIs(env, f, v);
    InnerIs(env, f, w);
    if f.typ.StructT? {
      PutInStruct(h, env, st, v, w, index, key, typ, x, walks, path);
    } else if w.Own? {
      OwnEvolves(h, v, w, walks);
      PutBehind(h, env, st, v.to, w.to, index, key, typ, x, walks, path);
      OwnBacked(h, f, w, SetAt(env, st, InnerVals(env, f, w), index, x));
    } else {
      if w.New? {
        NewEvolves(v, w, walks);
      }
      PutInNew(h, env, f, w, index, x);
    }
  }

  lemma OneField(h: Heap, was: seq<Val>, vals: seq<Val>, i: nat)
    requires i < |was| == |vals| && Settled(Struct(was)) && Backed(h, Struct(was)) && Backed(h, Struct(vals))
    ensures Settled(was[i]) && Backed(h, was[i]) && Backed(h, vals[i])
  {
    assert Settled(Struct(was).fields[i]) && Backed(h, Struct(was).fields[i]) && Backed(h, Struct(vals).fields[i]);
  }

  lemma OneBacked(h: Heap, vals: seq<Val>, after: seq<Val>, i: nat)
    requires i < |vals| == |after| && Backed(h, Struct(vals)) && Backed(h, after[i])
    requires forall j | 0 <= j < |vals| && j != i :: after[j] == vals[j]
    ensures Backed(h, Struct(after))
  {
    forall j | 0 <= j < |vals| ensures Backed(h, Struct(after).fields[j]) {
      assert Backed(h, Struct(vals).fields[j]);
    }
  }

  /** What cannot be written below a struct cannot be written below its field. */
  lemma WritesDeeper(env: Env, t: Schema, vals: seq<Val>, index: seq<nat>, path: string)
    requires t.StructT? && |vals| == |t.fields| && |index| > 1 && index[0] < |vals| && Inlined(t.fields[index[0]]).Some?
    requires WritesAt(env, t, vals, index, path) == {}
    ensures var f, v := t.fields[index[0]], vals[index[0]];
            var st := Inlined(f).value;
            && (f.typ.StructT? ==> WritesIn(env, st, v, index[1..], path) == {})
            && (f.typ.PtrT? && v.Own? ==>
                  WritesIn(env, st, v.to, index[1..], path) == {} && !ChangesIn(env, st, v.to, index[1..], path))
  {
    hide WritesIn, ChangesIn;
  }

  lemma InnerIs(env: Env, f: Field, v: Val)
    requires Inlined(f).Some?
    ensures f.typ.StructT? ==> InnerVals(env, f, v) == FieldVals(env, v, f.typ)
    ensures f.typ.StructT? ==> forall vals :: WrapInner(f, v, vals) == Struct(vals)
    ensures f.typ.PtrT? && IsPointer(v) ==> InnerVals(env, f, v) == FieldVals(env, v.to, Inlined(f).value)
  {}

  lemma OwnEvolves(h: Heap, v: Val, w: Val, walks: set<nat>)
    requires w.Own? && Evolves(v, w, walks, {}) && Settled(v) && Backed(h, v) && Backed(h, w)
    ensures v.Own? && v.addr == w.addr && Evolves(v.to, w.to, walks, {})
    ensures Settled(v.to) && Backed(h, v.to) && Backed(h, w.to) && Flat(v.to) == Flat(w.to)
  {}

  lemma NewEvolves(v: Val, w: Val, walks: set<nat>)
    requires w.New? && Evolves(v, w, walks, {}) && Settled(v)
    ensures Places(w) == {}
  {}

  lemma OwnBacked(h: Heap, f: Field, w: Val, vals: seq<Val>)
    requires f.typ.PtrT? && w.Own? && Backed(h, w) && Backed(h, Struct(vals)) && Flat(Struct(vals)) == Flat(w.to)
    ensures Backed(h, WrapInner(f, w, vals))
  {}

  /** Inside a struct. */
  lemma {:induction false} PutInStruct(h: Heap, env: Env, t: Schema, v: Val, w: Val, index: seq<nat>, key: string, typ: Schema,
                                       x: Val, walks: set<nat>, path: string)
    requires t.StructT? && Leads(t, index, key, typ)
    requires Settled(v) && Backed(h, v) && Backed(h, w) && Backed(h, x)
    requires Evolves(v, w, walks, {}) && WritesIn(env, t, v, index, path) == {}
    requires GetAt(env, t, FieldVals(env, w, t), index) == GetAt(env, t, FieldVals(env, v, t), index)
    requires var at := GetAt(env, t, FieldVals(env, v, t), index); !CanChange(env, typ, at, path) ==> Flat(x) == Flat(at)
    ensures Backed(h, Struct(SetAt(env, t, FieldVals(env, w, t), index, x)))
    decreases |index|, 2
  {
    hide CanChange, WritesAt, SetAt, GetAt, Flat, Evolves, FieldVals, Leads;
    InnerQuietly(h, env, t, v, w, walks);
    if Places(Struct(FieldVals(env, w, t))) == {} {
      PutPlainly(h, env, t, FieldVals(env, w, t), index, x);
    } else {
      PutQuietly(h, env, t, FieldVals(env, v, t), FieldVals(env, w, t), index, key, typ, x, walks, path);
    }
  }

  /** Behind a pointer of the caller: there nothing changes at all. */
  lemma {:induction false} PutBehind(h: Heap, env: Env, t: Schema, v: Val, w: Val, index: seq<nat>, key: string, typ: Schema,
                                     x: Val, walks: set<nat>, path: string)
    requires t.StructT? && Leads(t, index, key, typ)
    requires Settled(v) && Backed(h, v) && Backed(h, w) && Backed(h, x) && Flat(v) == Flat(w)
    requires Evolves(v, w, walks, {}) && WritesIn(env, t, v, index, path) == {} && !ChangesIn(env, t, v, index, path)
    requires GetAt(env, t, FieldVals(env, w, t), index) == GetAt(env, t, FieldVals(env, v, t), index)
    requires var at := GetAt(env, t, FieldVals(env, v, t), index); !CanChange(env, typ, at, path) ==> Flat(x) == Flat(at)
    ensures var after := Struct(SetAt(env, t, FieldVals(env, w, t), index, x)); Backed(h, after) && Flat(after) == Flat(w)
    decreases |index|, 3
  {
    hide CanChange, ChangesAt, WritesAt, SetAt, GetAt, Flat, Evolves, Leads, Backed, Settled;
    ChangesInFlat(env, t, v, w, index, path);
    assert v == Struct(v.fields) && w == Struct(w.fields);
    PutInStruct(h, env, t, v, w, index, key, typ, x, walks, path);
    SettledFollowed(v);
    EvolvesFollowed(v, w, walks);
    SetAtFlat(env, t, w.fields, index, key, typ, x, path);
  }

  /** In a struct of this load. */
  lemma PutInNew(h: Heap, env: Env, f: Field, w: Val, index: seq<nat>, x: Val)
    requires Inlined(f).Some? && f.typ.PtrT? && !w.Own? && Backed(h, w) && Backed(h, x)
    requires w.New? ==> Places(w) == {}
    ensures Backed(h, WrapInner(f, w, SetAt(env, Inlined(f).value, InnerVals(env, f, w), index, x)))
  {
    hide SetAt, FieldVals;
    var st := Inlined(f).value;
    ZeroPlaces(env, st);
    FieldPlaces(env, Pointee(env, w, st), st);
    NoFieldPlaces(InnerVals(env, f, w), Pointee(env, w, st));
    PutPlainly(h, env, st, InnerVals(env, f, w), index, x);
  }

  lemma NoFieldPlaces(vals: seq<Val>, v: Val)
    requires Places(v) == {} && forall i | 0 <= i < |vals| :: Places(vals[i]) <= Places(v)
    ensures Places(Struct(vals)) == {}
  {}

  lemma SetAtOnly(env: Env, t: Schema, vals: seq<Val>, index: seq<nat>, x: Val)
    requires t.StructT? && |vals| == |t.fields|
    ensures forall j | 0 <= j < |vals| && (index == [] || j != index[0]) :: SetAt(env, t, vals, index, x)[j] == vals[j]
    ensures |index| == 1 && index[0] < |vals| ==> SetAt(env, t, vals, index, x)[index[0]] == x
  {}

  /** An inlined struct by then: what it was, evolved; or nothing of the caller is in it. */
  lemma InnerQuietly(h: Heap, env: Env, t: Schema, v: Val, w: Val, walks: set<nat>)
    requires t.StructT? && Evolves(v, w, walks, {}) && Settled(v) && Backed(h, v) && Backed(h, w)
    ensures Places(Struct(FieldVals(env, w, t))) == {} ||
            (FitsStruct(v, t) && FitsStruct(w, t) && v == Struct(FieldVals(env, v, t)) && w == Struct(FieldVals(env, w, t)))
  {
    ZeroPlaces(env, t);
    if FitsStruct(w, t) {
      assert w == Struct(w.fields);
    } else {
      assert Struct(FieldVals(env, w, t)) == Zero(env, t);
    }
  }

  /** A run into a place with no pointer that can be written behind leaves memory as it was, however it ends. */
  lemma {:induction false} ValueQuiet(h: Heap, env: Env, code: Code, o: Order, n: Tree, t: Schema, v: Val, path: string,
                                      used: set<Sel>)
    requires FreshVariants(env) && WF(n) && WellShaped(n, t) && Settled(v) && Backed(h, v) && Writable(env, t, v, path) == {}
    ensures Backed(h, RunValue(With(env, code), o, n, t, v, path, used).v)
    decreases n, 4, t
  {
    hide RunStruct, RunKeys, RunItems, RunVariant, FreshVariants, CanChange, Evolves, Agrees, Places;
    var e, r := With(env, code), RunValue(With(env, code), o, n, t, v, path, used);
    StillFresh(env, code);
    match t
    case ScalarT(_) =>
    case PtrT(elem) =>
      if v.Own? {
        SettledFollowed(v.to);
        ValueFlat(env, code, o, n, elem, v.to, path, used);
        ValueQuiet(h, env, code, o, n, elem, v.to, path, used);
      } else {
        ZeroSame(env, code, elem);
        FromZeroQuiet(h, e, o, n, elem, path, used);
      }
    case IfaceT(family, _) =>
      if family in env.families {
        VariantRuns(e, o, n, family, v, path, used);
        EvolvesUnwalked(h, v, r.v);
      }
    case StructT(_, _) =>
      ShapedStruct(n, t);
      StructQuiet(h, env, code, o, n, n.children, t, v, path, used);
    case MapT(_, elem) =>
      if n.Map? {
        KeysRun(e, o, n, elem, |n.keys|, path, used);
        NoPlacesBacked(h, RunKeys(e, o, n, elem, |n.keys|, path, used).v);
      }
    case SliceT(elem) =>
      if n.Seq? {
        ItemsRun(e, o, n, elem, |n.items|, path, used);
        NoPlacesBacked(h, RunItems(e, o, n, elem, |n.items|, path, used).v);
      }
    case ArrayT(_) =>
  }

  lemma StillFresh(env: Env, code: Code)
    requires FreshVariants(env)
    ensures FreshVariants(With(env, code))
  {}

  lemma FromZeroQuiet(h: Heap, env: Env, o: Order, n: Tree, t: Schema, path: string, used: set<Sel>)
    requires FreshVariants(env)
    ensures Backed(h, RunValue(env, o, n, t, Zero(env, t), path, used).v)
  {
    ValueRuns(env, o, n, t, Zero(env, t), path, used);
    hide RunValue, BindValue, FreshVariants, Evolves, Places, Agrees;
    EvolvedFromZero(env, t, RunValue(env, o, n, t, Zero(env, t), path, used).v, BindValue(env, n, t, Zero(env, t), path).walks);
    NoPlacesBacked(h, RunValue(env, o, n, t, Zero(env, t), path, used).v);
  }

  /** No key of a struct can write behind a pointer. */
  ghost predicate FieldsQuiet(env: Env, t: Schema, vals: seq<Val>, path: string)
    requires GoodStruct(t) && |vals| == |t.fields|
  {
    forall info | info in AllInfos(t).value && Shapeable(info.typ) ::
      WritesAt(env, t, vals, info.index, JoinPath(path, info.key)) == {}
  }

  lemma {:induction false} StructQuiet(h: Heap, env: Env, code: Code, o: Order, n: Tree, cs: map<string, Tree>, t: Schema, v: Val,
                                       path: string, used: set<Sel>)
    requires t.StructT? && FreshVariants(env) && ShapedFields(cs, t) && forall k | k in cs :: cs[k] < n && WF(cs[k])
    requires Settled(v) && Backed(h, v) && Writable(env, t, v, path) == {}
    ensures Backed(h, RunStruct(With(env, code), o, n, cs, t, v, path, used).v)
    decreases n, 2, t
  {
    hide RunStruct, RunFields, BindFields, FreshVariants, WritesAt, Writable, Settled, Backed, AllKeys, WF, WellShaped;
    if !(cs.Keys <= AllKeys(t)) {
      UnknownQuiet(h, env, code, o, n, cs, t, v, path, used);
    } else if FitsStruct(v, t) {
      FitQuiet(h, env, code, o, n, cs, t, v, path, used);
    } else {
      UnfitQuiet(h, env, code, o, n, cs, t, v, path, used);
    }
  }

  lemma UnknownQuiet(h: Heap, env: Env, code: Code, o: Order, n: Tree, cs: map<string, Tree>, t: Schema, v: Val, path: string,
                     used: set<Sel>)
    requires GoodStruct(t) && !(cs.Keys <= AllKeys(t)) && (forall k | k in cs :: cs[k] < n) && Backed(h, v)
    ensures Backed(h, RunStruct(With(env, code), o, n, cs, t, v, path, used).v)
  {}

  lemma {:induction false} FitQuiet(h: Heap, env: Env, code: Code, o: Order, n: Tree, cs: map<string, Tree>, t: Schema, v: Val,
                                    path: string, used: set<Sel>)
    requires t.StructT? && FreshVariants(env) && ShapedFields(cs, t) && forall k | k in cs :: cs[k] < n && WF(cs[k])
    requires Settled(v) && Backed(h, v) && Writable(env, t, v, path) == {} && cs.Keys <= AllKeys(t) && FitsStruct(v, t)
    ensures Backed(h, RunStruct(With(env, code), o, n, cs, t, v, path, used).v)
    decreases n, 1, t
  {
    hide RunFields, BindFields, FreshVariants, WritesAt, Writable, Evolves, Settled, Backed, AllKeys;
    var e := With(env, code);
    FieldValsSame(env, code, v, t);
    assert v == Struct(v.fields);
    WritableFields(env, t, v, path);
    AfterNone(e, n, cs, t, v.fields, path);
    NoneYet(cs.Keys, AllKeys(t));
    EvolvesNot(v, BindFields(e, n, cs, t, v.fields, |t.fields|, path).walks);
    RunsQuietly(h, env, code, o, n, cs, t, v.fields, v.fields, AllKeys(t), path, used);
  }

  /** A value that is not of its type is bound from zero. */
  lemma UnfitQuiet(h: Heap, env: Env, code: Code, o: Order, n: Tree, cs: map<string, Tree>, t: Schema, v: Val, path: string,
                   used: set<Sel>)
    requires GoodStruct(t) && FreshVariants(env) && (forall k | k in cs :: cs[k] < n) && !FitsStruct(v, t)
    requires cs.Keys <= AllKeys(t)
    ensures Backed(h, RunStruct(With(env, code), o, n, cs, t, v, path, used).v)
  {
    var e, z := With(env, code), Zero(env, t);
    StillFresh(env, code);
    FieldValsSame(env, code, v, t);
    FieldValsSame(env, code, z, t);
    assert RunStruct(e, o, n, cs, t, v, path, used).v == RunStruct(e, o, n, cs, t, z, path, used).v;
    hide RunStruct, BindStruct, FreshVariants, Agrees, Evolves, FieldVals;
    StructRuns(e, o, n, cs, t, z, path, used);
    ZeroPlaces(env, t);
    EvolvesPlaces(z, RunStruct(e, o, n, cs, t, z, path, used).v, BindStruct(e, n, cs, t, z, path).walks, {});
    NoPlacesBacked(h, RunStruct(e, o, n, cs, t, z, path, used).v);
  }

  lemma WritableFields(env: Env, t: Schema, v: Val, path: string)
    requires GoodStruct(t) && FitsStruct(v, t) && Writable(env, t, v, path) == {}
    ensures FieldsQuiet(env, t, v.fields, path)
  {
    hide WritesAt;
    forall info | info in AllInfos(t).value && Shapeable(info.typ)
      ensures WritesAt(env, t, v.fields, info.index, JoinPath(path, info.key)) == {}
    {
      forall a ensures a !in WritesAt(env, t, v.fields, info.index, JoinPath(path, info.key)) {
        assert a !in Writable(env, t, v, path);
      }
    }
  }

  lemma {:induction false} RunsQuietly(h: Heap, env: Env, code: Code, o: Order, n: Tree, cs: map<string, Tree>, t: Schema,
                                       was: seq<Val>, vals: seq<Val>, todo: set<string>, path: string, used: set<Sel>)
    requires GoodStruct(t) && FreshVariants(env) && ShapedFields(cs, t) && forall k | k in cs :: cs[k] < n && WF(cs[k])
    requires |was| == |vals| == |t.fields| && cs.Keys <= AllKeys(t) && todo <= AllKeys(t)
    requires var a := After(With(env, code), n, cs, t, was, path, cs.Keys - todo); a.ok && vals == a.vals
    requires Settled(Struct(was)) && Backed(h, Struct(was)) && FieldsQuiet(env, t, was, path) && Backed(h, Struct(vals))
    requires Evolves(Struct(was), Struct(vals), BindFields(With(env, code), n, cs, t, was, |was|, path).walks, {})
    ensures Backed(h, Struct(RunFields(With(env, code), o, n, cs, t, vals, todo, path, used).vals))
    decreases n, 1, t, |todo|
  {
    hide RunField, FreshVariants, ShapedFields, FieldsQuiet, Backed, Settled, Evolves, After, BindFields;
    StillFresh(env, code);
    if todo != {} {
      var e, k := With(env, code), o.pick(todo);
      var info, left := FieldAtKey(t, k), todo - {k};
      OneLess(cs.Keys, todo, k);
      if k in cs {
        var r := RunField(e, o, n, cs, t, vals, info, path, used);
        FieldQuiet(h, env, code, o, n, cs, t, was, vals, cs.Keys - todo, info, path, used);
        FieldRuns(e, o, n, cs, t, was, path, cs.Keys - todo, info, vals, used);
        if r.err.None? {
          var walks := BindFields(e, n, cs, t, was, |was|, path).walks;
          EvolvesThen(Struct(was), Struct(vals), Struct(r.vals), walks, walks, {});
          assert walks + walks == walks;
          RunsQuietly(h, env, code, o, n, cs, t, was, r.vals, left, path, used + SelsOf(r.log));
        }
      } else if !info.required {
        RunsQuietly(h, env, code, o, n, cs, t, was, vals, left, path, used);
      }
    }
  }

  lemma {:induction false} FieldQuiet(h: Heap, env: Env, code: Code, o: Order, n: Tree, cs: map<string, Tree>, t: Schema,
                                      was: seq<Val>, vals: seq<Val>, done: set<string>, info: FieldInfo, path: string,
                                      used: set<Sel>)
    requires GoodStruct(t) && FreshVariants(env) && ShapedFields(cs, t) && forall k | k in cs :: cs[k] < n && WF(cs[k])
    requires |was| == |vals| == |t.fields| && info in AllInfos(t).value && info.key in cs && info.key !in done
    requires vals == After(With(env, code), n, cs, t, was, path, done).vals
    requires Settled(Struct(was)) && Backed(h, Struct(was)) && FieldsQuiet(env, t, was, path) && Backed(h, Struct(vals))
    requires Evolves(Struct(was), Struct(vals), BindFields(With(env, code), n, cs, t, was, |was|, path).walks, {})
    ensures Backed(h, Struct(RunField(With(env, code), o, n, cs, t, vals, info, path, used).vals))
    decreases n, 0
  {
    var e, at, c := With(env, code), GetAt(env, t, was, info.index), cs[info.key];
    var below, p := o.Below(InKey(info.key)), JoinPath(path, info.key);
    var x := RunValue(e, below, c, info.typ, at, p, used).v;
    AfterOneMore(e, n, cs, t, was, path, done, info);
    assert WellShaped(c, info.typ);
    ShapedIsShapeable(c, info.typ);
    PlaceSame(env, code, t, was, info.index, x);
    PlaceSame(env, code, t, vals, info.index, x);
    PlaceQuiet(h, env, t, was, info.index, info.key, info.typ, p);
    SettledFollowed(at);
    if !CanChange(env, info.typ, at, p) {
      ValueFlat(env, code, below, c, info.typ, at, p, used);
    }
    ValueQuiet(h, env, code, below, c, info.typ, at, p, used);
    hide RunValue, BindFields, After, GetAt, SetAt, CanChange, FreshVariants, ShapedFields, Flat, Leads, Evolves, Settled, Backed,
         WellShaped, Shapeable, AllInfos, GoodStruct, WritesAt;
    PutQuietly(h, env, t, was, vals, info.index, info.key, info.typ, x, BindFields(e, n, cs, t, was, |was|, path).walks, p);
  }

  /// ## A trace

  /** The hooks refuse everything larger than `w`. */
  ghost predicate RefusesLarger(code: Code, w: Val) {
    forall name, x | w < x :: !code.hook(name, x)
  }

  /** Scalars parse to themselves, and every struct is refused. */
  function RefusingAll(): Code {
    Code((_, s) => Some(s), (_, _) => true, (_, _) => false)
  }

  lemma LimitedRefuses(code: Code, w: Val)
    ensures RefusesLarger(Limited(code, w), w)
  {}

  lemma RefusedAll(w: Val)
    ensures RefusesLarger(RefusingAll(), w)
  {}

  lemma RefusesLargerStill(code: Code, v: Val, w: Val)
    requires RefusesLarger(code, v) && v < w
    ensures RefusesLarger(code, w)
  {}

  lemma {:induction false} ShapedTree(t: Schema) returns (n: Tree)
    requires Shapeable(t)
    ensures WF(n) && WellShaped(n, t)
    decreases t
  {
    match t
    case ScalarT(_) => n := Scalar("", "", false, false, "");
    case PtrT(elem) => n := ShapedTree(elem);
    case SliceT(_) => n := Seq([], "");
    case ArrayT(_) => n := Seq([], "");
    case _ =>
      n := Map([], map[], "");
      assert SetOf<string>([]) == {};
  }

  /** A run that succeeds does so, with the same value, when hooks refuse what is larger. */
  lemma RunLimited(env: Env, code: Code, w: Val, o: Order, n: Tree, t: Schema, v: Val, path: string)
    requires WF(n) && FreshVariants(env) && RunValue(With(env, code), o, n, t, v, path, {}).err.None?
    requires !(w < RunValue(With(env, code), o, n, t, v, path, {}).v)
    ensures var r := RunValue(With(env, Limited(code, w)), o, n, t, v, path, {});
            r.err.None? && r.v == RunValue(With(env, code), o, n, t, v, path, {}).v
  {
    StillFresh(env, code);
    StillFresh(env, Limited(code, w));
    ValueRuns(With(env, code), o, n, t, v, path, {});
    ValueRuns(With(env, Limited(code, w)), o, n, t, v, path, {});
    hide RunValue, BindValue, FreshVariants, Limited;
    ValueAccepted(env, code, Limited(code, w), w, n, t, v, path);
  }

  lemma RunStructLimited(env: Env, code: Code, w: Val, o: Order, n: Tree, cs: map<string, Tree>, t: Schema, v: Val, path: string)
    requires t.StructT? && FreshVariants(env) && forall k | k in cs :: cs[k] < n && WF(cs[k])
    requires RunStruct(With(env, code), o, n, cs, t, v, path, {}).err.None?
    requires !(w < RunStruct(With(env, code), o, n, cs, t, v, path, {}).v)
    ensures var r := RunStruct(With(env, Limited(code, w)), o, n, cs, t, v, path, {});
            r.err.None? && r.v == RunStruct(With(env, code), o, n, cs, t, v, path, {}).v
  {
    StillFresh(env, code);
    StillFresh(env, Limited(code, w));
    StructRuns(With(env, code), o, n, cs, t, v, path, {});
    StructRuns(With(env, Limited(code, w)), o, n, cs, t, v, path, {});
    hide RunStruct, BindStruct, FreshVariants, Limited;
    StructAccepted(env, code, Limited(code, w), w, n, cs, t, v, path);
  }

  /** What a place holds once it is put back is smaller than the struct. */
  lemma {:induction false} SetAtLarger(env: Env, t: Schema, vals: seq<Val>, index: seq<nat>, key: string, typ: Schema, x: Val)
    requires t.StructT? && |vals| == |t.fields| && Leads(t, index, key, typ)
    ensures x < Struct(SetAt(env, t, vals, index, x))
    decreases |index|
  {
    var i := index[0];
    var y := SetAt(env, t, vals, index, x);
    assert Struct(y).fields[i] < Struct(y);
    if |index| > 1 {
      var f, v := t.fields[i], vals[i];
      SetAtLarger(env, Inlined(f).value, InnerVals(env, f, v), index[1..], key, typ, x);
    }
  }

  /// ## One key, visited first

  function OneKeyTree(key: string, c: Tree): Tree {
    Map([key], map[key := c], "")
  }

  lemma OneKeyShaped(t: Schema, info: FieldInfo, c: Tree)
    requires GoodStruct(t) && info in AllInfos(t).value && WF(c) && WellShaped(c, info.typ)
    ensures WF(OneKeyTree(info.key, c)) && WellShaped(OneKeyTree(info.key, c), t) && info.key in AllKeys(t)
    ensures FieldAtKey(t, info.key) == info && c < OneKeyTree(info.key, c)
  {
    var n, infos := OneKeyTree(info.key, c), AllInfos(t).value;
    assert SetOf([info.key]) == {info.key};
    var j :| 0 <= j < |infos| && infos[j] == info;
    FieldIsAtKey(t, j);
    forall i, k | 0 <= i < |infos| && k in n.children && infos[i].key == k ensures WellShaped(n.children[k], infos[i].typ) {
      FieldIsAtKey(t, i);
    }
    assert n.children[info.key] == c;
  }

  /** The keys that are left are not in the file. */
  lemma {:induction false} NothingLeft(env: Env, o: Order, n: Tree, cs: map<string, Tree>, t: Schema, vals: seq<Val>,
                                       todo: set<string>, path: string, used: set<Sel>)
    requires GoodStruct(t) && |vals| == |t.fields| && todo <= AllKeys(t) && (forall k | k in cs :: cs[k] < n)
    requires todo !! cs.Keys
    ensures RunFields(env, o, n, cs, t, vals, todo, path, used).vals == vals
    decreases |todo|
  {
    hide RunField, GoodStruct, AllKeys;
    if todo != {} {
      var k := o.pick(todo);
      if !FieldAtKey(t, k).required {
        NothingLeft(env, o, n, cs, t, vals, todo - {k}, path, used);
      }
    }
  }

  /** A tree with one key, which is visited first: the struct is left with what the key's place is left with, and
      refused, unless a hook accepts something larger than that. */
  lemma OneKeyRuns(env: Env, code: Code, below: Order, c: Tree, t: Schema, v: Val, info: FieldInfo, path: string)
    requires GoodStruct(t) && FitsStruct(v, t) && info in AllInfos(t).value && WF(c) && WellShaped(c, info.typ)
    requires var at := GetAt(env, t, v.fields, info.index);
             var x := RunValue(With(env, code), below, c, info.typ, at, JoinPath(path, info.key), {});
             x.err.None? ==> RefusesLarger(code, x.v)
    ensures c < OneKeyTree(info.key, c)
    ensures var at := GetAt(env, t, v.fields, info.index);
            var x := RunValue(With(env, code), below, c, info.typ, at, JoinPath(path, info.key), {});
            var n, o := OneKeyTree(info.key, c), Order(First(info.key), map[InKey(info.key) := below]);
            var r := RunStruct(With(env, code), o, n, n.children, t, v, path, {});
            r.err.Some? && r.v == Struct(SetAt(env, t, v.fields, info.index, x.v))
  {
    hide RunValue, GetAt, SetAt, WellShaped, WF, Shapeable;
    var e, n, o := With(env, code), OneKeyTree(info.key, c), Order(First(info.key), map[InKey(info.key) := below]);
    var k, cs, vals := info.key, n.children, v.fields;
    OneKeyShaped(t, info, c);
    ChainOf(t, info);
    assert cs.Keys == {k} && o.pick(AllKeys(t)) == k && o.Below(InKey(k)) == below;
    var x := RunValue(e, below, c, info.typ, GetAt(env, t, vals, info.index), JoinPath(path, k), {});
    PlaceSame(env, code, t, vals, info.index, x.v);
    SetAtLarger(env, t, vals, info.index, k, info.typ, x.v);
    var r := RunField(e, o, n, cs, t, vals, info, path, {});
    hide GoodStruct, AllInfos, AllKeys, Leads;
    assert r.vals == SetAt(env, t, vals, info.index, x.v) && r.err == x.err;
    NothingLeft(e, o, n, cs, t, r.vals, AllKeys(t) - {k}, path, {} + SelsOf(r.log));
    assert FieldVals(e, v, t) == vals;
  }

  /// ## Witnesses

  /** A tree, with user code and an order, that changes a place that can be changed. */
  lemma {:induction false} ChangeWitness(env: Env, t: Schema, v: Val, path: string) returns (code: Code, o: Order, n: Tree)
    requires CanChange(env, t, v, path) && Settled(v) && FreshVariants(env)
    ensures WF(n) && WellShaped(n, t)
    ensures var r := RunValue(With(env, code), o, n, t, v, path, {});
            Flat(r.v) != Flat(v) && (r.err.None? ==> RefusesLarger(code, r.v))
    decreases t, 1, 0
  {
    hide Bindable, VariantBinds, FreshVariants;
    code, o := RefusingAll(), Order(First(""), map[]);
    match t
    case ScalarT(_) => n := Scalar(if v == Leaf("a") then "b" else "a", "", false, false, "");
    case PtrT(elem) => n := ShapedTree(elem);
    case IfaceT(family, _) =>
      if family in env.families {
        code, o, n := VariantWitness(env, family, v, path);
      } else {
        n := Scalar(if v == Untyped(Scalar("a", "", false, false, "")) then "b" else "a", "", false, false, "");
      }
    case StructT(_, _) =>
      if FitsStruct(v, t) {
        var info :| info in AllInfos(t).value && Shapeable(info.typ)
                    && ChangesAt(env, t, v.fields, info.index, JoinPath(path, info.key));
        assert Settled(Struct(v.fields));
        ChainOf(t, info);
        var below, c;
        code, below, c := FieldWitness(env, t, v.fields, info.index, info.key, info.typ, JoinPath(path, info.key));
        n, o := OneKeyTree(info.key, c), Order(First(info.key), map[InKey(info.key) := below]);
        OneKeyShaped(t, info, c);
        OneKeyRuns(env, code, below, c, t, v, info, path);
        assert v == Struct(v.fields);
      } else {
        n := UnfitStruct(env, o, t, v, path);
      }
    case MapT(_, elem) => code, o, n := MapWitness(env, t, v, path);
    case SliceT(elem) => code, o, n := SliceWitness(env, t, v, path);
  }

  lemma UnfitStruct(env: Env, o: Order, t: Schema, v: Val, path: string) returns (n: Tree)
    requires GoodStruct(t) && !FitsStruct(v, t)
    ensures WF(n) && WellShaped(n, t)
    ensures var r := RunValue(With(env, RefusingAll()), o, n, t, v, path, {}); Flat(r.v) != Flat(v) && r.err.Some?
  {
    n := Map([], map[], "");
    assert SetOf<string>([]) == {};
    var e := With(env, RefusingAll());
    hide RunFields;
    var s := RunStruct(e, o, n, n.children, t, v, path, {});
    assert n.children.Keys == {};
    assert s.v.Struct? && |s.v.fields| == |t.fields| && s.err.Some?;
    UnfitFlat(v, s.v);
  }

  lemma VariantWitness(env: Env, family: nat, v: Val, path: string) returns (code: Code, o: Order, n: Tree)
    requires family in env.families && VariantBinds(env, family, path) && Settled(v) && FreshVariants(env)
    ensures WF(n)
    ensures var r := RunVariant(With(env, code), o, n, family, v, path, {});
            Flat(r.v) != Flat(v) && (r.err.None? ==> RefusesLarger(code, r.v))
  {
    hide RunStruct, RunVariant, Limited, RefusesLarger, FreshVariants, Flat, Settled, WF;
    var full;
    full, o, n :| WF(n) && VariantOf(env.families[family], n).Some?
                  && MadeAndBound(With(env, full), o, n, family, path, {}).err.None?;
    var fam := env.families[family];
    var variant, cs := VariantOf(fam, n).value.1, n.children - {fam.disc};
    var x := RunStruct(With(env, full), o, n, cs, variant.typ, variant.make, path, {}).v;
    code := Limited(full, New(x));
    ChildrenWF(n);
    assert x < New(x);
    RunStructLimited(env, full, New(x), o, n, cs, variant.typ, variant.make, path);
    LimitedRefuses(full, New(x));
    VariantIsRun(With(env, code), o, n, family, v, path);
    NewIsNew(v, x);
  }

  lemma ChildrenWF(n: Tree)
    requires WF(n) && n.Map?
    ensures forall k | k in n.children :: WF(n.children[k])
  {}

  lemma NewIsNew(v: Val, x: Val)
    requires Settled(v)
    ensures Flat(v) != Flat(New(x))
  {}

  lemma VariantIsRun(env: Env, o: Order, n: Tree, family: nat, v: Val, path: string)
    requires family in env.families && VariantOf(env.families[family], n).Some?
    requires MadeAndBound(env, o, n, family, path, {}).err.None?
    ensures RunVariant(env, o, n, family, v, path, {}).v == New(MadeAndBound(env, o, n, family, path, {}).v)
  {
    hide RunStruct, Selectors, Selectable, Taken;
  }

  lemma MapWitness(env: Env, t: Schema, v: Val, path: string) returns (code: Code, o: Order, n: Tree)
    requires t.MapT? && CanChange(env, t, v, path) && Settled(v) && FreshVariants(env)
    ensures WF(n) && WellShaped(n, t)
    ensures var r := RunValue(With(env, code), o, n, t, v, path, {});
            Flat(r.v) != Flat(v) && (r.err.None? ==> RefusesLarger(code, r.v))
  {
    hide Bindable, RunValue, RefusesLarger, FreshVariants, WF, WellShaped, Flat, Settled;
    if v != MapV(map[]) {
      code, o, n := EmptyMap(env, t, v, path);
    } else {
      code, o, n := OneEntryMap(env, t, path);
    }
  }

  lemma EmptyMap(env: Env, t: Schema, v: Val, path: string) returns (code: Code, o: Order, n: Tree)
    requires t.MapT? && t.stringKeys && v != MapV(map[])
    ensures WF(n) && WellShaped(n, t)
    ensures var r := RunValue(With(env, code), o, n, t, v, path, {});
            Flat(r.v) != Flat(v) && (r.err.None? ==> RefusesLarger(code, r.v))
  {
    code, o := RefusingAll(), Order(First(""), map[]);
    n := Map([], map[], "");
    assert SetOf<string>([]) == {};
    assert RunKeys(With(env, code), o, n, t.elem, 0, path, {}) == Ran(None, MapV(map[]), []);
    if Flat(v) == Flat(MapV(map[])) {
      EmptyFlat(v, MapV(map[]));
    }
  }

  lemma OneEntryMap(env: Env, t: Schema, path: string) returns (code: Code, o: Order, n: Tree)
    requires t.MapT? && t.stringKeys && FreshVariants(env) && exists key :: Bindable(env, t.elem, JoinPath(path, key))
    ensures WF(n) && WellShaped(n, t)
    ensures var r := RunValue(With(env, code), o, n, t, MapV(map[]), path, {});
            Flat(r.v) != Flat(MapV(map[])) && (r.err.None? ==> RefusesLarger(code, r.v))
  {
    var key :| Bindable(env, t.elem, JoinPath(path, key));
    var full, below, c :| WF(c) && WellShaped(c, t.elem)
      && RunValue(With(env, full), below, c, t.elem, Zero(env, t.elem), JoinPath(path, key), {}).err.None?;
    hide RunValue, RunKeys, Limited, RefusesLarger, FreshVariants, WellShaped, Bindable, WF;
    var x := RunValue(With(env, full), below, c, t.elem, Zero(env, t.elem), JoinPath(path, key), {}).v;
    var w := MapV(map[key := x]);
    assert w.entries[key] < w;
    code, o, n := Limited(full, w), Order(First(""), map[InKey(key) := below]), OneKeyTree(key, c);
    RunLimited(env, full, w, below, c, t.elem, Zero(env, t.elem), JoinPath(path, key));
    LimitedRefuses(full, w);
    OneEntry(env, code, o, below, key, c, t.elem, path);
    OneEntryShaped(key, c, t);
    MapIsRun(With(env, code), o, n, t, MapV(map[]), path, w);
    assert key in Flat(w).entries;
  }

  lemma OneEntryShaped(key: string, c: Tree, t: Schema)
    requires t.MapT? && WF(c) && WellShaped(c, t.elem)
    ensures WF(OneKeyTree(key, c)) && WellShaped(OneKeyTree(key, c), t)
  {
    assert SetOf([key]) == {key};
  }

  lemma MapIsRun(env: Env, o: Order, n: Tree, t: Schema, v: Val, path: string, w: Val)
    requires t.MapT? && t.stringKeys && n.Map?
    requires var r := RunKeys(env, o, n, t.elem, |n.keys|, path, {}); r.err.None? && r.v == w
    ensures RunValue(env, o, n, t, v, path, {}).v == w
  {}

  lemma OneEntry(env: Env, code: Code, o: Order, below: Order, key: string, c: Tree, elem: Schema, path: string)
    requires o.Below(InKey(key)) == below
    ensures var x := RunValue(With(env, code), below, c, elem, Zero(env, elem), JoinPath(path, key), {});
            RunKeys(With(env, code), o, OneKeyTree(key, c), elem, 1, path, {}) == Ran(x.err, MapV(map[key := x.v]), x.log)
  {
    var e, n := With(env, code), OneKeyTree(key, c);
    ZeroSame(env, code, elem);
    assert RunKeys(e, o, n, elem, 0, path, {}) == Ran(None, MapV(map[]), []);
    assert {} + SelsOf([]) == {} && n.children[key] == c;
    hide RunValue;
    var x := RunValue(e, below, c, elem, Zero(env, elem), JoinPath(path, key), {});
    assert [] + x.log == x.log && map[][key := x.v] == map[key := x.v];
  }

  lemma SliceWitness(env: Env, t: Schema, v: Val, path: string) returns (code: Code, o: Order, n: Tree)
    requires t.SliceT? && CanChange(env, t, v, path) && Settled(v) && FreshVariants(env)
    ensures WF(n) && WellShaped(n, t)
    ensures var r := RunValue(With(env, code), o, n, t, v, path, {});
            Flat(r.v) != Flat(v) && (r.err.None? ==> RefusesLarger(code, r.v))
  {
    if v != SliceV([]) {
      code, o, n := RefusingAll(), Order(First(""), map[]), Seq([], "");
      assert RunItems(With(env, code), o, n, t.elem, 0, path, {}) == Ran(None, SliceV([]), []);
      if Flat(v) == Flat(SliceV([])) {
        EmptyFlat(v, SliceV([]));
      }
    } else {
      var full, below, c :| WF(c) && WellShaped(c, t.elem)
        && RunValue(With(env, full), below, c, t.elem, Zero(env, t.elem), ItemPath(path, 0), {}).err.None?;
      var x := RunValue(With(env, full), below, c, t.elem, Zero(env, t.elem), ItemPath(path, 0), {}).v;
      var w := SliceV([x]);
      assert w.elems[0] < w;
      code, o, n := Limited(full, w), Order(First(""), map[InItem(0) := below]), Seq([c], "");
      RunLimited(env, full, w, below, c, t.elem, Zero(env, t.elem), ItemPath(path, 0));
      LimitedRefuses(full, w);
      OneItem(env, code, o, below, c, t.elem, path);
      hide RunValue, Limited, RefusesLarger, FreshVariants, WellShaped;
      assert |Flat(w).elems| == 1;
    }
  }

  lemma OneItem(env: Env, code: Code, o: Order, below: Order, c: Tree, elem: Schema, path: string)
    requires o.Below(InItem(0)) == below
    ensures var x := RunValue(With(env, code), below, c, elem, Zero(env, elem), ItemPath(path, 0), {});
            RunItems(With(env, code), o, Seq([c], ""), elem, 1, path, {}) == Ran(x.err, SliceV([x.v]), x.log)
  {
    var e, n := With(env, code), Seq([c], "");
    ZeroSame(env, code, elem);
    assert RunItems(e, o, n, elem, 0, path, {}) == Ran(None, SliceV([]), []);
    assert {} + SelsOf([]) == {} && n.items[0] == c;
    hide RunValue;
    var x := RunValue(e, below, c, elem, Zero(env, elem), ItemPath(path, 0), {});
    assert [] + x.log == x.log && [] + [x.v] == [x.v];
  }

  /** The same for a place that an index chain leads to. */
  lemma {:induction false} FieldWitness(env: Env, t: Schema, vals: seq<Val>, index: seq<nat>, key: string, typ: Schema,
                                        path: string)
    returns (code: Code, o: Order, c: Tree)
    requires t.StructT? && |vals| == |t.fields| && Leads(t, index, key, typ) && Shapeable(typ)
    requires ChangesAt(env, t, vals, index, path) && Settled(Struct(vals)) && FreshVariants(env)
    ensures WF(c) && WellShaped(c, typ)
    ensures var x := RunValue(With(env, code), o, c, typ, GetAt(env, t, vals, index), path, {});
            && Flat(Struct(SetAt(env, t, vals, index, x.v))) != Flat(Struct(vals))
            && (x.err.None? ==> RefusesLarger(code, x.v))
    decreases t, 0, |index|
  {
    hide CanChange, FreshVariants;
    var i := index[0];
    var f, v := t.fields[i], vals[i];
    assert Settled(Struct(vals).fields[i]);
    if |index| == 1 {
      code, o, c := ChangeWitness(env, typ, v, path);
    } else if f.typ.StructT? && FitsStruct(v, f.typ) {
      assert v == Struct(v.fields);
      code, o, c := FieldWitness(env, f.typ, v.fields, index[1..], key, typ, path);
    } else {
      code, o := RefusingAll(), Order(First(""), map[]);
      c := ShapedTree(typ);
    }
    var x := RunValue(With(env, code), o, c, typ, GetAt(env, t, vals, index), path, {}).v;
    hide RunValue, Settled, WellShaped, GetAt;
    var after := SetAt(env, t, vals, index, x);
    if |index| > 1 && f.typ.StructT? && !FitsStruct(v, f.typ) {
      UnfitFlat(v, after[i]);
    }
    assert Flat(after[i]) != Flat(v);
    SeqsFlat(after, vals);
  }

  lemma UnfitFlat(v: Val, w: Val)
    requires w.Struct? && !(v.Struct? && |v.fields| == |w.fields|)
    ensures Flat(v) != Flat(w)
  {
    if v.Struct? {
      assert |Flat(v).fields| == |v.fields| && |Flat(w).fields| == |w.fields|;
    }
  }

  /** A tree, with user code and an order, that leaves a trace behind a pointer that can be written behind. */
  lemma {:induction false} TraceWitness(h: Heap, env: Env, t: Schema, v: Val, path: string, a: nat)
    returns (code: Code, o: Order, n: Tree)
    requires a in Writable(env, t, v, path) && Settled(v) && Backed(h, v) && FreshVariants(env)
    ensures WF(n) && WellShaped(n, t)
    ensures var r := RunValue(With(env, code), o, n, t, v, path, {});
            !Backed(h, r.v) && (r.err.None? ==> !t.StructT? && RefusesLarger(code, r.v))
    decreases t, 1, 0
  {
    hide CanChange, FreshVariants;
    match t
    case PtrT(elem) =>
      if a in Writable(env, elem, v.to, path) {
        code, o, n := TraceWitness(h, env, elem, v.to, path, a);
      } else {
        code, o, n := ChangeWitness(env, elem, v.to, path);
      }
      var r := RunValue(With(env, code), o, n, elem, v.to, path, {});
      if r.err.None? {
        RefusesLargerStill(code, r.v, Own(v.addr, r.v));
      }
    case StructT(_, _) =>
      var info :| info in AllInfos(t).value && Shapeable(info.typ)
                  && a in WritesAt(env, t, v.fields, info.index, JoinPath(path, info.key));
      assert v == Struct(v.fields);
      ChainOf(t, info);
      var below, c;
      code, below, c := FieldTrace(h, env, t, v.fields, info.index, info.key, info.typ, JoinPath(path, info.key), a);
      n, o := OneKeyTree(info.key, c), Order(First(info.key), map[InKey(info.key) := below]);
      OneKeyShaped(t, info, c);
      OneKeyRuns(env, code, below, c, t, v, info, path);
  }

  lemma {:induction false} FieldTrace(h: Heap, env: Env, t: Schema, vals: seq<Val>, index: seq<nat>, key: string, typ: Schema,
                                      path: string, a: nat)
    returns (code: Code, o: Order, c: Tree)
    requires t.StructT? && |vals| == |t.fields| && Leads(t, index, key, typ) && Shapeable(typ)
    requires a in WritesAt(env, t, vals, index, path) && FreshVariants(env)
    requires Settled(Struct(vals)) && Backed(h, Struct(vals))
    ensures WF(c) && WellShaped(c, typ)
    ensures var x := RunValue(With(env, code), o, c, typ, GetAt(env, t, vals, index), path, {});
            && !Backed(h, Struct(SetAt(env, t, vals, index, x.v)))
            && (x.err.None? ==> RefusesLarger(code, x.v))
    decreases t, 0, |index|
  {
    hide CanChange, Writable, FreshVariants, RunValue, WellShaped, GetAt, SetAt, Flat, InnerVals, WrapInner, RefusesLarger, WF;
    var i := index[0];
    var f, v := t.fields[i], vals[i];
    assert Settled(Struct(vals).fields[i]) && Backed(h, Struct(vals).fields[i]);
    GetAtField(env, t, vals, index);
    if |index| == 1 {
      code, o, c := TraceWitness(h, env, typ, v, path, a);
    } else {
      code, o, c := InnerTrace(h, env, f, v, index[1..], key, typ, path, a);
      PlaceBelow(env, t, vals, index, Nil);
    }
    var x := RunValue(With(env, code), o, c, typ, GetAt(env, t, vals, index), path, {}).v;
    var after := SetAt(env, t, vals, index, x);
    SetAtOnly(env, t, vals, index, x);
    if |index| > 1 {
      PlaceBelow(env, t, vals, index, x);
    }
    assert !Backed(h, Struct(after).fields[i]);
  }

  /** The same for the struct that a field inlines. */
  lemma {:induction false} InnerTrace(h: Heap, env: Env, f: Field, v: Val, index: seq<nat>, key: string, typ: Schema,
                                      path: string, a: nat)
    returns (code: Code, o: Order, c: Tree)
    requires Inlined(f).Some? && Leads(Inlined(f).value, index, key, typ) && Shapeable(typ) && FreshVariants(env)
    requires f.typ.StructT? ==> a in WritesIn(env, f.typ, v, index, path)
    requires f.typ.PtrT? ==>
               v.Own? && (ChangesIn(env, Inlined(f).value, v.to, index, path) ||
                          a in WritesIn(env, Inlined(f).value, v.to, index, path))
    requires Settled(v) && Backed(h, v)
    ensures WF(c) && WellShaped(c, typ)
    ensures var st, inner := Inlined(f).value, InnerVals(env, f, v);
            var x := RunValue(With(env, code), o, c, typ, GetAt(env, st, inner, index), path, {});
            && !Backed(h, WrapInner(f, v, SetAt(env, st, inner, index, x.v)))
            && (x.err.None? ==> RefusesLarger(code, x.v))
    decreases f, 0, |index|
  {
    hide CanChange, Writable, WritesAt, ChangesAt, FreshVariants, RunValue, WellShaped, GetAt, SetAt, Flat, RefusesLarger,
         WF, Leads;
    var st, w := Inlined(f).value, if f.typ.StructT? then v else v.to;
    if FitsStruct(w, st) {
      assert w == Struct(w.fields);
      if a in WritesAt(env, st, w.fields, index, path) {
        code, o, c := FieldTrace(h, env, st, w.fields, index, key, typ, path, a);
      } else {
        code, o, c := FieldWitness(env, st, w.fields, index, key, typ, path);
      }
    } else {
      code, o := RefusingAll(), Order(First(""), map[]);
      c := ShapedTree(typ);
      var x := RunValue(With(env, code), o, c, typ, GetAt(env, st, InnerVals(env, f, v), index), path, {}).v;
      RefusedAll(x);
      UnfitFlat(w, Struct(SetAt(env, st, InnerVals(env, f, v), index, x)));
    }
  }

  /// ## The theorem

  /** Some tree that passes the shape check, some user code, some order of visits and some instances registered
      before make a bind of the struct fail and leave a trace behind a pointer, exactly if some key leads through
      a pointer to a place that can be changed. */
  lemma TraceIff(h: Heap, env: Env, t: Schema, v: Val, path: string)
    requires t.StructT? && Settled(v) && Backed(h, v) && FreshVariants(env)
    ensures (exists code, o, n, used | WF(n) && n.Map? && WellShaped(n, t) :: Leaves(h, env, code, o, n, t, v, path, used))
            <==> Writable(env, t, v, path) != {}
  {
    hide Writable, FreshVariants, Backed, Settled;
    if code, o, n, used :| WF(n) && n.Map? && WellShaped(n, t) && Leaves(h, env, code, o, n, t, v, path, used) {
      if Writable(env, t, v, path) == {} {
        ValueQuiet(h, env, code, o, n, t, v, path, used);
      }
    }
    if Writable(env, t, v, path) != {} {
      var a :| a in Writable(env, t, v, path);
      var code, o, n := TraceWitness(h, env, t, v, path, a);
      assert Leaves(h, env, code, o, n, t, v, path, {});
    }
  }

  /** Which types some tree binds to, but for structs and variants: these need their required keys, and a set
      of selectors that is free. */
  lemma BindableKinds(env: Env, t: Schema, path: string)
    requires FreshVariants(env)
    ensures t.ScalarT? || (t.MapT? && t.stringKeys) || t.SliceT? || (t.IfaceT? && t.family !in env.families && t.empty) ==>
              Bindable(env, t, path)
    ensures t.ArrayT? || (t.MapT? && !t.stringKeys) || (t.IfaceT? && t.family !in env.families && !t.empty) ==>
              !Bindable(env, t, path)
    ensures t.PtrT? ==> (Bindable(env, t, path) <==> Bindable(env, t.elem, path))
  {
    var code, o := RefusingAll(), Order(First(""), map[]);
    var e, z := With(env, code), Zero(env, t);
    hide FreshVariants;
    match t
    case ScalarT(_) =>
      var n := Scalar("", "", false, false, "");
      assert WF(n) && WellShaped(n, t) && RunValue(e, o, n, t, z, path, {}).err.None?;
    case MapT(stringKeys, elem) =>
      var n: Tree := Map([], map[], "");
      assert SetOf<string>([]) == {};
      assert RunKeys(e, o, n, elem, 0, path, {}) == Ran(None, MapV(map[]), []);
      assert stringKeys ==> WF(n) && WellShaped(n, t) && RunValue(e, o, n, t, z, path, {}).err.None?;
    case SliceT(elem) =>
      var n: Tree := Seq([], "");
      assert RunItems(e, o, n, elem, 0, path, {}) == Ran(None, SliceV([]), []);
      assert WF(n) && WellShaped(n, t) && RunValue(e, o, n, t, z, path, {}).err.None?;
    case IfaceT(family, empty) =>
      var n := Scalar("", "", false, false, "");
      assert family !in env.families && empty ==> WF(n) && WellShaped(n, t) && RunValue(e, o, n, t, z, path, {}).err.None?;
    case PtrT(elem) => BindablePointer(env, elem, path);
    case _ =>
  }

  lemma BindablePointer(env: Env, elem: Schema, path: string)
    ensures Bindable(env, PtrT(elem), path) <==> Bindable(env, elem, path)
  {
    if code, o, n :| WF(n) && WellShaped(n, elem) && RunValue(With(env, code), o, n, elem, Zero(env, elem), path, {}).err.None? {
      ZeroSame(env, code, elem);
      assert RunValue(With(env, code), o, n, PtrT(elem), Zero(env, PtrT(elem)), path, {}).err.None?;
      assert WellShaped(n, PtrT(elem));
    }
    if code, o, n :| WF(n) && WellShaped(n, PtrT(elem))
                     && RunValue(With(env, code), o, n, PtrT(elem), Zero(env, PtrT(elem)), path, {}).err.None? {
      ZeroSame(env, code, elem);
      assert RunValue(With(env, code), o, n, elem, Zero(env, elem), path, {}).err.None?;
      assert WellShaped(n, elem);
    }
  }

  /** A bind fails, and what is behind some pointer is not what was there. */
  ghost predicate Leaves(h: Heap, env: Env, code: Code, o: Order, n: Tree, t: Schema, v: Val, path: string, used: set<Sel>)
    requires t.StructT? && n.Map?
  {
    var r := RunStruct(With(env, code), o, n, n.children, t, v, path, used);
    r.err.Some? && !Backed(h, r.v)
  }
}
