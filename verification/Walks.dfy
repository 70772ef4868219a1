/** Which pointers of the caller a bind can follow: a condition on the destination alone, and exact. */
module Walks {
  import opened Text
  import opened Trees
  import opened Schema
  import opened Binding
  import opened BindingLaws

  /** The places of the caller that a value leads to. */
  function Places(v: Val): set<nat> {
    match v
    case Struct(fields) => set i, a | 0 <= i < |fields| && a in Places(fields[i]) :: a
    case Own(addr, to) => {addr} + Places(to)
    case Ref(addr) => {addr}
    case New(to) => Places(to)
    case MapV(entries) => set k, a | k in entries && a in Places(entries[k]) :: a
    case SliceV(elems) => set i, a | 0 <= i < |elems| && a in Places(elems[i]) :: a
    case _ => {}
  }

  /** No factory hands out a pointer that existed before. */
  ghost predicate FreshVariants(env: Env) {
    forall f, name | f in env.families && name in env.families[f].variants ::
      Places(env.families[f].variants[name].make) == {}
  }

  /** Values of this type hold no address, so that printing one depends on the value alone. */
  predicate Addressless(t: Schema) {
    match t
    case PtrT(_) => false
    case IfaceT(_, _) => false
    case StructT(_, fields) => forall i | 0 <= i < |fields| :: Addressless(fields[i].typ)
    case MapT(_, elem) => Addressless(elem)
    case SliceT(elem) => Addressless(elem)
    case ArrayT(elem) => Addressless(elem)
    case ScalarT(_) => true
  }

  /** No variant has a selector field whose printed form would hold an address. No proof needs it: it is asked of
      the caller because only then can `Env.sprint` be a function of the value. */
  ghost predicate Printable(env: Env) {
    forall f, name | f in env.families && name in env.families[f].variants ::
      var t := env.families[f].variants[name].typ;
      GoodStruct(t) ==> forall info | info in AllInfos(t).value && info.selector :: Addressless(info.typ)
  }

  /** The pointers of the caller that some key can lead a bind through. */
  ghost function Walkable(env: Env, t: Schema, v: Val): set<nat>
    decreases t, 1, 0
  {
    match t
    case PtrT(elem) => WalkOf(v) + if IsPointer(v) then Walkable(env, elem, v.to) else {}
    case StructT(_, fields) => if GoodStruct(t) then WalkableFields(env, t, FieldVals(env, v, t), |fields|) else {}
    case _ => {}
  }

  ghost function WalkableFields(env: Env, t: Schema, vals: seq<Val>, m: nat): set<nat>
    requires t.StructT? && |vals| == |t.fields| && m <= |vals|
    decreases t, 0, m
  {
    if m == 0 then {} else WalkableFields(env, t, vals, m - 1) + WalkableField(env, t, m - 1, vals[m - 1])
  }

  ghost function WalkableField(env: Env, t: Schema, i: nat, v: Val): set<nat>
    requires t.StructT? && i < |t.fields|
    decreases t, 0, i
  {
    var f := t.fields[i];
    match f.tag
    case Key(_, _, _) => Walkable(env, f.typ, v)
    case Inline =>
      if OwnKeys(t, i) == {} then {}
      else
        var st := Inlined(f).value;
        (if f.typ.PtrT? then WalkOf(v) else {}) + WalkableFields(env, st, InnerVals(env, f, v), |st.fields|)
    case _ => {}
  }

  /// ## No bind follows any other

  lemma {:induction false} ZeroPlaces(env: Env, t: Schema)
    ensures Places(Zero(env, t)) == {}
  {
    if t.StructT? {
      forall i | 0 <= i < |t.fields| ensures Places(Zero(env, t.fields[i].typ)) == {} {
        ZeroPlaces(env, t.fields[i].typ);
      }
    }
  }

  lemma FieldPlaces(env: Env, v: Val, t: Schema)
    requires t.StructT?
    ensures forall i | 0 <= i < |t.fields| :: Places(FieldVals(env, v, t)[i]) <= Places(v)
  {
    ZeroPlaces(env, t);
    forall i | 0 <= i < |t.fields| ensures Places(FieldVals(env, v, t)[i]) <= Places(v) {
      assert Places(Zero(env, t).fields[i]) <= Places(Zero(env, t));
    }
  }

  /** What can be followed is somewhere in the value. */
  lemma {:induction false} WalkablePlaces(env: Env, t: Schema, v: Val)
    ensures Walkable(env, t, v) <= Places(v)
    decreases t, 1, 0
  {
    match t
    case PtrT(elem) =>
      if IsPointer(v) {
        WalkablePlaces(env, elem, v.to);
      }
    case StructT(_, fields) =>
      if GoodStruct(t) {
        FieldPlaces(env, v, t);
        WalkableFieldsPlaces(env, t, FieldVals(env, v, t), |fields|, Places(v));
      }
    case _ =>
  }

  lemma {:induction false} WalkableFieldsPlaces(env: Env, t: Schema, vals: seq<Val>, m: nat, all: set<nat>)
    requires t.StructT? && |vals| == |t.fields| && m <= |vals|
    requires forall i | 0 <= i < |vals| :: Places(vals[i]) <= all
    ensures WalkableFields(env, t, vals, m) <= all
    decreases t, 0, m
  {
    if m > 0 {
      WalkableFieldsPlaces(env, t, vals, m - 1, all);
      var f, v := t.fields[m - 1], vals[m - 1];
      if f.tag.Key? {
        WalkablePlaces(env, f.typ, v);
      } else if f.tag.Inline? && Inlined(f).Some? {
        var st := Inlined(f).value;
        ZeroPlaces(env, st);
        FieldPlaces(env, if f.typ.StructT? then v else Pointee(env, v, st), st);
        WalkableFieldsPlaces(env, st, InnerVals(env, f, v), |st.fields|, all);
      }
    }
  }

  /** A bind follows no pointer of the caller but the walkable ones. */
  lemma {:induction false} WalksWithin(env: Env, n: Tree, t: Schema, v: Val, path: string)
    requires FreshVariants(env)
    ensures BindValue(env, n, t, v, path).walks <= Walkable(env, t, v)
    decreases n, 3, t
  {
    hide BindStruct, BindKeys, BindItems, BindVariant, FreshVariants;
    match t
    case PtrT(elem) =>
      ZeroPlaces(env, elem);
      WalkablePlaces(env, elem, Zero(env, elem));
      WalksWithin(env, n, elem, Pointee(env, v, elem), path);
    case IfaceT(family, _) =>
      if family in env.families {
        VariantWalks(env, n, family, v, path);
      }
    case StructT(_, _) =>
      if n.Map? {
        StructWalks(env, n, n.children, t, v, path);
      }
    case MapT(_, elem) =>
      if n.Map? {
        KeysWalk(env, n, elem, |n.keys|, path);
      }
    case SliceT(elem) =>
      if n.Seq? {
        ItemsWalk(env, n, elem, |n.items|, path);
      }
    case _ =>
  }

  /** Nothing is followed from a zero value. */
  lemma FromZero(env: Env, n: Tree, t: Schema, path: string)
    requires FreshVariants(env)
    ensures BindValue(env, n, t, Zero(env, t), path).walks == {}
    decreases n, 4
  {
    hide BindValue, FreshVariants;
    WalksWithin(env, n, t, Zero(env, t), path);
    ZeroPlaces(env, t);
    WalkablePlaces(env, t, Zero(env, t));
  }

  lemma {:induction false} KeysWalk(env: Env, n: Tree, elem: Schema, m: nat, path: string)
    requires n.Map? && m <= |n.keys| && FreshVariants(env)
    ensures BindKeys(env, n, elem, m, path).walks == {}
    decreases n, 1, elem, m
  {
    hide BindValue, FreshVariants;
    if m > 0 {
      KeysWalk(env, n, elem, m - 1, path);
      var key := n.keys[m - 1];
      if key in n.children {
        FromZero(env, n.children[key], elem, JoinPath(path, key));
      }
    }
  }

  lemma {:induction false} ItemsWalk(env: Env, n: Tree, elem: Schema, m: nat, path: string)
    requires n.Seq? && m <= |n.items| && FreshVariants(env)
    ensures BindItems(env, n, elem, m, path).walks == {}
    decreases n, 1, elem, m
  {
    hide BindValue, FreshVariants;
    if m > 0 {
      ItemsWalk(env, n, elem, m - 1, path);
      FromZero(env, n.items[m - 1], elem, ItemPath(path, m - 1));
    }
  }

  lemma {:induction false} StructWalks(env: Env, n: Tree, cs: map<string, Tree>, t: Schema, v: Val, path: string)
    requires t.StructT? && FreshVariants(env) && forall k | k in cs :: cs[k] < n
    ensures BindStruct(env, n, cs, t, v, path).walks <= Walkable(env, t, v)
    decreases n, 1, t
  {
    hide BindFields, FreshVariants;
    FieldsWalk(env, n, cs, t, FieldVals(env, v, t), |t.fields|, path);
  }

  lemma {:induction false} FieldsWalk(env: Env, n: Tree, cs: map<string, Tree>, t: Schema, vals: seq<Val>, m: nat, path: string)
    requires t.StructT? && |vals| == |t.fields| && m <= |vals| && FreshVariants(env) && forall k | k in cs :: cs[k] < n
    ensures BindFields(env, n, cs, t, vals, m, path).walks <= WalkableFields(env, t, vals, m)
    decreases n, 0, t, m
  {
    hide BindField, FreshVariants;
    if m > 0 {
      FieldsWalk(env, n, cs, t, vals, m - 1, path);
      FieldWalks(env, n, cs, t, m - 1, vals[m - 1], path);
    }
  }

  lemma {:induction false} FieldWalks(env: Env, n: Tree, cs: map<string, Tree>, t: Schema, i: nat, v: Val, path: string)
    requires t.StructT? && i < |t.fields| && FreshVariants(env) && forall k | k in cs :: cs[k] < n
    ensures BindField(env, n, cs, t, i, v, path).walks <= WalkableField(env, t, i, v)
    decreases n, 0, t, i
  {
    hide BindValue, BindFields, FreshVariants;
    var f := t.fields[i];
    if f.tag.Key? && f.tag.key in cs {
      WalksWithin(env, cs[f.tag.key], f.typ, v, JoinPath(path, f.tag.key));
    } else if f.tag.Inline? && Inlined(f).Some? {
      FieldsWalk(env, n, cs, Inlined(f).value, InnerVals(env, f, v), |Inlined(f).value.fields|, path);
    }
  }

  lemma {:induction false} VariantWalks(env: Env, n: Tree, family: nat, v: Val, path: string)
    requires family in env.families && FreshVariants(env)
    ensures BindVariant(env, n, family, v, path).walks == {}
    decreases n, 2
  {
    hide BindStruct, Selectors, GoodStruct, Selectable;
    var fam := env.families[family];
    if VariantOf(fam, n).Some? {
      var variant := VariantOf(fam, n).value.1;
      StructWalks(env, n, n.children - {fam.disc}, variant.typ, variant.make, path);
      WalkablePlaces(env, variant.typ, variant.make);
    }
  }

  /// ## And each walkable one is followed by some bind

  /** A tree that leads a bind through a given pointer. */
  lemma {:induction false} WalkedBySome(env: Env, t: Schema, v: Val, path: string, a: nat) returns (n: Tree)
    requires a in Walkable(env, t, v)
    ensures WF(n) && a in BindValue(env, n, t, v, path).walks
    decreases t, 1, 0
  {
    match t
    case PtrT(elem) =>
      if IsPointer(v) && a in Walkable(env, elem, v.to) {
        n := WalkedBySome(env, elem, v.to, path, a);
      } else {
        n := Scalar("", "", false, false, "");
      }
    case StructT(_, fields) =>
      n := WalkedStruct(env, t, v, path, a);
  }

  lemma {:induction false} WalkedStruct(env: Env, t: Schema, v: Val, path: string, a: nat) returns (n: Tree)
    requires t.StructT? && a in Walkable(env, t, v)
    ensures WF(n) && a in BindValue(env, n, t, v, path).walks
    decreases t, 0, |t.fields| + 1
  {
    hide BindFields, FieldVals, WalkableFields, GoodStruct, KeysFit;
    var vals := FieldVals(env, v, t);
    var key, c := WalkedField(env, t, vals, |t.fields|, path, a);
    n := Map([key], map[key := c], "");
    assert c == n.children[key] && c < n;
    assert SetOf([key]) == {key};
    assert a in BindFields(env, n, n.children, t, vals, |t.fields|, path).walks;
    assert BindStruct(env, n, n.children, t, v, path).walks == BindFields(env, n, n.children, t, vals, |t.fields|, path).walks;
  }

  /** A key and its value that do so for the fields of a struct. */
  lemma {:induction false} WalkedField(env: Env, t: Schema, vals: seq<Val>, m: nat, path: string, a: nat)
    returns (key: string, c: Tree)
    requires t.StructT? && |vals| == |t.fields| && m <= |vals| && a in WalkableFields(env, t, vals, m)
    ensures WF(c) && key in KeySet(t, m)
    ensures forall n: Tree | c < n :: a in BindFields(env, n, map[key := c], t, vals, m, path).walks
    decreases t, 0, m
  {
    hide BindValue, BindFields, BindField;
    var i: nat := m - 1;
    var f, v := t.fields[i], vals[i];
    if a in WalkableFields(env, t, vals, i) {
      key, c := WalkedField(env, t, vals, i, path, a);
      forall n: Tree | c < n ensures a in BindFields(env, n, map[key := c], t, vals, m, path).walks {
        FieldsStep(env, n, map[key := c], t, vals, m, path);
      }
    } else if f.tag.Key? {
      key := f.tag.key;
      c := WalkedBySome(env, f.typ, v, JoinPath(path, key), a);
      forall n: Tree | c < n ensures a in BindFields(env, n, map[key := c], t, vals, m, path).walks {
        FieldsStep(env, n, map[key := c], t, vals, m, path);
        FieldKey(env, n, map[key := c], t, i, v, path);
      }
    } else {
      var st := Inlined(f).value;
      if a in WalkableFields(env, st, InnerVals(env, f, v), |st.fields|) {
        key, c := WalkedField(env, st, InnerVals(env, f, v), |st.fields|, path, a);
      } else {
        key :| key in OwnKeys(t, i);
        c := Scalar("", "", false, false, "");
      }
      forall n: Tree | c < n ensures a in BindFields(env, n, map[key := c], t, vals, m, path).walks {
        FieldsStep(env, n, map[key := c], t, vals, m, path);
        assert key in map[key := c].Keys && key in OwnKeys(t, i);
        FieldEntered(env, n, map[key := c], t, i, v, path);
      }
    }
  }

  /** Exactly the destinations without a walkable pointer are bound without following one of the caller. */
  lemma NeverWalksIff(env: Env, t: Schema, v: Val, path: string)
    requires FreshVariants(env)
    ensures (forall n | WF(n) :: BindValue(env, n, t, v, path).walks == {}) <==> Walkable(env, t, v) == {}
  {
    hide BindValue, Walkable, FreshVariants;
    if Walkable(env, t, v) == {} {
      forall n ensures BindValue(env, n, t, v, path).walks == {} {
        WalksWithin(env, n, t, v, path);
      }
    } else {
      var a :| a in Walkable(env, t, v);
      var n := WalkedBySome(env, t, v, path, a);
    }
  }
}
