/** The binder of flexconf/bind.go and flexconf/variants.go at work. It writes the destination place by
    place, visits the fields of a struct in an order it is given, registers variant instances as it goes, and can
    take the registrations back. A place is passed in, with everything behind its pointers, and handed
    back as it is left, also when the bind fails; module `Memory` says where it lies. */
module Binder {
  import opened Text
  import opened Trees
  import opened Schema
  import opened Binding
  import opened BindingLaws
  import opened Fields
  import opened Variants
  import opened Running
  import opened Walks
  import opened Agreement
  import opened Events
  import opened Orders

  /** The instances of one family among the registrations. */
  function OfFamily(log: seq<Reg>, f: nat): seq<Instance> {
    if log == [] then []
    else
      var r := log[|log| - 1];
      OfFamily(log[..|log| - 1], f) + if r.family == f then [r.inst] else []
  }

  lemma OfFamilyOneMore(log: seq<Reg>, r: Reg, f: nat)
    ensures OfFamily(log + [r], f) == OfFamily(log, f) + if r.family == f then [r.inst] else []
  {
    assert (log + [r])[..|log|] == log;
  }

  lemma {:induction false} OfFamilyIn(log: seq<Reg>, f: nat, x: Instance)
    ensures x in OfFamily(log, f) <==> Reg(f, x) in log
  {
    if log != [] {
      OfFamilyIn(log[..|log| - 1], f, x);
    }
  }

  /** The families registered to. */
  function Families(log: seq<Reg>): set<nat> {
    set r | r in log :: r.family
  }

  lemma FamiliesOneMore(log: seq<Reg>, r: Reg)
    ensures Families(log + [r]) == Families(log) + {r.family}
  {
    assert r in log + [r];
  }

  lemma {:induction false} OfNoFamily(log: seq<Reg>, f: nat)
    requires f !in Families(log)
    ensures OfFamily(log, f) == []
  {
    if log != [] {
      var init, last := log[..|log| - 1], log[|log| - 1];
      assert last in log && forall r | r in init :: r in log;
      OfNoFamily(init, f);
    }
  }

  /** The selector sets registered before the load. */
  function StartSels(start: map<nat, seq<Instance>>): set<Sel> {
    set f, i | f in start && 0 <= i < |start[f]| :: Sel(f, start[f][i].selectors)
  }

  /** The duplicate check is exact: good families, and what is registered was built by binding. */
  ghost predicate Exact(env: Env, start: map<nat, seq<Instance>>) {
    && GoodFamilies(env)
    && (forall f, i | f in start && f in env.families && 0 <= i < |start[f]| ::
          Built(env.families[f], start[f][i].selectors))
  }

  /** What registries hold after more registrations. */
  function WithLog(start: map<nat, seq<Instance>>, log: seq<Reg>): map<nat, seq<Instance>> {
    map f | f in start :: start[f] + OfFamily(log, f)
  }

  /** What every registry holds. */
  ghost function HeldBy(regs: map<nat, Registry>, registries: set<Registry>): map<nat, seq<Instance>>
    requires forall f | f in regs :: regs[f] in registries
    reads registries
  {
    map f | f in regs :: regs[f].instances
  }

  /** What binding registers keeps the duplicate check exact. */
  lemma ExactAfter(env: Env, start: map<nat, seq<Instance>>, log: seq<Reg>)
    requires AllBuilt(env, start, log) && Exact(env, start)
    ensures Exact(env, WithLog(start, log))
  {
    hide GoodFamily, Built;
    var now: map<nat, seq<Instance>> := WithLog(start, log);
    forall f, i | f in now && f in env.families && 0 <= i < |now[f]|
      ensures Built(env.families[f], now[f][i].selectors)
    {
      if i >= |start[f]| {
        OfFamilyIn(log, f, now[f][i]);
      }
    }
  }

  /** A registry this load added to, with the count to go back to. */
  datatype Touched = Touched(reg: Registry, before: int)

  ghost predicate AllBuilt(env: Env, start: map<nat, seq<Instance>>, log: seq<Reg>) {
    Exact(env, start) ==>
      forall r | r in log :: r.family in env.families && Built(env.families[r.family], r.inst.selectors)
  }

  class Binder {
    const env: Env
    const regs: map<nat, Registry>
    ghost const registries: set<Registry>
    var touchedRegs: seq<Touched>
    ghost const start: map<nat, seq<Instance>>
    ghost const distinct: bool     // no registry had duplicates at the start
    ghost var log: seq<Reg>
    ghost var place: map<nat, nat>   // where the registry of a family is in `touchedRegs`

    constructor (env: Env, regs: map<nat, Registry>, ghost registries: set<Registry>)
      requires regs.Keys == env.families.Keys
      requires forall f | f in regs ::
                 regs[f] in registries && regs[f].familyType == f && regs[f].family == env.families[f]
      ensures this.env == env && this.regs == regs && this.registries == registries && log == []
      ensures start == HeldBy(regs, registries) && distinct == forall f | f in regs :: regs[f].Distinct()
      ensures Valid()
    {
      this.env, this.regs, touchedRegs := env, regs, [];
      this.registries := registries;
      start := HeldBy(regs, registries);
      distinct := forall f | f in regs :: regs[f].Distinct();
      log, place := [], map[];
    }

    ghost predicate Valid()
      reads this`log, this`touchedRegs, this`place, registries
    {
      Holding() && Listing(log) && AllBuilt(env, start, log)
    }

    /** Every registry holds what it held at the start and then this load's instances of its family. */
    ghost predicate Holding()
      reads this`log, registries
    {
      && regs.Keys == env.families.Keys == start.Keys
      && forall f | f in regs ::
           && regs[f] in registries && regs[f].familyType == f && regs[f].family == env.families[f]
           && regs[f].instances == start[f] + OfFamily(log, f)
           && (distinct ==> NoDuplicates(start[f]) && NoDuplicates(regs[f].instances))
    }

    /** Every registry the log says was added to is listed with its count at the start. */
    ghost predicate Listing(log: seq<Reg>)
      reads this`touchedRegs, this`place
    {
      && regs.Keys == start.Keys
      && (forall i | 0 <= i < |touchedRegs| ::
            var f := touchedRegs[i].reg.familyType;
            f in regs && touchedRegs[i] == Touched(regs[f], |start[f]|))
      && (forall f | f in place :: f in regs && place[f] < |touchedRegs| && touchedRegs[place[f]].reg == regs[f])
      && Families(log) <= place.Keys
    }

    lemma Held()
      requires Valid()
      ensures (forall f | f in regs :: regs[f] in registries) && HeldBy(regs, registries) == WithLog(start, log)
      ensures distinct ==> forall f | f in regs :: regs[f].Distinct()
    {}

    lemma Kept()
      requires Valid() && Exact(env, start)
      ensures Exact(env, WithLog(start, log))
    {
      ExactAfter(env, start, log);
    }

    /** The selector sets that are taken once these instances are registered. */
    ghost function Used(log: seq<Reg>): set<Sel> {
      StartSels(start) + SelsOf(log)
    }

    /** Undoes every registration of this load. */
    method Rollback()
      requires Valid()
      modifies registries
      ensures forall f | f in regs :: regs[f] in registries
      ensures HeldBy(regs, registries) == start && (distinct ==> forall f | f in regs :: regs[f].Distinct())
    {
      hide OfFamily, Exact, NoDuplicates;
      forall f | f in regs && f !in place ensures OfFamily(log, f) == [] {
        OfNoFamily(log, f);
      }
      hide Families, AllBuilt;
      for i := 0 to |touchedRegs|
        invariant forall f | f in regs ::
          || regs[f].instances == start[f]
          || (f in place && place[f] >= i && regs[f].instances == start[f] + OfFamily(log, f))
      {
        TakeBack(i);
      }
    }

    /** Undoes the registrations of one family. */
    method TakeBack(i: nat)
      requires Listing(log) && i < |touchedRegs| && touchedRegs[i].reg.familyType in regs
      requires forall f | f in regs :: regs[f].familyType == f
      requires var f := touchedRegs[i].reg.familyType;
               regs[f].instances == start[f] || regs[f].instances == start[f] + OfFamily(log, f)
      modifies touchedRegs[i].reg
      ensures var f := touchedRegs[i].reg.familyType;
              regs[f].instances == start[f] && forall g | g in place && place[g] == i :: g == f
      ensures forall f | f in regs && f != touchedRegs[i].reg.familyType :: regs[f].instances == old(regs[f].instances)
    {
      touchedRegs[i].reg.TruncateInstances(touchedRegs[i].before);
    }

    /** Lists a registry an instance was just added to, unless it is listed. Going back by one from its
        count is right because nothing of this load was in it before. */
    method Touch(reg: Registry, ghost was: seq<Reg>)
      requires Listing(was) && reg.familyType in regs && reg == regs[reg.familyType]
      requires Families(log) == Families(was) + {reg.familyType}
      requires reg.familyType !in Families(was) ==> |reg.instances| == |start[reg.familyType]| + 1
      modifies this`touchedRegs, this`place
      ensures Listing(log)
    {
      hide Families;
      ghost var family := reg.familyType;
      for i := 0 to |touchedRegs|
        invariant touchedRegs == old(touchedRegs) && place == old(place)
        invariant family in place ==> place[family] >= i
      {
        if touchedRegs[i].reg == reg {
          place := place[family := i];
          return;
        }
      }
      var n: int := reg.InstanceCount();
      place := place[family := |touchedRegs|];
      touchedRegs := touchedRegs + [Touched(reg, n - 1)];
    }

    /** Registers an instance. It is refused just when its selector set counts as a duplicate of one that is
        taken. */
    method Record(family: nat, inst: Instance) returns (ok: bool)
      requires Valid() && family in env.families
      requires Exact(env, start) ==> Built(env.families[family], inst.selectors)
      modifies this`touchedRegs, this`log, this`place, registries
      ensures Valid()
      ensures ok <==> !Taken(Used(old(log)), Sel(family, inst.selectors))
      ensures log == old(log) + if ok then [Reg(family, inst)] else []
    {
      hide EqualSelectors, Exact, Built, OfFamily, AllBuilt, Binder.Listing;
      var reg := regs[family];
      DuplicateCheck(family, inst);
      ok := reg.AddInstance(inst);
      if ok {
        Note(reg, inst);
      }
    }

    /** Notes that an instance was added to a registry. */
    method Note(reg: Registry, ghost inst: Instance)
      requires regs.Keys == env.families.Keys == start.Keys && Listing(log) && AllBuilt(env, start, log)
      requires forall f | f in regs ::
                 && regs[f] in registries && regs[f].familyType == f && regs[f].family == env.families[f]
                 && regs[f].instances == start[f] + OfFamily(log, f) + (if regs[f] == reg then [inst] else [])
                 && (distinct ==> NoDuplicates(start[f]) && NoDuplicates(regs[f].instances))
      requires reg.familyType in regs && reg == regs[reg.familyType]
      requires Exact(env, start) ==> Built(env.families[reg.familyType], inst.selectors)
      modifies this`touchedRegs, this`log, this`place
      ensures Valid()
      ensures log == old(log) + [Reg(reg.familyType, inst)]
    {
      hide Exact, Built, OfFamily, Families, Binder.Listing;
      ghost var r := Reg(reg.familyType, inst);
      log := log + [r];
      forall f | f in regs ensures OfFamily(log, f) == OfFamily(old(log), f) + if f == reg.familyType then [inst] else [] {
        OfFamilyOneMore(old(log), r, f);
      }
      assert Holding() && AllBuilt(env, start, log);
      FamiliesOneMore(old(log), r);
      if reg.familyType !in Families(old(log)) {
        OfNoFamily(old(log), reg.familyType);
      }
      hide AllBuilt, Binder.Holding;
      Touch(reg, old(log));
    }

    /** The registry's search sees the sets of this family, before the load and of the load. */
    lemma DuplicateCheck(family: nat, inst: Instance)
      requires Valid() && family in env.families
      ensures (forall e | e in regs[family].instances :: !EqualSelectors(e.selectors, inst.selectors))
              <==> forall u | u in Used(log) :: !Clash(u, Sel(family, inst.selectors))
    {
      hide EqualSelectors, AllBuilt;
      forall e | e in regs[family].instances ensures Sel(family, e.selectors) in Used(log) {
        OfFamilyIn(log, family, e);
        if e in OfFamily(log, family) {
          assert SelOf(Reg(family, e)) == Sel(family, e.selectors);
        }
      }
      forall u | u in Used(log) && u.family == family
        ensures exists e :: e in regs[family].instances && e.selectors == u.selectors
      {
        if u in SelsOf(log) {
          var r :| r in log && SelOf(r) == u;
          OfFamilyIn(log, family, r.inst);
          assert Reg(family, r.inst) == r && r.inst in regs[family].instances;
        } else {
          var i :| 0 <= i < |start[family]| && u == Sel(family, start[family][i].selectors);
          assert start[family][i] in regs[family].instances;
        }
      }
    }

    /// ## Structs

    /** Binds a struct: every key must be a field, every required field must have a key, each field that
        is there is bound in its place, and the whole is validated. */
    method BindStruct(o: Order, ghost n: Tree, keys: seq<string>, cs: map<string, Tree>, t: Schema, v: Val, path: string)
      returns (err: Option<Error>, v': Val)
      requires Valid() && t.StructT? && SetOf(keys) == cs.Keys && forall k | k in cs :: cs[k] < n && WF(cs[k])
      modifies this`touchedRegs, this`log, this`place, registries
      ensures Valid()
      ensures Did(RunStruct(env, o, n, cs, t, v, path, Used(old(log))), err, v', old(log), log)
      decreases n, 2
    {
      hide RunFields, Binder.Valid, IndexByKey, AllInfos, Infos, Binder.Used, FieldVals, WF;
      v' := v;
      var found := StructFields(t);
      if found.None? {
        err := Some(BadTag);
        return;
      }
      var fields := found.value;
      KeysAreFields(t);
      var known := AllKnown(keys, fields);
      if !known {
        err := Some(UnknownField);
        return;
      }
      var vals;
      err, vals := BindPresent(o, n, cs, t, fields, v, path);
      v' := Struct(vals);
      if err.None? {
        err := if env.hook(t.name, v') then None else Some(Invalid);
      }
    }

    /** Looks for a key without a field. */
    static method AllKnown(keys: seq<string>, fields: map<string, FieldInfo>) returns (ok: bool)
      ensures ok <==> SetOf(keys) <= fields.Keys
    {
      for i := 0 to |keys|
        invariant forall j | 0 <= j < i :: keys[j] in fields
      {
        if keys[i] !in fields {
          assert keys[i] in SetOf(keys);
          return false;
        }
      }
      ok := true;
    }

    /** Visits the fields, binds those whose keys are there, and checks that the required ones are. */
    method BindPresent(o: Order, ghost n: Tree, cs: map<string, Tree>, t: Schema, fields: map<string, FieldInfo>, v: Val,
                       path: string)
      returns (err: Option<Error>, vals: seq<Val>)
      requires Valid() && GoodStruct(t) && fields == IndexByKey(AllInfos(t).value) && fields.Keys == AllKeys(t)
      requires cs.Keys <= fields.Keys && forall k | k in cs :: cs[k] < n && WF(cs[k])
      modifies this`touchedRegs, this`log, this`place, registries
      ensures Valid()
      ensures var r := RunFields(env, o, n, cs, t, FieldVals(env, v, t), AllKeys(t), path, Used(old(log)));
              err == r.err && vals == r.vals && log == old(log) + r.log
      decreases n, 1
    {
      hide Binder.Valid, IndexByKey, AllInfos, AllKeys, Infos, Binder.Used, FieldVals, RunField, RunFields, WF, SelsOf;
      vals := FieldVals(env, v, t);
      var todo := fields.Keys;
      ghost var whole, more := RunFields(env, o, n, cs, t, vals, todo, path, Used(log)), [];
      while todo != {}
        invariant Valid() && |vals| == |t.fields| && todo <= fields.Keys && log == old(log) + more
        invariant var rest := RunFields(env, o, n, cs, t, vals, todo, path, Used(log));
                  whole == rest.(log := more + rest.log)
      {
        var key := o.pick(todo);
        var info := fields[key];
        AtKey(t, key);
        FieldsNext(env, o, n, cs, t, vals, todo, path, Used(log));
        todo := todo - {key};
        if key !in cs {
          if info.required {
            err := Some(MissingRequired);
            return;
          }
          continue;
        }
        ghost var r, was := RunField(env, o, n, cs, t, vals, info, path, Used(log)), log;
        err, vals := BindField(o, n, cs, t, info, vals, path);
        assert old(log) + more + r.log == old(log) + (more + r.log);
        if err.Some? {
          return;
        }
        UsedAfter(was, r.log);
        Appended(more, r.log, RunFields(env, o, n, cs, t, vals, todo, path, Used(log)).log);
        more := more + r.log;
      }
      NoFields(env, o, n, cs, t, vals, path, Used(log));
      err := None;
    }

    static lemma Appended(a: seq<Reg>, b: seq<Reg>, c: seq<Reg>)
      ensures a + (b + c) == a + b + c
    {}

    lemma UsedAfter(was: seq<Reg>, more: seq<Reg>)
      ensures Used(was + more) == Used(was) + SelsOf(more)
    {
      SelsOfTogether(was, more);
    }

    /** Binds one field whose key is there. */
    method BindField(o: Order, ghost n: Tree, cs: map<string, Tree>, t: Schema, info: FieldInfo, vals: seq<Val>, path: string)
      returns (err: Option<Error>, vals': seq<Val>)
      requires Valid() && GoodStruct(t) && |vals| == |t.fields| && (forall k | k in cs :: cs[k] < n && WF(cs[k]))
      requires info.key in cs && info in AllInfos(t).value
      modifies this`touchedRegs, this`log, this`place, registries
      ensures Valid() && |vals'| == |vals|
      ensures var r := RunField(env, o, n, cs, t, vals, info, path, Used(old(log)));
              err == r.err && vals' == r.vals && log == old(log) + r.log
      decreases n, 0
    {
      hide Binder.Valid, AllInfos, Infos, Leads, Binder.Used, WF;
      ChainOf(t, info);
      err, vals' := BindAt(o.Below(InKey(info.key)), t, vals, info.index, cs[info.key], info.typ, JoinPath(path, info.key));
    }

    /** Binds the place an index chain leads to, allocating nil pointers to inlined structs on the way. */
    method BindAt(o: Order, t: Schema, vals: seq<Val>, index: seq<nat>, n: Tree, typ: Schema, path: string)
      returns (err: Option<Error>, vals': seq<Val>)
      requires Valid() && t.StructT? && |vals| == |t.fields| && WF(n)
      requires exists key :: Leads(t, index, key, typ)
      modifies this`touchedRegs, this`log, this`place, registries
      ensures Valid() && |vals'| == |vals|
      ensures var r := RunValue(env, o, n, typ, GetAt(env, t, vals, index), path, Used(old(log)));
              err == r.err && vals' == SetAt(env, t, vals, index, r.v) && log == old(log) + r.log
      decreases n, 6, |index|
    {
      hide Binder.Valid, Binder.Used, RunValue;
      ghost var key :| Leads(t, index, key, typ);
      var i := index[0];
      if |index| == 1 {
        var x;
        err, x := BindValue(o, n, typ, vals[i], path);
        return err, vals[i := x];
      }
      var f := t.fields[i];
      var st := Inlined(f).value;
      assert Leads(st, index[1..], key, typ);
      var inner := InnerVals(env, f, vals[i]);
      err, inner := BindAt(o, st, inner, index[1..], n, typ, path);
      vals' := vals[i := WrapInner(f, vals[i], inner)];
    }

    /// ## Values

    /** Binds one place. */
    method BindValue(o: Order, n: Tree, t: Schema, v: Val, path: string) returns (err: Option<Error>, v': Val)
      requires Valid() && WF(n)
      modifies this`touchedRegs, this`log, this`place, registries
      ensures Valid()
      ensures Did(RunValue(env, o, n, t, v, path, Used(old(log))), err, v', old(log), log)
      decreases n, 5, t
    {
      hide RunStruct, RunKeys, RunItems, RunVariant, Binder.Valid, Binder.Used, WF;
      match t
      case ScalarT(id) => err, v' := BindScalar(n, id, v);
      case PtrT(elem) =>
        var x;
        err, x := BindValue(o, n, elem, Pointee(env, v, elem), path);
        v' := Repoint(v, x);
      case IfaceT(family, empty) => err, v' := BindInterface(o, n, family, empty, v, path);
      case StructT(_, _) =>
        if !n.Map? {
          return Some(KindMismatch), v;
        }
        MapWF(n);
        err, v' := BindStruct(o, n, n.keys, n.children, t, v, path);
      case MapT(stringKeys, elem) =>
        if !stringKeys {
          return Some(BadMapKey), v;
        }
        err, v' := BindMap(o, n, elem, v, path);
      case SliceT(elem) => err, v' := BindSlice(o, n, elem, v, path);
      case ArrayT(_) => err, v' := Some(if n.Scalar? then Unsupported else KindMismatch), v;
    }

    /** Parses a scalar into its place, and validates it there. */
    method BindScalar(n: Tree, id: nat, v: Val) returns (err: Option<Error>, v': Val)
      ensures Did(RunScalar(env, n, id, v), err, v', [], [])
    {
      if !n.Scalar? {
        return Some(KindMismatch), v;
      }
      var x := env.coerce(id, n.value);
      if x.None? {
        return Some(BadScalar), v;
      }
      v' := Leaf(x.value);
      err := if env.scalarHook(id, x.value) then None else Some(Invalid);
    }

    /** Binds a map key by key, each on a fresh element. The place changes only once all are bound. */
    method BindMap(o: Order, n: Tree, elem: Schema, v: Val, path: string) returns (err: Option<Error>, v': Val)
      requires Valid() && WF(n)
      modifies this`touchedRegs, this`log, this`place, registries
      ensures Valid()
      ensures Did(RunValue(env, o, n, MapT(true, elem), v, path, Used(old(log))), err, v', old(log), log)
      decreases n, 2
    {
      hide WF, Binder.Valid, Binder.Used, SelsOf, RunKeys, RunValue;
      WholeMap(env, o, n, elem, v, path, Used(log));
      if !n.Map? {
        return Some(KindMismatch), v;
      }
      MapWF(n);
      KeysNone(env, o, n, elem, path, Used(log));
      var entries := map[];
      forall i | 0 <= i < |n.keys| ensures n.keys[i] in n.children {
        assert n.keys[i] in SetOf(n.keys);
      }
      ghost var used, more := Used(log), [];
      for i := 0 to |n.keys|
        invariant Valid() && log == old(log) + more
        invariant RunKeys(env, o, n, elem, i, path, used) == Ran(None, MapV(entries), more)
      {
        var key := n.keys[i];
        ghost var was := log;
        UsedAfter(old(log), more);
        ghost var r := RunValue(env, o.Below(InKey(key)), n.children[key], elem, Zero(env, elem), JoinPath(path, key), Used(log));
        KeysNext(env, o, n, elem, i, path, used);
        KeysFailed(env, o, n, elem, i + 1, path, used);
        var x;
        err, x := BindValue(o.Below(InKey(key)), n.children[key], elem, Zero(env, elem), JoinPath(path, key));
        assert old(log) + more + r.log == old(log) + (more + r.log);
        if err.Some? {
          return err, v;
        }
        entries, more := entries[key := x], more + r.log;
      }
      err, v' := None, MapV(entries);
    }

    /** Binds a slice item by item, each on a zero element. The place changes only once all are bound. */
    method BindSlice(o: Order, n: Tree, elem: Schema, v: Val, path: string) returns (err: Option<Error>, v': Val)
      requires Valid() && WF(n)
      modifies this`touchedRegs, this`log, this`place, registries
      ensures Valid()
      ensures Did(RunValue(env, o, n, SliceT(elem), v, path, Used(old(log))), err, v', old(log), log)
      decreases n, 2
    {
      hide Binder.Valid, Binder.Used, SelsOf, RunItems, WF, RunValue;
      WholeSlice(env, o, n, elem, v, path, Used(log));
      if !n.Seq? {
        return Some(KindMismatch), v;
      }
      ItemsNone(env, o, n, elem, path, Used(log));
      var elems := [];
      ghost var used, more := Used(log), [];
      for i := 0 to |n.items|
        invariant Valid() && log == old(log) + more
        invariant RunItems(env, o, n, elem, i, path, used) == Ran(None, SliceV(elems), more)
      {
        ghost var was := log;
        UsedAfter(old(log), more);
        ghost var r := RunValue(env, o.Below(InItem(i)), n.items[i], elem, Zero(env, elem), ItemPath(path, i), Used(log));
        ItemsNext(env, o, n, elem, i, path, used);
        ItemsFailed(env, o, n, elem, i + 1, path, used);
        ItemWF(n, i);
        var x;
        err, x := BindValue(o.Below(InItem(i)), n.items[i], elem, Zero(env, elem), ItemPath(path, i));
        assert old(log) + more + r.log == old(log) + (more + r.log);
        if err.Some? {
          return err, v;
        }
        elems, more := elems + [x], more + r.log;
      }
      err, v' := None, SliceV(elems);
    }

    /** A family's interface takes one of its variants; the empty interface takes anything. */
    method BindInterface(o: Order, n: Tree, family: nat, empty: bool, v: Val, path: string)
      returns (err: Option<Error>, v': Val)
      requires Valid() && WF(n)
      modifies this`touchedRegs, this`log, this`place, registries
      ensures Valid()
      ensures Did(RunValue(env, o, n, IfaceT(family, empty), v, path, Used(old(log))), err, v', old(log), log)
      decreases n, 4
    {
      hide RunVariant, Binder.Used, Binder.Valid;
      KnownFamilies();
      if family in regs {
        err, v' := BindVariant(o, n, family, v, path);
        return;
      }
      if !empty {
        return Some(Unsupported), v;
      }
      err, v' := None, Untyped(n);
    }

    /** Makes the variant the discriminator names, binds the other keys onto it, puts it in its place and
        registers it. */
    method BindVariant(o: Order, n: Tree, family: nat, v: Val, path: string) returns (err: Option<Error>, v': Val)
      requires Valid() && WF(n) && family in regs
      modifies this`touchedRegs, this`log, this`place, registries
      ensures Valid()
      ensures family in env.families
      ensures Did(RunVariant(env, o, n, family, v, path, Used(old(log))), err, v', old(log), log)
      decreases n, 3
    {
      hide RunStruct, Binder.Used, Binder.Valid, SelsOf, Registered;
      KnownFamilies();
      FamilyKnown(family);
      var fam := regs[family].family;
      v' := v;
      if VariantOf(fam, n).None? {
        err := Some(BadVariant);
        return;
      }
      var (name, variant) := VariantOf(fam, n).value;
      var keys := KeysWithout(n.keys, fam.disc);
      MapWF(n);
      hide WF;
      var x;
      ghost var was, r := log, RunStruct(env, o, n, n.children - {fam.disc}, variant.typ, variant.make, path, Used(log));
      err, x := BindStruct(o, n, keys, n.children - {fam.disc}, variant.typ, variant.make, path);
      if err.Some? {
        return;
      }
      UsedAfter(was, r.log);
      ghost var y := Registered(env, family, name, variant.typ, x, path, Used(log));
      err, v' := Register(family, name, variant.typ, x, path);
      assert was + r.log + y.log == was + (r.log + y.log);
    }

    lemma KnownFamilies()
      requires Valid()
      ensures regs.Keys == env.families.Keys
    {}

    lemma FamilyKnown(family: nat)
      requires Valid() && family in env.families
      ensures family in regs && regs[family].family == env.families[family]
    {}

    /** Registers a bound variant under its selectors. */
    method Register(family: nat, name: string, t: Schema, x: Val, path: string) returns (err: Option<Error>, v': Val)
      requires Valid() && family in env.families && family in regs
      requires GoodStruct(t) && name in env.families[family].variants && t == env.families[family].variants[name].typ
      modifies this`touchedRegs, this`log, this`place, registries
      ensures Valid()
      ensures Did(Registered(env, family, name, t, x, path, Used(old(log))), err, v', old(log), log)
    {
      hide Binder.Valid, Exact, Selectors, Selectable, Binder.Used, Built, SelsOf, GoodStruct, Clash;
      v' := New(x);
      var derived := DeriveSelectors(env.families[family].disc, name, t, x, path);
      if derived.None? {
        err := Some(Panicked);
        return;
      }
      if Exact(env, start) {
        ExactFamily(env, start, family);
        SelectorsBuilt(env, env.families[family], name, x, path);
      }
      var ok := Record(family, Instance(derived.value, v'));
      err := if ok then None else Some(Duplicate);
    }

    /** The discriminator, the naming key, then the selector fields in any order; or a panic at one that lies
        behind a nil pointer. */
    method DeriveSelectors(disc: string, name: string, t: Schema, v: Val, path: string)
      returns (r: Option<map<string, string>>)
      requires GoodStruct(t)
      ensures r == if Selectable(env, t, v) then Some(Selectors(env, disc, name, t, v, path)) else None
    {
      hide GetAt, Readable, SelectorFields, SelectorMap, FieldVals, IndexByKey, LastSegment, Infos;
      var found := StructFields(t);
      var fields, vals := found.value, FieldVals(env, v, t);
      SelectorFieldsMap(env, t, vals, AllInfos(t).value);
      var s := map[disc := name];
      if NamingKey(path).Some? {
        s := s["name" := NamingKey(path).value];
      }
      r := AddSelectors(s, fields, t, vals);
      SelectableFields(env, t, v);
    }

    method AddSelectors(base: map<string, string>, fields: map<string, FieldInfo>, t: Schema, vals: seq<Val>)
      returns (r: Option<map<string, string>>)
      requires t.StructT? && |vals| == |t.fields|
      ensures r.Some? <==> forall k | k in fields && fields[k].selector :: Readable(env, t, vals, fields[k].index)
      ensures r.Some? ==> r.value == base + SelectorMap(env, t, vals, fields, {})
    {
      hide *;
      var s := base;
      var todo := fields.Keys;
      SelectorMapNone(env, t, vals, fields);
      while todo != {}
        invariant todo <= fields.Keys
        invariant s == base + SelectorMap(env, t, vals, fields, todo)
        invariant forall k | k in fields && k !in todo && fields[k].selector :: Readable(env, t, vals, fields[k].index)
      {
        var key :| key in todo;
        SelectorMapStep(env, t, vals, fields, todo, key);
        todo := todo - {key};
        if fields[key].selector {
          if !Readable(env, t, vals, fields[key].index) {
            return None;
          }
          s := s[key := env.sprint(GetAt(env, t, vals, fields[key].index))];
        }
      }
      r := Some(s);
    }
  }

  /** A method has done what a run does. */
  ghost predicate Did(r: Ran, err: Option<Error>, v: Val, was: seq<Reg>, now: seq<Reg>) {
    err == r.err && v == r.v && now == was + r.log
  }

  lemma ExactFamily(env: Env, start: map<nat, seq<Instance>>, family: nat)
    requires Exact(env, start) && family in env.families
    ensures GoodFamily(env.families[family])
  {}

  /** The field map gives the field of each key. */
  lemma AtKey(t: Schema, k: string)
    requires GoodStruct(t) && k in IndexByKey(AllInfos(t).value)
    ensures k in AllKeys(t) && FieldAtKey(t, k) == IndexByKey(AllInfos(t).value)[k] && FieldAtKey(t, k).key == k
    ensures FieldAtKey(t, k) in AllInfos(t).value
  {
    IndexFound(AllInfos(t).value, k);
    var i :| 0 <= i < |AllInfos(t).value| && AllInfos(t).value[i] == IndexByKey(AllInfos(t).value)[k];
    FieldIsAtKey(t, i);
  }

  lemma WholeMap(env: Env, o: Order, n: Tree, elem: Schema, v: Val, path: string, used: set<Sel>)
    ensures RunValue(env, o, n, MapT(true, elem), v, path, used)
              == if !n.Map? then Ran(Some(KindMismatch), v, []) else OnlyWhole(RunKeys(env, o, n, elem, |n.keys|, path, used), v)
  {
    hide RunKeys;
  }

  lemma WholeSlice(env: Env, o: Order, n: Tree, elem: Schema, v: Val, path: string, used: set<Sel>)
    ensures RunValue(env, o, n, SliceT(elem), v, path, used)
              == if !n.Seq? then Ran(Some(KindMismatch), v, [])
                 else OnlyWhole(RunItems(env, o, n, elem, |n.items|, path, used), v)
  {
    hide RunItems;
  }

  lemma KeysNone(env: Env, o: Order, n: Tree, elem: Schema, path: string, used: set<Sel>)
    requires n.Map?
    ensures RunKeys(env, o, n, elem, 0, path, used) == Ran(None, MapV(map[]), [])
  {}

  lemma KeysNext(env: Env, o: Order, n: Tree, elem: Schema, i: nat, path: string, used: set<Sel>)
    requires n.Map? && i < |n.keys| && n.keys[i] in n.children && RunKeys(env, o, n, elem, i, path, used).err.None?
    ensures var a, key := RunKeys(env, o, n, elem, i, path, used), n.keys[i];
            var r := RunValue(env, o.Below(InKey(key)), n.children[key], elem, Zero(env, elem), JoinPath(path, key),
                              used + SelsOf(a.log));
            RunKeys(env, o, n, elem, i + 1, path, used) == Ran(r.err, MapV(a.v.entries[key := r.v]), a.log + r.log)
  {
    hide RunValue;
  }

  lemma ItemsNone(env: Env, o: Order, n: Tree, elem: Schema, path: string, used: set<Sel>)
    requires n.Seq?
    ensures RunItems(env, o, n, elem, 0, path, used) == Ran(None, SliceV([]), [])
  {}

  lemma ItemsNext(env: Env, o: Order, n: Tree, elem: Schema, i: nat, path: string, used: set<Sel>)
    requires n.Seq? && i < |n.items| && RunItems(env, o, n, elem, i, path, used).err.None?
    ensures var a := RunItems(env, o, n, elem, i, path, used);
            var r := RunValue(env, o.Below(InItem(i)), n.items[i], elem, Zero(env, elem), ItemPath(path, i),
                              used + SelsOf(a.log));
            RunItems(env, o, n, elem, i + 1, path, used) == Ran(r.err, SliceV(a.v.elems + [r.v]), a.log + r.log)
  {
    hide RunValue;
  }

  lemma NoFields(env: Env, o: Order, n: Tree, cs: map<string, Tree>, t: Schema, vals: seq<Val>, path: string, used: set<Sel>)
    requires GoodStruct(t) && |vals| == |t.fields| && forall k | k in cs :: cs[k] < n
    ensures RunFields(env, o, n, cs, t, vals, {}, path, used) == RanFields(None, vals, [])
  {}

  /** The next field, and the others after it. */
  lemma FieldsNext(env: Env, o: Order, n: Tree, cs: map<string, Tree>, t: Schema, vals: seq<Val>, todo: set<string>,
                   path: string, used: set<Sel>)
    requires GoodStruct(t) && |vals| == |t.fields| && todo != {} && todo <= AllKeys(t) && forall k | k in cs :: cs[k] < n
    ensures var k := o.pick(todo);
            var info, left := FieldAtKey(t, k), todo - {k};
            RunFields(env, o, n, cs, t, vals, todo, path, used)
              == if k !in cs then
                   if info.required then RanFields(Some(MissingRequired), vals, [])
                   else RunFields(env, o, n, cs, t, vals, left, path, used)
                 else
                   var r := RunField(env, o, n, cs, t, vals, info, path, used);
                   if r.err.Some? then r
                   else
                     var rest := RunFields(env, o, n, cs, t, r.vals, left, path, used + SelsOf(r.log));
                     rest.(log := r.log + rest.log)
  {
    hide RunField;
  }

  lemma ItemWF(n: Tree, i: nat)
    requires WF(n) && n.Seq? && i < |n.items|
    ensures WF(n.items[i])
  {}

  /** The keys but one. */
  method KeysWithout(keys: seq<string>, key: string) returns (r: seq<string>)
    ensures SetOf(r) == SetOf(keys) - {key}
  {
    r := [];
    for i := 0 to |keys|
      invariant SetOf(r) == SetOf(keys[..i]) - {key}
    {
      assert keys[..i + 1] == keys[..i] + [keys[i]];
      NoDupAppend(keys[..i], [keys[i]]);
      NoDupAppend(r, [keys[i]]);
      if keys[i] != key {
        r := r + [keys[i]];
      }
    }
    assert keys[..|keys|] == keys;
  }

  lemma MapWF(n: Tree)
    requires WF(n) && n.Map?
    ensures SetOf(n.keys) == n.children.Keys && forall k | k in n.children :: n.children[k] < n && WF(n.children[k])
  {}

  /** Two binds of one tree from equal states, each visiting the fields of every struct in an order of its
      own: they succeed or fail together unless the order decides, and if both succeed the value and the
      instances registered are the same. */
  method BindTwice(a: Binder, b: Binder, o: Order, q: Order, n: Tree, t: Schema, v: Val, path: string)
    returns (errA: Option<Error>, errB: Option<Error>, va: Val, vb: Val)
    requires a.Valid() && b.Valid() && a != b && a.registries !! b.registries && WF(n) && FreshVariants(a.env)
    requires a.env == b.env && a.Used(a.log) == b.Used(b.log) && a.log == b.log
    modifies a, a.registries, b, b.registries
    ensures !OrderDecides(a.Used(old(a.log)), Binding.BindValue(a.env, n, t, v, path).plan) ==> (errA.None? <==> errB.None?)
    ensures errA.None? && errB.None? ==> va == vb && multiset(a.log) == multiset(b.log)
  {
    hide Binding.BindValue, RunValue, Binder.Valid, Binder.Used, OrderDecides, FreshVariants;
    ghost var was, used := a.log, a.Used(a.log);
    RunsAgree(a.env, o, q, n, t, v, path, used);
    errA, va := a.BindValue(o, n, t, v, path);
    errB, vb := b.BindValue(q, n, t, v, path);
  }
}
