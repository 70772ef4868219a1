/** What binding means, with no order in it: the reference for the binder of flexconf/bind.go and the
    variant binding of flexconf/variants.go. User hooks, coercions and factories are pure functions. */
module Binding {
  import opened Text
  import opened Trees
  import opened Schema

  /** A destination value with everything behind its pointers. `Own` is a pointer of the caller, with the
      place it leads to; `New` is one allocated during the load, or by a factory, which nothing else
      holds. `Ref` is a pointer of the caller that has not been followed: it occurs where values lie in
      memory, never in what is bound. */
  datatype Val =
    | Leaf(text: string)
    | Struct(fields: seq<Val>)
    | Nil
    | Ref(addr: nat)
    | Own(addr: nat, to: Val)
    | New(to: Val)
    | MapV(entries: map<string, Val>)
    | SliceV(elems: seq<Val>)
    | Untyped(tree: Tree)        // the generic decoding of a subtree

  datatype Instance = Instance(selectors: map<string, string>, value: Val)

  /** An instance with its family, and its selector set with its family. */
  datatype Reg = Reg(family: nat, inst: Instance)
  datatype Sel = Sel(family: nat, selectors: map<string, string>)

  function SelOf(r: Reg): Sel {
    Sel(r.family, r.inst.selectors)
  }

  datatype Variant = Variant(typ: Schema, make: Val)
  datatype Family = Family(disc: string, variants: map<string, Variant>)

  datatype Env = Env(
    zero: nat -> string,                       // zero value of a scalar type
    coerce: (nat, string) -> Option<string>,   // parse a scalar for a scalar type
    scalarHook: (nat, string) -> bool,         // Validate of a scalar type
    hook: (nat, Val) -> bool,                  // Validate of a struct type
    sprint: Val -> string,                     // fmt.Sprint
    families: map<nat, Family>)

  /// ## The order of registrations

  /** A step down in a document. */
  datatype Step = InKey(key: string) | InItem(index: nat)

  /** A choice among keys. */
  type Pick = f: set<string> -> string | forall s | s != {} :: f(s) in s
    ghost witness s => SomeKey(s)

  ghost function SomeKey(s: set<string>): (k: string)
    ensures s != {} ==> k in s
  {
    if s == {} then "" else var k :| k in s; k
  }

  /** How the fields of a struct are visited: which of those that are left comes next, here and in the places
      below. Go leaves it open. */
  datatype Order = Order(pick: Pick, inner: map<Step, Order>)
  {
    function Below(step: Step): Order {
      if step in inner then inner[step] else this
    }
  }

  /** What a bind does to the registries, up to the order of visits: it adds an instance, or panics; one thing
      after the other; something in a place below; or what the fields of a struct do, in any order. */
  datatype Plan =
    | Nothing
    | Adds(reg: Reg)
    | Breaks
    | InTurn(first: Plan, second: Plan)
    | Under(step: Step, plan: Plan)
    | AnyOrder(keys: set<string>, parts: map<string, Plan>)

  datatype Event = Adding(reg: Reg) | Panic

  /** What happens, one after the other, in a given order of visits. */
  function EventsOf(o: Order, p: Plan): seq<Event>
    decreases p, 2
  {
    match p
    case Nothing => []
    case Adds(reg) => [Adding(reg)]
    case Breaks => [Panic]
    case InTurn(first, second) => EventsOf(o, first) + EventsOf(o, second)
    case Under(step, plan) => EventsOf(o.Below(step), plan)
    case AnyOrder(keys, parts) => FieldEvents(o, p, keys)
  }

  /** What the fields that are left do. */
  function FieldEvents(o: Order, p: Plan, todo: set<string>): seq<Event>
    requires p.AnyOrder?
    decreases p, 1, |todo|
  {
    if todo == {} then []
    else
      var k := o.pick(todo);
      PartEvents(o, p, k) + FieldEvents(o, p, todo - {k})
  }

  function PartEvents(o: Order, p: Plan, k: string): seq<Event>
    requires p.AnyOrder?
    decreases p, 0
  {
    if k in p.parts then EventsOf(o.Below(InKey(k)), p.parts[k]) else []
  }

  /** It adds an instance with this selector set, in every order. */
  ghost predicate Registers(p: Plan, x: Sel) {
    match p
    case Nothing => false
    case Adds(reg) => SelOf(reg) == x
    case Breaks => false
    case InTurn(first, second) => Registers(first, x) || Registers(second, x)
    case Under(_, plan) => Registers(plan, x)
    case AnyOrder(keys, parts) => exists k | k in parts && k in keys :: Registers(parts[k], x)
  }

  /// ## Outcomes

  /** The outcome of binding one place. `ok`: no error, duplicates and panics apart; `walks`: the pointers of
      the caller that are followed; and, if it is ok, the value and what is done to the registries. */
  datatype Bound = Bound(ok: bool, walks: set<nat>, v: Val, plan: Plan)

  /** The same for one field, by the keys it takes, and for the fields of a struct. */
  datatype BoundField = BoundField(ok: bool, walks: set<nat>, v: Val, parts: map<string, Plan>)
  datatype BoundFields = BoundFields(ok: bool, walks: set<nat>, vals: seq<Val>, parts: map<string, Plan>)

  function Same(v: Val): Bound {
    Bound(true, {}, v, Nothing)
  }

  function Fail(v: Val): Bound {
    Bound(false, {}, v, Nothing)
  }

  function Zero(env: Env, t: Schema): (v: Val)
    ensures t.StructT? ==> v.Struct? && |v.fields| == |t.fields|
  {
    match t
    case ScalarT(id) => Leaf(env.zero(id))
    case StructT(_, fields) => Struct(seq(|fields|, i requires 0 <= i < |fields| => Zero(env, fields[i].typ)))
    case ArrayT(_) => SliceV([])
    case _ => Nil
  }

  /** The fields of a struct value. A value that is not of its type, which Go rules out, reads as zero. */
  function FieldVals(env: Env, v: Val, t: Schema): (r: seq<Val>)
    requires t.StructT?
    ensures |r| == |t.fields|
  {
    if v.Struct? && |v.fields| == |t.fields| then v.fields else Zero(env, t).fields
  }

  predicate IsPointer(v: Val) {
    v.Own? || v.New?
  }

  /** What a pointer leads to, allocating for nil. */
  function Pointee(env: Env, v: Val, elem: Schema): Val {
    if IsPointer(v) then v.to else Zero(env, elem)
  }

  /** The pointer with a new pointee: the same place of the caller, or a place of this load. */
  function Repoint(v: Val, to: Val): Val {
    if v.Own? then Own(v.addr, to) else New(to)
  }

  function WalkOf(v: Val): set<nat> {
    if v.Own? then {v.addr} else {}
  }

  /// ## Paths

  function JoinPath(path: string, key: string): string {
    if path == "" then key else path + "." + key
  }

  function Digits(n: nat): string {
    var d := ["0", "1", "2", "3", "4", "5", "6", "7", "8", "9"][n % 10];
    if n < 10 then d else Digits(n / 10) + d
  }

  function ItemPath(path: string, i: nat): string {
    path + "[" + Digits(i) + "]"
  }

  /** The text after the last dot. */
  function LastSegment(path: string): string {
    if '.' !in path then path else LastSegment(path[IndexByte(path, '.').value + 1..])
  }

  /** The nearest naming key of a path; a list item has none. */
  function NamingKey(path: string): Option<string> {
    if path == "" || path[|path| - 1] == ']' || LastSegment(path) == "" then None else Some(LastSegment(path))
  }

  /// ## Places inside a struct

  /** The struct value behind an inlined field. */
  function InnerVals(env: Env, f: Field, v: Val): (r: seq<Val>)
    requires Inlined(f).Some?
    ensures |r| == |Inlined(f).value.fields|
  {
    var st := Inlined(f).value;
    FieldVals(env, if f.typ.StructT? then v else Pointee(env, v, st), st)
  }

  /** Puts the fields of an inlined struct back. */
  function WrapInner(f: Field, v: Val, vals: seq<Val>): Val {
    if f.typ.StructT? then Struct(vals) else Repoint(v, Struct(vals))
  }

  /** An index chain that leads to the field with this key and type. */
  ghost predicate Leads(t: Schema, index: seq<nat>, key: string, typ: Schema)
    requires t.StructT?
    decreases |index|
  {
    && index != [] && index[0] < |t.fields|
    && var f := t.fields[index[0]];
       if |index| == 1 then f.tag.Key? && f.tag.key == key && f.typ == typ
       else f.tag.Inline? && Inlined(f).Some? && Leads(Inlined(f).value, index[1..], key, typ)
  }

  function GetAt(env: Env, t: Schema, vals: seq<Val>, index: seq<nat>): Val
    requires t.StructT? && |vals| == |t.fields|
    decreases |index|
  {
    if index == [] || index[0] >= |vals| then Nil
    else if |index| == 1 then vals[index[0]]
    else if Inlined(t.fields[index[0]]).None? then Nil
    else
      var f := t.fields[index[0]];
      GetAt(env, Inlined(f).value, InnerVals(env, f, vals[index[0]]), index[1..])
  }

  function SetAt(env: Env, t: Schema, vals: seq<Val>, index: seq<nat>, x: Val): (r: seq<Val>)
    requires t.StructT? && |vals| == |t.fields|
    ensures |r| == |vals|
    decreases |index|
  {
    if index == [] || index[0] >= |vals| then vals
    else if |index| == 1 then vals[index[0] := x]
    else if Inlined(t.fields[index[0]]).None? then vals
    else
      var f, v := t.fields[index[0]], vals[index[0]];
      vals[index[0] := WrapInner(f, v, SetAt(env, Inlined(f).value, InnerVals(env, f, v), index[1..], x))]
  }

  /** The pointers of the caller on the way to a place. */
  function ChainWalks(env: Env, t: Schema, vals: seq<Val>, index: seq<nat>): set<nat>
    requires t.StructT? && |vals| == |t.fields|
    decreases |index|
  {
    if |index| <= 1 || index[0] >= |vals| || Inlined(t.fields[index[0]]).None? then {}
    else
      var f, v := t.fields[index[0]], vals[index[0]];
      (if f.typ.PtrT? then WalkOf(v) else {}) + ChainWalks(env, Inlined(f).value, InnerVals(env, f, v), index[1..])
  }

  /** No nil pointer lies on the way to a place: the read that panics on one succeeds. */
  predicate Readable(env: Env, t: Schema, vals: seq<Val>, index: seq<nat>)
    requires t.StructT? && |vals| == |t.fields|
    decreases |index|
  {
    |index| <= 1 || index[0] >= |vals| || Inlined(t.fields[index[0]]).None? ||
    var f, v := t.fields[index[0]], vals[index[0]];
    (f.typ.PtrT? ==> IsPointer(v)) && Readable(env, Inlined(f).value, InnerVals(env, f, v), index[1..])
  }

  /// ## Keys of a struct

  function KeySet(t: Schema, m: nat): set<string>
    requires t.StructT? && m <= |t.fields|
    decreases t, m
  {
    if m == 0 then {} else KeySet(t, m - 1) + OwnKeys(t, m - 1)
  }

  function OwnKeys(t: Schema, i: nat): set<string>
    requires t.StructT? && i < |t.fields|
    decreases t, i
  {
    var f := t.fields[i];
    match f.tag
    case Key(key, _, _) => {key}
    case Inline => if Inlined(f).None? then {} else KeySet(Inlined(f).value, |Inlined(f).value.fields|)
    case _ => {}
  }

  function AllKeys(t: Schema): set<string>
    requires t.StructT?
  {
    KeySet(t, |t.fields|)
  }

  /// ## The meaning of binding

  ghost function BindValue(env: Env, n: Tree, t: Schema, v: Val, path: string): Bound
    decreases n, 3, t
  {
    match t
    case ScalarT(id) =>
      if !n.Scalar? || env.coerce(id, n.value).None? then Fail(v)
      else
        var x := env.coerce(id, n.value).value;
        Same(Leaf(x)).(ok := env.scalarHook(id, x))
    case PtrT(elem) =>
      var b := BindValue(env, n, elem, Pointee(env, v, elem), path);
      b.(v := Repoint(v, b.v), walks := WalkOf(v) + b.walks)
    case IfaceT(family, empty) =>
      if family in env.families then BindVariant(env, n, family, v, path)
      else if empty then Same(Untyped(n))
      else Fail(v)
    case StructT(_, _) =>
      if n.Map? then BindStruct(env, n, n.children, t, v, path) else Fail(v)
    case MapT(stringKeys, elem) =>
      if !stringKeys || !n.Map? then Fail(v) else BindKeys(env, n, elem, |n.keys|, path)
    case SliceT(elem) =>
      if !n.Seq? then Fail(v) else BindItems(env, n, elem, |n.items|, path)
    case ArrayT(_) => Fail(v)
  }

  /** The first `m` keys of a map, each bound on a zero element. */
  ghost function BindKeys(env: Env, n: Tree, elem: Schema, m: nat, path: string): (r: Bound)
    requires n.Map? && m <= |n.keys|
    ensures r.v.MapV?
    decreases n, 1, elem, m
  {
    if m == 0 then Same(MapV(map[]))
    else
      var a, key := BindKeys(env, n, elem, m - 1, path), n.keys[m - 1];
      if key !in n.children then a
      else
        var b := BindValue(env, n.children[key], elem, Zero(env, elem), JoinPath(path, key));
        Both(a, b, InKey(key), MapV(a.v.entries[key := b.v]))
  }

  /** The first `m` items of a sequence, each bound on a zero element. */
  ghost function BindItems(env: Env, n: Tree, elem: Schema, m: nat, path: string): (r: Bound)
    requires n.Seq? && m <= |n.items|
    ensures r.v.SliceV?
    decreases n, 1, elem, m
  {
    if m == 0 then Same(SliceV([]))
    else
      var a := BindItems(env, n, elem, m - 1, path);
      var b := BindValue(env, n.items[m - 1], elem, Zero(env, elem), ItemPath(path, m - 1));
      Both(a, b, InItem(m - 1), SliceV(a.v.elems + [b.v]))
  }

  /** One bind, and then another in a place below. */
  function Both(a: Bound, b: Bound, step: Step, v: Val): Bound {
    Bound(a.ok && b.ok, a.walks + b.walks, v, InTurn(a.plan, Under(step, b.plan)))
  }

  /** The keys that are there are fields, and the required fields are there. */
  ghost predicate KeysFit(t: Schema, cs: map<string, Tree>)
    requires GoodStruct(t)
  {
    var infos := AllInfos(t).value;
    && cs.Keys <= AllKeys(t)
    && forall i | 0 <= i < |infos| && infos[i].required :: infos[i].key in cs
  }

  /** Binds the children `cs` of the map `n` onto a struct, then validates it. */
  ghost function BindStruct(env: Env, n: Tree, cs: map<string, Tree>, t: Schema, v: Val, path: string): Bound
    requires t.StructT? && forall k | k in cs :: cs[k] < n
    decreases n, 1, t
  {
    if !GoodStruct(t) then Fail(v)
    else
      var b := BindFields(env, n, cs, t, FieldVals(env, v, t), |t.fields|, path);
      Bound(b.ok && KeysFit(t, cs) && env.hook(t.name, Struct(b.vals)), b.walks, Struct(b.vals),
            AnyOrder(AllKeys(t), b.parts))
  }

  /** The first `m` fields: each takes its own child, if there is one, and nothing else. */
  ghost function BindFields(env: Env, n: Tree, cs: map<string, Tree>, t: Schema, vals: seq<Val>, m: nat,
                            path: string): (r: BoundFields)
    requires t.StructT? && |vals| == |t.fields| && m <= |vals| && forall k | k in cs :: cs[k] < n
    ensures |r.vals| == |vals| && r.parts.Keys <= cs.Keys
    decreases n, 0, t, m
  {
    if m == 0 then BoundFields(true, {}, vals, map[])
    else
      var a := BindFields(env, n, cs, t, vals, m - 1, path);
      var b := BindField(env, n, cs, t, m - 1, vals[m - 1], path);
      BoundFields(a.ok && b.ok, a.walks + b.walks, a.vals[m - 1 := b.v], a.parts + b.parts)
  }

  /** One field. An inlined struct is entered, and its nil pointer allocated, only for a key that is there. */
  ghost function BindField(env: Env, n: Tree, cs: map<string, Tree>, t: Schema, i: nat, v: Val, path: string): (r: BoundField)
    requires t.StructT? && i < |t.fields| && forall k | k in cs :: cs[k] < n
    ensures r.parts.Keys <= cs.Keys
    decreases n, 0, t, i
  {
    var f := t.fields[i];
    match f.tag
    case Key(key, _, _) =>
      if key in cs then
        var b := BindValue(env, cs[key], f.typ, v, JoinPath(path, key));
        BoundField(b.ok, b.walks, b.v, map[key := b.plan])
      else Untouched(v)
    case Inline =>
      if OwnKeys(t, i) !! cs.Keys then Untouched(v)
      else
        var st := Inlined(f).value;
        var b := BindFields(env, n, cs, st, InnerVals(env, f, v), |st.fields|, path);
        BoundField(b.ok, (if f.typ.PtrT? then WalkOf(v) else {}) + b.walks, WrapInner(f, v, b.vals), b.parts)
    case _ => Untouched(v)
  }

  function Untouched(v: Val): BoundField {
    BoundField(true, {}, v, map[])
  }

  /** The fields that contribute selectors, with their values. */
  function SelectorFields(env: Env, t: Schema, vals: seq<Val>, infos: seq<FieldInfo>): map<string, string>
    requires t.StructT? && |vals| == |t.fields|
  {
    if infos == [] then map[]
    else
      var m, info := SelectorFields(env, t, vals, infos[..|infos| - 1]), infos[|infos| - 1];
      if info.selector then m[info.key := env.sprint(GetAt(env, t, vals, info.index))] else m
  }

  function BaseSelectors(disc: string, name: string, path: string): map<string, string> {
    var s := map[disc := name];
    if NamingKey(path).Some? then s["name" := NamingKey(path).value] else s
  }

  /** The selectors of an instance: the discriminator, the naming key, the selector fields. */
  function Selectors(env: Env, disc: string, name: string, t: Schema, v: Val, path: string): map<string, string>
    requires t.StructT? && AllInfos(t).Some?
  {
    BaseSelectors(disc, name, path) + SelectorFields(env, t, FieldVals(env, v, t), AllInfos(t).value)
  }

  /** Every selector field can be read. */
  ghost predicate Selectable(env: Env, t: Schema, v: Val)
    requires GoodStruct(t)
  {
    forall i | 0 <= i < |AllInfos(t).value| && AllInfos(t).value[i].selector ::
      Readable(env, t, FieldVals(env, v, t), AllInfos(t).value[i].index)
  }

  /** The variant a map names by its discriminator: a literal that is registered. */
  function VariantOf(fam: Family, n: Tree): Option<(string, Variant)> {
    if !n.Map? || fam.disc !in n.children then None
    else
      var dn := n.children[fam.disc];
      if !dn.Scalar? || dn.substituted || dn.value !in fam.variants || !fam.variants[dn.value].typ.StructT? then None
      else Some((dn.value, fam.variants[dn.value]))
  }

  ghost function BindVariant(env: Env, n: Tree, family: nat, v: Val, path: string): Bound
    requires family in env.families
    decreases n, 2
  {
    var fam := env.families[family];
    match VariantOf(fam, n)
    case None => Fail(v)
    case Some((name, variant)) =>
      var b := BindStruct(env, n, n.children - {fam.disc}, variant.typ, variant.make, path);
      if !GoodStruct(variant.typ) then Fail(v)
      else
        var s := Selectors(env, fam.disc, name, variant.typ, b.v, path);
        Bound(b.ok, b.walks, New(b.v),
              InTurn(b.plan, if Selectable(env, variant.typ, b.v) then Adds(Reg(family, Instance(s, New(b.v)))) else Breaks))
  }
}
