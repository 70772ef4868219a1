/** Destination types and the per-file shape check of flexconf/schema.go. A type is a finite tree:
    recursive Go types are not part of this model. */
module Schema {
  import opened Text
  import opened Trees
  import opened Merge
  import opened Resolve

  datatype Schema =
    | ScalarT(id: nat)                              // anything bound from one scalar
    | StructT(name: nat, fields: seq<Field>)
    | MapT(stringKeys: bool, elem: Schema)
    | SliceT(elem: Schema)
    | ArrayT(elem: Schema)
    | PtrT(elem: Schema)
    | IfaceT(family: nat, empty: bool)              // `empty`: the interface has no methods

  datatype Field = Field(tag: Tag, typ: Schema)

  /** A field's tag after parsing. `Inline` also stands for untagged embedding. */
  datatype Tag = Skip | Malformed | Inline | Key(key: string, required: bool, selector: bool)

  /** A bindable field: its key and the index chain that leads to it through inlined structs. */
  datatype FieldInfo = FieldInfo(key: string, index: seq<nat>, required: bool, selector: bool, typ: Schema)

  /** The struct an inlined field promotes, through at most one pointer. */
  function Inlined(f: Field): (r: Option<Schema>)
    ensures r.Some? ==> r.value.StructT? && r.value < f
  {
    if f.typ.StructT? then Some(f.typ)
    else if f.typ.PtrT? && f.typ.elem.StructT? then Some(f.typ.elem)
    else None
  }

  /** The bindable fields among the first `m`, in declaration order; None is a tag error. */
  function Infos(t: Schema, m: nat, prefix: seq<nat>): Option<seq<FieldInfo>>
    requires t.StructT? && m <= |t.fields|
    decreases t, m
  {
    if m == 0 then Some([])
    else
      match Infos(t, m - 1, prefix)
      case None => None
      case Some(before) =>
        match InfosOf(t, m - 1, prefix)
        case None => None
        case Some(own) => Some(before + own)
  }

  function InfosOf(t: Schema, i: nat, prefix: seq<nat>): Option<seq<FieldInfo>>
    requires t.StructT? && i < |t.fields|
    decreases t, i
  {
    var f := t.fields[i];
    match f.tag
    case Skip => Some([])
    case Malformed => None
    case Inline =>
      if Inlined(f).None? then None
      else Infos(Inlined(f).value, |Inlined(f).value.fields|, prefix + [i])
    case Key(key, required, selector) => Some([FieldInfo(key, prefix + [i], required, selector, f.typ)])
  }

  function AllInfos(t: Schema): Option<seq<FieldInfo>>
    requires t.StructT?
  {
    Infos(t, |t.fields|, [])
  }

  function KeysOf(infos: seq<FieldInfo>): (ks: seq<string>)
    ensures |ks| == |infos| && forall i | 0 <= i < |infos| :: ks[i] == infos[i].key
  {
    seq(|infos|, i requires 0 <= i < |infos| => infos[i].key)
  }

  /** The struct's tags parse and no key is promoted twice. */
  ghost predicate GoodStruct(t: Schema) {
    t.StructT? && AllInfos(t).Some? && NoDup(KeysOf(AllInfos(t).value))
  }

  function IndexByKey(infos: seq<FieldInfo>): map<string, FieldInfo> {
    if infos == [] then map[]
    else IndexByKey(infos[..|infos| - 1])[infos[|infos| - 1].key := infos[|infos| - 1]]
  }

  /** The shape check of one layer: present, known keys must have the kind their field takes. */
  ghost predicate WellShaped(n: Tree, t: Schema)
    decreases n, t
  {
    match t
    case ScalarT(_) => n.Scalar?
    case PtrT(elem) => WellShaped(n, elem)
    case IfaceT(_, _) => true
    case StructT(_, _) =>
      && n.Map? && GoodStruct(t)
      && forall i, k | 0 <= i < |AllInfos(t).value| && k in n.children && AllInfos(t).value[i].key == k ::
           WellShaped(n.children[k], AllInfos(t).value[i].typ)
    case MapT(_, elem) => n.Map? && forall k | k in n.children :: WellShaped(n.children[k], elem)
    case SliceT(elem) => n.Seq? && forall i | 0 <= i < |n.items| :: WellShaped(n.items[i], elem)
    case ArrayT(elem) => n.Seq? && forall i | 0 <= i < |n.items| :: WellShaped(n.items[i], elem)
  }

  /// ## The check survives merging and resolution

  lemma {:induction false} MergeShaped(a: Tree, b: Tree, t: Schema)
    requires WellShaped(a, t) && WellShaped(b, t)
    ensures WellShaped(MergeTwo(a, b), t)
    decreases b, t
  {
    match t
    case PtrT(elem) => MergeShaped(a, b, elem);
    case StructT(_, _) =>
      var infos, m := AllInfos(t).value, MergeTwo(a, b);
      forall i, k | 0 <= i < |infos| && k in m.children && infos[i].key == k
        ensures WellShaped(m.children[k], infos[i].typ)
      {
        if k in a.children && k in b.children {
          MergeShaped(a.children[k], b.children[k], infos[i].typ);
        }
      }
    case MapT(_, elem) =>
      forall k | k in a.children && k in b.children
        ensures WellShaped(MergeTwo(a.children[k], b.children[k]), elem)
      {
        MergeShaped(a.children[k], b.children[k], elem);
      }
    case _ =>
  }

  /** The merge of well-shaped layers is well shaped. */
  lemma {:induction false} FoldShaped(layers: seq<Tree>, t: Schema)
    requires layers != [] && forall i | 0 <= i < |layers| :: WellShaped(layers[i], t)
    ensures WellShaped(Fold(layers), t)
  {
    if |layers| > 1 {
      FoldShaped(layers[..|layers| - 1], t);
      MergeShaped(Fold(layers[..|layers| - 1]), layers[|layers| - 1], t);
    }
  }

  lemma {:induction false} SkeletonShaped(a: Tree, b: Tree, t: Schema)
    requires WellShaped(a, t) && SameSkeleton(a, b)
    ensures WellShaped(b, t)
    decreases a, t
  {
    match t
    case ScalarT(_) =>
    case IfaceT(_, _) =>
    case PtrT(elem) => SkeletonShaped(a, b, elem);
    case StructT(_, _) =>
      var infos := AllInfos(t).value;
      forall i, k | 0 <= i < |infos| && k in b.children && infos[i].key == k
        ensures WellShaped(b.children[k], infos[i].typ)
      {
        SkeletonShaped(a.children[k], b.children[k], infos[i].typ);
      }
    case MapT(_, elem) =>
      forall k | k in b.children ensures WellShaped(b.children[k], elem) {
        SkeletonShaped(a.children[k], b.children[k], elem);
      }
    case SliceT(elem) =>
      forall i | 0 <= i < |b.items| ensures WellShaped(b.items[i], elem) {
        SkeletonShaped(a.items[i], b.items[i], elem);
      }
    case ArrayT(elem) =>
      forall i | 0 <= i < |b.items| ensures WellShaped(b.items[i], elem) {
        SkeletonShaped(a.items[i], b.items[i], elem);
      }
  }

  /** What is bound is well shaped whenever every layer was. */
  lemma PipelineShaped(r: Resolver, layers: seq<Tree>, t: Schema)
    requires layers != [] && forall i | 0 <= i < |layers| :: WellShaped(layers[i], t)
    ensures WellShaped(Resolved(r, Fold(layers)), t)
  {
    FoldShaped(layers, t);
    ResolvedSkeleton(r, Fold(layers));
    SkeletonShaped(Fold(layers), Resolved(r, Fold(layers)), t);
  }

  /// ## Layers of one schema merge associatively

  ghost predicate NoIface(t: Schema) {
    match t
    case ScalarT(_) => true
    case StructT(_, fields) => forall i | 0 <= i < |fields| :: NoIface(fields[i].typ)
    case MapT(_, elem) => NoIface(elem)
    case SliceT(elem) => NoIface(elem)
    case ArrayT(elem) => NoIface(elem)
    case PtrT(elem) => NoIface(elem)
    case IfaceT(_, _) => false
  }

  /** No array either: the types whose binding cannot meet an unexpected kind. */
  ghost predicate NoArray(t: Schema) {
    match t
    case ScalarT(_) => true
    case StructT(_, fields) => forall i | 0 <= i < |fields| :: NoArray(fields[i].typ)
    case MapT(_, elem) => NoArray(elem)
    case SliceT(elem) => NoArray(elem)
    case ArrayT(_) => false
    case PtrT(elem) => NoArray(elem)
    case IfaceT(_, _) => true
  }

  lemma {:induction false} InfosKeep(t: Schema, m: nat, prefix: seq<nat>)
    requires t.StructT? && m <= |t.fields| && Infos(t, m, prefix).Some?
    ensures var infos := Infos(t, m, prefix).value;
            forall i | 0 <= i < |infos| ::
              (NoIface(t) ==> NoIface(infos[i].typ)) && (NoArray(t) ==> NoArray(infos[i].typ))
    decreases t, m
  {
    if m > 0 {
      InfosKeep(t, m - 1, prefix);
      var f := t.fields[m - 1];
      if f.tag.Inline? {
        InfosKeep(Inlined(f).value, |Inlined(f).value.fields|, prefix + [m - 1]);
      }
    }
  }

  /** Every key of the tree is a key of the schema, at each struct. */
  ghost predicate AllKnown(n: Tree, t: Schema)
    decreases n, t
  {
    match t
    case PtrT(elem) => AllKnown(n, elem)
    case StructT(_, _) =>
      n.Map? && GoodStruct(t) ==>
        forall k | k in n.children ::
          exists i | 0 <= i < |AllInfos(t).value| ::
            AllInfos(t).value[i].key == k && AllKnown(n.children[k], AllInfos(t).value[i].typ)
    case MapT(_, elem) => n.Map? ==> forall k | k in n.children :: AllKnown(n.children[k], elem)
    case _ => true
  }

  lemma {:induction false} KnownShapesAgree(a: Tree, b: Tree, t: Schema)
    requires NoIface(t) && WellShaped(a, t) && WellShaped(b, t) && AllKnown(a, t)
    ensures SameShape(a, b)
    decreases a, t
  {
    match t
    case PtrT(elem) => KnownShapesAgree(a, b, elem);
    case StructT(_, _) =>
      var infos := AllInfos(t).value;
      InfosKeep(t, |t.fields|, []);
      forall k | k in a.children && k in b.children ensures SameShape(a.children[k], b.children[k]) {
        var i :| 0 <= i < |infos| && infos[i].key == k && AllKnown(a.children[k], infos[i].typ);
        KnownShapesAgree(a.children[k], b.children[k], infos[i].typ);
      }
    case MapT(_, elem) =>
      forall k | k in a.children && k in b.children ensures SameShape(a.children[k], b.children[k]) {
        KnownShapesAgree(a.children[k], b.children[k], elem);
      }
    case _ =>
  }

  /** Layers known to one schema without interfaces merge associatively. */
  lemma KnownLayersAssociate(a: Tree, b: Tree, c: Tree, t: Schema)
    requires WF(a) && WF(b) && WF(c)
    requires NoIface(t) && WellShaped(b, t) && WellShaped(c, t) && AllKnown(b, t)
    ensures MergeTwo(MergeTwo(a, b), c) == MergeTwo(a, MergeTwo(b, c))
  {
    KnownShapesAgree(b, c, t);
    SameShapeAssociates(a, b, c);
    AssociativeIff(a, b, c);
  }
}
