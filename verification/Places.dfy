/** Places in a document: what is there, and what the shape check asks of it. */
module Places {
  import opened Text
  import opened Trees
  import opened Merge
  import opened Schema
  import opened Binding
  import opened Running
  import opened Agreement
  import opened Contents
  import R = Resolve

  /** What is at a place, below keys and items. */
  function TreeAt(n: Tree, steps: seq<Step>): Option<Tree>
    decreases |steps|
  {
    if steps == [] then Some(n)
    else
      match steps[0]
      case InKey(key) => if n.Map? && key in n.children then TreeAt(n.children[key], steps[1..]) else None
      case InItem(i) => if n.Seq? && i < |n.items| then TreeAt(n.items[i], steps[1..]) else None
  }

  /// ## The shape check, place by place

  /** The type that a field, a map or a list gives what is a step below, if the check looks there: an interface is not
      entered, and neither is a key that is no field. */
  ghost function StepType(t: Schema, step: Step): Option<Schema> {
    match t
    case StructT(_, _) =>
      if GoodStruct(t) && step.InKey? && step.key in Binding.AllKeys(t) then Some(FieldAtKey(t, step.key).typ) else None
    case MapT(_, elem) => if step.InKey? then Some(elem) else None
    case SliceT(elem) => if step.InItem? then Some(elem) else None
    case ArrayT(elem) => if step.InItem? then Some(elem) else None
    case _ => None
  }

  ghost function ShapeAt(t: Schema, steps: seq<Step>): Option<Schema>
    decreases |steps|, t
  {
    if t.PtrT? then ShapeAt(t.elem, steps)
    else if steps == [] then Some(t)
    else
      match StepType(t, steps[0])
      case None => None
      case Some(s) => ShapeAt(s, steps[1..])
  }

  /** The tree has the kind for its type, and the type's own tags are in order. */
  ghost predicate Fits(n: Tree, t: Schema) {
    match t
    case ScalarT(_) => n.Scalar?
    case StructT(_, _) => n.Map? && GoodStruct(t)
    case MapT(_, _) => n.Map?
    case SliceT(_) => n.Seq?
    case ArrayT(_) => n.Seq?
    case _ => true
  }

  /** What is at the place, if anything is, fits the type it has there. */
  ghost predicate FitsAt(n: Tree, t: Schema, steps: seq<Step>) {
    TreeAt(n, steps).Some? && ShapeAt(t, steps).Some? ==> Fits(TreeAt(n, steps).value, ShapeAt(t, steps).value)
  }

  /** A layer passes the shape check exactly if it fits wherever it has something that its type says something about. */
  lemma {:induction false} ShapedIff(n: Tree, t: Schema)
    ensures WellShaped(n, t) <==> forall steps :: FitsAt(n, t, steps)
    decreases n, t
  {
    if t.PtrT? {
      ShapedIff(n, t.elem);
      assert forall steps :: FitsAt(n, t, steps) <==> FitsAt(n, t.elem, steps);
    } else {
      ShapedStepwise(n, t);
      hide WellShaped, ShapeAt, TreeAt, StepType, Fits;
      forall step | ChildAt(n, step).Some? && StepType(t, step).Some?
        ensures WellShaped(ChildAt(n, step).value, StepType(t, step).value)
                <==> forall steps :: FitsAt(ChildAt(n, step).value, StepType(t, step).value, steps)
      {
        ShapedIff(ChildAt(n, step).value, StepType(t, step).value);
      }
      FitsStepwise(n, t);
    }
  }

  function ChildAt(n: Tree, step: Step): (c: Option<Tree>)
    ensures c.Some? ==> c.value < n
  {
    match step
    case InKey(key) => if n.Map? && key in n.children then Some(n.children[key]) else None
    case InItem(i) => if n.Seq? && i < |n.items| then Some(n.items[i]) else None
  }

  lemma ShapedStepwise(n: Tree, t: Schema)
    requires !t.PtrT?
    ensures WellShaped(n, t) <==>
            Fits(n, t) && forall step | ChildAt(n, step).Some? && StepType(t, step).Some? ::
                            WellShaped(ChildAt(n, step).value, StepType(t, step).value)
  {
    match t
    case StructT(_, _) =>
      if n.Map? && GoodStruct(t) {
        StructStepwise(n, t);
      }
    case MapT(_, elem) =>
      if n.Map? {
        forall k | k in n.children ensures ChildAt(n, InKey(k)) == Some(n.children[k]) && StepType(t, InKey(k)) == Some(elem) {}
      }
    case SliceT(elem) => ItemsStepwise(n, t, elem);
    case ArrayT(elem) => ItemsStepwise(n, t, elem);
    case _ =>
  }

  lemma ItemsStepwise(n: Tree, t: Schema, elem: Schema)
    requires t == SliceT(elem) || t == ArrayT(elem)
    ensures n.Seq? ==> forall i: nat | i < |n.items| ::
              ChildAt(n, InItem(i)) == Some(n.items[i]) && StepType(t, InItem(i)) == Some(elem)
  {}

  lemma StructStepwise(n: Tree, t: Schema)
    requires n.Map? && GoodStruct(t)
    ensures WellShaped(n, t) <==>
            forall step | ChildAt(n, step).Some? && StepType(t, step).Some? ::
              WellShaped(ChildAt(n, step).value, StepType(t, step).value)
  {
    var infos := AllInfos(t).value;
    hide WellShaped, FieldAtKey;
    ShapedByInfo(n, t);
    forall info | info in infos && info.key in n.children
      ensures ChildAt(n, InKey(info.key)) == Some(n.children[info.key]) && StepType(t, InKey(info.key)) == Some(info.typ)
    {
      OneOfAllKeys(t, info);
    }
    forall step | ChildAt(n, step).Some? && StepType(t, step).Some?
      ensures exists info :: info in infos && step == InKey(info.key) && StepType(t, step) == Some(info.typ)
    {
      FieldAtKeyIs(t, step.key);
    }
  }

  lemma FieldAtKeyIs(t: Schema, k: string)
    requires GoodStruct(t) && k in Binding.AllKeys(t)
    ensures FieldAtKey(t, k) in AllInfos(t).value && FieldAtKey(t, k).key == k
  {}

  lemma ShapedByInfo(n: Tree, t: Schema)
    requires n.Map? && GoodStruct(t)
    ensures WellShaped(n, t) <==>
            forall info | info in AllInfos(t).value && info.key in n.children :: WellShaped(n.children[info.key], info.typ)
  {}

  lemma FitsStepwise(n: Tree, t: Schema)
    requires !t.PtrT?
    ensures (forall steps :: FitsAt(n, t, steps)) <==>
            Fits(n, t) && forall step, steps | ChildAt(n, step).Some? && StepType(t, step).Some? ::
                            FitsAt(ChildAt(n, step).value, StepType(t, step).value, steps)
  {
    hide Fits, StepType;
    if forall steps :: FitsAt(n, t, steps) {
      assert FitsAt(n, t, []);
      forall step, steps | ChildAt(n, step).Some? && StepType(t, step).Some?
        ensures FitsAt(ChildAt(n, step).value, StepType(t, step).value, steps)
      {
        var all := [step] + steps;
        assert all[1..] == steps && all[0] == step;
        assert FitsAt(n, t, all);
      }
    }
    if Fits(n, t) && forall step, steps | ChildAt(n, step).Some? && StepType(t, step).Some? ::
                       FitsAt(ChildAt(n, step).value, StepType(t, step).value, steps) {
      forall steps ensures FitsAt(n, t, steps) {
        if steps != [] && ChildAt(n, steps[0]).Some? && StepType(t, steps[0]).Some? {
          assert FitsAt(ChildAt(n, steps[0]).value, StepType(t, steps[0]).value, steps[1..]);
        }
      }
    }
  }

  /// ## Resolution and paths of keys

  lemma {:induction false} ResolvedTreeAt(r: R.Resolver, n: Tree, steps: seq<Step>)
    ensures TreeAt(R.Resolved(r, n), steps) == match TreeAt(n, steps) case None => None case Some(x) => Some(R.Resolved(r, x))
    decreases |steps|
  {
    if steps != [] && n.Map? && steps[0].InKey? && steps[0].key in n.children {
      ResolvedTreeAt(r, n.children[steps[0].key], steps[1..]);
    } else if steps != [] && n.Seq? && steps[0].InItem? && steps[0].index < |n.items| {
      ResolvedTreeAt(r, n.items[steps[0].index], steps[1..]);
    }
  }

  function Keys(path: seq<string>): seq<Step> {
    seq(|path|, i requires 0 <= i < |path| => InKey(path[i]))
  }

  /** A path of keys leads to the same place as its steps. */
  lemma {:induction false} TreeAtKeys(n: Tree, path: seq<string>, steps: seq<Step>)
    ensures TreeAt(n, Keys(path) + steps) == match At(n, path) case None => None case Some(x) => TreeAt(x, steps)
    decreases |path|
  {
    var all := Keys(path) + steps;
    if path == [] {
      assert all == steps;
    } else {
      assert all[1..] == Keys(path[1..]) + steps && all[0] == InKey(path[0]);
      if n.Map? && path[0] in n.children {
        TreeAtKeys(n.children[path[0]], path[1..], steps);
      }
    }
  }

  lemma {:induction false} TreeAtLast(n: Tree, steps: seq<Step>, key: string)
    ensures TreeAt(n, steps + [InKey(key)]).Some? ==>
              TreeAt(n, steps).Some? && TreeAt(n, steps).value.Map? && key in TreeAt(n, steps).value.children
              && TreeAt(n, steps + [InKey(key)]) == Some(TreeAt(n, steps).value.children[key])
    decreases |steps|
  {
    var more := steps + [InKey(key)];
    if steps == [] {
      assert more[0] == InKey(key) && more[1..] == [];
    } else {
      assert more[0] == steps[0] && more[1..] == steps[1..] + [InKey(key)];
      if n.Map? && steps[0].InKey? && steps[0].key in n.children {
        TreeAtLast(n.children[steps[0].key], steps[1..], key);
      } else if n.Seq? && steps[0].InItem? && steps[0].index < |n.items| {
        TreeAtLast(n.items[steps[0].index], steps[1..], key);
      }
    }
  }

  lemma {:induction false} AllScalarsBelow(n: Tree, steps: seq<Step>, p: Tree -> bool)
    requires AllScalars(n, p) && TreeAt(n, steps).Some?
    ensures AllScalars(TreeAt(n, steps).value, p)
    decreases |steps|
  {
    if steps != [] {
      if n.Map? {
        AllScalarsBelow(n.children[steps[0].key], steps[1..], p);
      } else {
        AllScalarsBelow(n.items[steps[0].index], steps[1..], p);
      }
    }
  }
}
