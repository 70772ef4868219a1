/** The format-neutral value tree of flexconf/node.go, as a value. Line numbers are left out. */
module Trees {
  import opened Text

  datatype Tree =
    | Scalar(value: string, tag: string, secret: bool, substituted: bool, file: string)
    | Map(keys: seq<string>, children: map<string, Tree>, file: string)
    | Seq(items: seq<Tree>, file: string)

  datatype Kind = ScalarKind | MapKind | SeqKind

  function KindOf(t: Tree): Kind {
    match t
    case Scalar(_, _, _, _, _) => ScalarKind
    case Map(_, _, _) => MapKind
    case Seq(_, _) => SeqKind
  }

  /** Every map lists each of its keys exactly once. */
  ghost predicate WF(t: Tree) {
    match t
    case Scalar(_, _, _, _, _) => true
    case Map(keys, children, _) =>
      && NoDup(keys)
      && SetOf(keys) == children.Keys
      && forall k | k in children :: WF(children[k])
    case Seq(items, _) => forall i | 0 <= i < |items| :: WF(items[i])
  }

  /** `p` holds of every scalar of the tree. */
  ghost predicate AllScalars(t: Tree, p: Tree -> bool) {
    match t
    case Scalar(_, _, _, _, _) => p(t)
    case Map(_, children, _) => forall k | k in children :: AllScalars(children[k], p)
    case Seq(items, _) => forall i | 0 <= i < |items| :: AllScalars(items[i], p)
  }

  /** The scalars of the tree, in document order. */
  function Scalars(t: Tree): seq<Tree>
    decreases t
  {
    match t
    case Scalar(_, _, _, _, _) => [t]
    case Map(keys, _, _) => KeyScalars(t, keys)
    case Seq(items, _) => ItemScalars(t, items)
  }

  function KeyScalars(t: Tree, keys: seq<string>): seq<Tree>
    requires t.Map?
    decreases t, |keys|
  {
    if keys == [] then []
    else (if keys[0] in t.children then Scalars(t.children[keys[0]]) else []) + KeyScalars(t, keys[1..])
  }

  function ItemScalars(ghost t: Tree, items: seq<Tree>): seq<Tree>
    requires forall i | 0 <= i < |items| :: items[i] < t
    decreases t, |items|
  {
    if items == [] then [] else Scalars(items[0]) + ItemScalars(t, items[1..])
  }

  /** The first of some scalars that has something, if one has. */
  ghost predicate IsFirst<E>(found: Option<E>, scalars: seq<Tree>, f: Tree -> Option<E>) {
    if found.None? then forall i | 0 <= i < |scalars| :: f(scalars[i]).None?
    else exists i :: 0 <= i < |scalars| && f(scalars[i]) == found && forall j | 0 <= j < i :: f(scalars[j]).None?
  }

  lemma FirstOfTwo<E>(a: Option<E>, b: Option<E>, xs: seq<Tree>, ys: seq<Tree>, f: Tree -> Option<E>)
    requires IsFirst(a, xs, f) && IsFirst(b, ys, f)
    ensures IsFirst(if a.Some? then a else b, xs + ys, f)
  {
    var all := xs + ys;
    assert forall i | 0 <= i < |xs| :: all[i] == xs[i];
    assert forall i | 0 <= i < |ys| :: all[|xs| + i] == ys[i];
    if a.Some? {
      var i :| 0 <= i < |xs| && f(xs[i]) == a && forall j | 0 <= j < i :: f(xs[j]).None?;
      assert f(all[i]) == a;
    } else if b.Some? {
      var i :| 0 <= i < |ys| && f(ys[i]) == b && forall j | 0 <= j < i :: f(ys[j]).None?;
      assert f(all[|xs| + i]) == b;
    }
  }
}
