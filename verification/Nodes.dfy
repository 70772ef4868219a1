/** The mutable node graph of flexconf: parsing, merging, include expansion and token resolution as
    the source does them, on linked nodes. Validity makes every node graph a tree: no node is
    reachable by two paths. */
module Nodes {
  import opened Text
  import opened Trees
  import opened Yaml
  import opened Scanner
  import opened Merge
  import R = Resolve
  import I = Include

  class Node {
    var kind: Kind
    var value: string
    var tag: string
    var secret: bool
    var substituted: bool
    var keys: seq<string>
    var children: map<string, Node>
    var items: seq<Node>
    var file: string

    ghost var tree: Tree       // the value this node stands for
    ghost var Repr: set<Node>  // the nodes reachable from here

    /** The fields agree with `tree`, and each position holds nodes of its own. */
    ghost predicate Local()
      reads this, Repr
    {
      && this in Repr
      && (forall n | n in Repr && n != this :: n.Repr <= Repr && this !in n.Repr)
      && KindOf(tree) == kind
      && (!kind.MapKind? ==> forall k :: k !in children)
      && (!kind.SeqKind? ==> |items| == 0)
      && (kind.ScalarKind? ==> tree == Scalar(value, tag, secret, substituted, file))
      && (kind.MapKind? ==>
            && tree.keys == keys && tree.file == file
            && NoDup(keys) && SetOf(keys) == children.Keys == tree.children.Keys)
      && (kind.SeqKind? ==> |tree.items| == |items| && tree.file == file)
      && (forall k | k in children ::
            && children[k] in Repr && children[k] != this && children[k].tree == tree.children[k])
      && (forall j, k | j in children && k in children && j != k :: children[j].Repr !! children[k].Repr)
      && (forall i | 0 <= i < |items| ::
            && items[i] in Repr && items[i] != this && items[i].tree == tree.items[i])
      && (forall i, j | 0 <= i < j < |items| :: items[i].Repr !! items[j].Repr)
    }

    /** `Local` under a second name, hidden in most proofs so that they look at one node at a time. */
    ghost predicate Sealed()
      reads this, Repr
    {
      Local()
    }

    lemma Open()
      requires Valid()
      ensures Local()
    {}

    lemma Close()
      requires Local() && forall n | n in Repr && n != this :: n.Repr <= Repr && n.Sealed()
      ensures Valid()
    {}

    lemma Part(n: Node)
      requires Valid() && n in Repr
      ensures n.Valid()
    {}

    lemma Kids()
      requires Valid()
      ensures forall k | k in children ::
        children[k].Valid() && children[k].Repr <= Repr && this !in children[k].Repr
      ensures forall i | 0 <= i < |items| ::
        items[i].Valid() && items[i].Repr <= Repr && this !in items[i].Repr
    {
      hide Node.Sealed;
      Open();
      forall k | k in children ensures children[k].Valid() {
        Part(children[k]);
      }
      forall i | 0 <= i < |items| ensures items[i].Valid() {
        Part(items[i]);
      }
    }

    /** Every node reachable from here is well formed: the graph below is a tree. */
    ghost predicate Valid()
      reads this, Repr
      ensures Valid() ==> this in Repr
    {
      && this in Repr
      && (forall n | n in Repr :: n.Repr <= Repr && n.Sealed())
    }

    constructor MakeScalar(value: string, tag: string, file: string)
      ensures Valid() && fresh(Repr) && tree == Scalar(value, tag, false, false, file)
    {
      kind := ScalarKind;
      this.value, this.tag, this.file := value, tag, file;
      secret, substituted := false, false;
      keys, children, items := [], map[], [];
      tree := Scalar(value, tag, false, false, file);
      Repr := {this};
    }

    constructor MakeMap(file: string)
      ensures Valid() && fresh(Repr) && tree == Map([], map[], file) && Repr == {this}
      ensures kind.MapKind? && children == map[]
    {
      kind := MapKind;
      this.value, this.tag, this.file := "", "", file;
      secret, substituted := false, false;
      keys, children, items := [], map[], [];
      tree := Map([], map[], file);
      Repr := {this};
    }

    constructor MakeSeq(file: string)
      ensures Valid() && fresh(Repr) && tree == Seq([], file) && Repr == {this} && kind.SeqKind?
    {
      kind := SeqKind;
      this.value, this.tag, this.file := "", "", file;
      secret, substituted := false, false;
      keys, children, items := [], map[], [];
      tree := Seq([], file);
      Repr := {this};
    }

    lemma SealMap()
      requires tree.Map? && kind.MapKind? && tree.file == file && tree.keys == keys && |items| == 0
      requires NoDup(keys) && SetOf(keys) == children.Keys == tree.children.Keys
      requires forall k | k in children ::
        children[k].Valid() && this !in children[k].Repr && children[k].tree == tree.children[k]
      requires forall j, k | j in children && k in children && j != k :: children[j].Repr !! children[k].Repr
      requires Repr == {this} + set k, m | k in children && m in children[k].Repr :: m
      ensures Valid()
    {
      hide NoDup, SetOf, Node.Sealed;
      assert forall k | k in children :: children[k] in Repr && children[k].Repr <= Repr;
      Close();
    }

    /** Restores the ghost state of a map node whose children have changed. */
    ghost method RebuildMap(cs: map<string, Tree>, bound: set<Node>)
      requires kind.MapKind? && NoDup(keys) && SetOf(keys) == children.Keys == cs.Keys && |items| == 0
      requires forall k | k in children :: children[k].Valid() && this !in children[k].Repr && children[k].tree == cs[k]
      requires forall j, k | j in children && k in children && j != k :: children[j].Repr !! children[k].Repr
      requires forall k | k in children :: children[k].Repr <= bound
      modifies `Repr, `tree
      ensures Valid() && tree == Map(keys, cs, file) && Repr <= bound + {this}
    {
      hide NoDup, SetOf, Node.Sealed;
      Repr := {this} + set k, m | k in children && m in children[k].Repr :: m;
      tree := Map(keys, cs, file);
      hide Node.Local, Node.Valid;
      SealMap();
    }

    lemma SealSeq()
      requires tree.Seq? && kind.SeqKind? && tree.file == file && |items| == |tree.items| && forall k :: k !in children
      requires forall i | 0 <= i < |items| :: items[i].Valid() && this !in items[i].Repr && items[i].tree == tree.items[i]
      requires forall i, j | 0 <= i < j < |items| :: items[i].Repr !! items[j].Repr
      requires Repr == {this} + set x, m | x in items && m in x.Repr :: m
      ensures Valid()
    {
      hide NoDup, SetOf, Node.Sealed;
      assert forall i | 0 <= i < |items| :: items[i] in Repr && items[i].Repr <= Repr;
      Close();
    }

    /** Restores the ghost state of a sequence node whose items have changed. */
    ghost method RebuildSeq(ts: seq<Tree>, bound: set<Node>)
      requires kind.SeqKind? && |items| == |ts| && forall k :: k !in children
      requires forall i | 0 <= i < |items| :: items[i].Valid() && this !in items[i].Repr && items[i].tree == ts[i]
      requires forall i, j | 0 <= i < j < |items| :: items[i].Repr !! items[j].Repr
      requires forall i | 0 <= i < |items| :: items[i].Repr <= bound
      modifies `Repr, `tree
      ensures Valid() && tree == Seq(ts, file) && Repr <= bound + {this}
    {
      hide NoDup, SetOf, Node.Sealed;
      Repr := {this} + set x, m | x in items && m in x.Repr :: m;
      tree := Seq(ts, file);
      hide Node.Local, Node.Valid;
      SealSeq();
    }

    /** `keys = append(keys, key); children[key] = child`, for a key not there yet. */
    method AddChild(key: string, child: Node)
      requires Valid() && kind.MapKind? && key !in children
      requires child.Valid() && child.Repr !! Repr
      modifies this
      ensures Valid() && Repr == old(Repr) + child.Repr
      ensures tree == Map(old(tree).keys + [key], old(tree).children[key := child.tree], old(tree).file)
      ensures kind.MapKind? && children == old(children)[key := child]
    {
      hide NoDup, SetOf, Node.Sealed;
      Open();
      AppendNew(keys, key);
      keys := keys + [key];
      children := children[key := child];
      Repr := Repr + child.Repr;
      tree := Map(tree.keys + [key], tree.children[key := child.tree], tree.file);
      Close();
    }

    /** What a map node says of its children. */
    lemma MapKids()
      requires Valid() && kind.MapKind?
      ensures tree == Map(keys, tree.children, file) && |items| == 0
      ensures NoDup(keys) && SetOf(keys) == children.Keys == tree.children.Keys
      ensures forall k | k in children ::
        && children[k].Valid() && children[k].Repr <= Repr && this !in children[k].Repr
        && children[k].tree == tree.children[k]
      ensures forall j, k | j in children && k in children && j != k :: children[j].Repr !! children[k].Repr
    {
      hide NoDup, SetOf, Node.Sealed;
      Open();
      Kids();
    }

    /** What a sequence node says of its items. */
    lemma SeqItems()
      requires Valid() && kind.SeqKind?
      ensures this in Repr && tree.Seq? && |items| == |tree.items| && (forall k :: k !in children) && tree.file == file
      ensures forall i | 0 <= i < |items| ::
        items[i].Valid() && items[i].Repr <= Repr && this !in items[i].Repr && items[i].tree == tree.items[i]
      ensures forall i, j | 0 <= i < j < |items| :: items[i].Repr !! items[j].Repr
    {
      hide NoDup, SetOf, Node.Sealed;
      Open();
      Kids();
    }

    /** `children[key] = child`, for a key that is there. */
    method SetChild(key: string, child: Node)
      requires Valid() && kind.MapKind? && key in children
      requires child.Valid() && this !in child.Repr
      requires forall k | k in children && k != key :: children[k].Repr !! child.Repr
      modifies this
      ensures Valid() && Repr <= old(Repr) + child.Repr
      ensures tree == Map(old(tree).keys, old(tree).children[key := child.tree], old(tree).file)
      ensures kind.MapKind? && children == old(children)[key := child]
    {
      hide NoDup, SetOf, Node.Sealed, Node.Local, Node.Valid;
      MapKids();
      ghost var was := Repr;
      children := children[key := child];
      RebuildMap(tree.children[key := child.tree], was + child.Repr);
    }

    method AddItem(item: Node)
      requires Valid() && kind.SeqKind?
      requires item.Valid() && item.Repr !! Repr
      modifies this
      ensures Valid() && Repr == old(Repr) + item.Repr
      ensures tree == Seq(old(tree).items + [item.tree], old(tree).file) && kind.SeqKind?
    {
      hide Node.Sealed;
      Open();
      items := items + [item];
      Repr := Repr + item.Repr;
      tree := Seq(tree.items + [item.tree], tree.file);
      Close();
    }
  }

  /** Builds fresh nodes for a document; an alias is built again. Null is a duplicate key. */
  method FromYaml(y: Doc, file: string) returns (n: Node?)
    ensures n == null <==> TreeOf(y, file).None?
    ensures n != null ==> n.Valid() && fresh(n.Repr) && TreeOf(y, file) == Some(n.tree)
    decreases y, 1
  {
    hide Node.Sealed, Node.Local;
    if y.Document? {
      if y.content == [] {
        n := new Node.MakeMap(file);
      } else {
        n := FromYaml(y.content[0], file);
      }
    } else if y.Alias? {
      n := FromYaml(y.target, file);
    } else if y.Mapping? {
      n := FromMapping(y, file);
    } else if y.Sequence? {
      n := FromSequence(y, file);
    } else {
      n := new Node.MakeScalar(y.value, if y.quoted then "!!str" else y.tag, file);
    }
  }

  method FromMapping(y: Doc, file: string) returns (r: Node?)
    requires y.Mapping?
    ensures r == null <==> MapOf(y, y.pairs, file).None?
    ensures r != null ==> r.Valid() && fresh(r.Repr) && MapOf(y, y.pairs, file) == Some(r.tree)
    decreases y, 0
  {
    hide Node.Sealed, NoDup, SetOf;
    var n := new Node.MakeMap(file);
    for i := 0 to |y.pairs|
      invariant n.Valid() && fresh(n.Repr) && MapOf(y, y.pairs[..i], file) == Some(n.tree)
    {
      var (key, doc) := y.pairs[i];
      assert y.pairs[..i + 1][..i] == y.pairs[..i];
      MapOfPrefix(y, y.pairs, i + 1, file);
      n.Open();
      hide Node.Local;
      if key in n.children {
        return null;
      }
      var child := FromYaml(doc, file);
      if child == null {
        return null;
      }
      n.AddChild(key, child);
    }
    assert y.pairs[..|y.pairs|] == y.pairs;
    r := n;
  }

  method FromSequence(y: Doc, file: string) returns (r: Node?)
    requires y.Sequence?
    ensures r == null <==> SeqOf(y, y.content, file).None?
    ensures r != null ==> r.Valid() && fresh(r.Repr) && SeqOf(y, y.content, file) == Some(r.tree)
    decreases y, 0
  {
    hide Node.Sealed, NoDup, SetOf, Node.Local;
    var n := new Node.MakeSeq(file);
    for i := 0 to |y.content|
      invariant n.Valid() && n.kind.SeqKind? && fresh(n.Repr) && SeqOf(y, y.content[..i], file) == Some(n.tree)
    {
      assert y.content[..i + 1][..i] == y.content[..i];
      SeqOfPrefix(y, y.content, i + 1, file);
      var item := FromYaml(y.content[i], file);
      if item == null {
        return null;
      }
      n.AddItem(item);
    }
    assert y.content[..|y.content|] == y.content;
    r := n;
  }

  lemma {:induction false} MapOfPrefix(y: Doc, pairs: seq<(string, Doc)>, i: nat, file: string)
    requires i <= |pairs| && forall j | 0 <= j < |pairs| :: pairs[j].1 < y
    ensures MapOf(y, pairs[..i], file).None? ==> MapOf(y, pairs, file).None?
    decreases |pairs|
  {
    if i < |pairs| {
      assert pairs[..|pairs| - 1][..i] == pairs[..i];
      MapOfPrefix(y, pairs[..|pairs| - 1], i, file);
    } else {
      assert pairs[..i] == pairs;
    }
  }

  lemma {:induction false} SeqOfPrefix(y: Doc, content: seq<Doc>, i: nat, file: string)
    requires i <= |content| && forall j | 0 <= j < |content| :: content[j] < y
    ensures SeqOf(y, content[..i], file).None? ==> SeqOf(y, content, file).None?
    decreases |content|
  {
    if i < |content| {
      assert content[..|content| - 1][..i] == content[..i];
      SeqOfPrefix(y, content[..|content| - 1], i, file);
    } else {
      assert content[..i] == content;
    }
  }

  /// ## Merging

  /** The first `i` keys of a map. */
  function Prefix(t: Tree, i: nat): (r: Tree)
    requires t.Map? && i <= |t.keys|
    ensures r.Map? && r.file == t.file
  {
    Map(t.keys[..i], map k | k in t.keys[..i] && k in t.children :: t.children[k], t.file)
  }

  lemma PrefixAll(t: Tree)
    requires t.Map? && SetOf(t.keys) == t.children.Keys
    ensures Prefix(t, |t.keys|) == t
  {
    assert t.keys[..|t.keys|] == t.keys;
    assert forall k :: k in t.keys <==> k in SetOf(t.keys);
    assert Prefix(t, |t.keys|).children == t.children;
  }

  /** What one more key of the override does to a merge. */
  lemma MergeExtend(base: Tree, p: Tree, key: string, c: Tree)
    requires base.Map? && p.Map? && key !in p.children
    ensures var m := MergeTwo(base, p);
            m.Map? && MergeTwo(base, Map(p.keys + [key], p.children[key := c], p.file)) ==
              if key in base.children then Map(m.keys, m.children[key := MergeTwo(base.children[key], c)], m.file)
              else Map(m.keys + [key], m.children[key := c], m.file)
  {
    var q := Map(p.keys + [key], p.children[key := c], p.file);
    NewKeysSnoc(base.children.Keys, q.keys);
    assert q.keys[..|q.keys| - 1] == p.keys;
    hide NewKeys;
    var l, m := MergeTwo(base, q).children, MergeTwo(base, p).children;
    assert l.Keys == m.Keys + {key};
    forall k | k in l
      ensures l[k] == if k != key then m[k] else if key in base.children then MergeTwo(base.children[key], c) else c
    {
      assert k != key ==> (k in p.children <==> k in q.children);
    }
    assert l == m[key := if key in base.children then MergeTwo(base.children[key], c) else c];
  }

  lemma MergeOneMore(base: Tree, over: Tree, i: nat)
    requires base.Map? && over.Map? && i < |over.keys|
    requires NoDup(over.keys) && SetOf(over.keys) == over.children.Keys
    ensures over.keys[i] in over.children
    ensures var key, m := over.keys[i], MergeTwo(base, Prefix(over, i));
            && m.Map?
            && (key in base.children <==> key in m.children)
            && (key in base.children ==> m.children[key] == base.children[key])
            && MergeTwo(base, Prefix(over, i + 1)) ==
                 if key in base.children
                 then Map(m.keys, m.children[key := MergeTwo(base.children[key], over.children[key])], m.file)
                 else Map(m.keys + [key], m.children[key := over.children[key]], m.file)
  {
    PrefixStep(over, i);
    MergeExtend(base, Prefix(over, i), over.keys[i], over.children[over.keys[i]]);
  }

  lemma PrefixStep(t: Tree, i: nat)
    requires t.Map? && i < |t.keys| && NoDup(t.keys) && SetOf(t.keys) == t.children.Keys
    ensures var key, p, q := t.keys[i], Prefix(t, i), Prefix(t, i + 1);
            && key in t.children && key !in p.children
            && q.keys == p.keys + [key] && q.children == p.children[key := t.children[key]]
  {
    var key, p, q := t.keys[i], Prefix(t, i), Prefix(t, i + 1);
    assert key in SetOf(t.keys) && key !in p.keys;
    assert forall k :: k in q.keys <==> k == key || k in p.keys;
  }

  /** A fresh map node holding the children of `base`. */
  method CopyOfMap(base: Node, file: string) returns (r: Node)
    requires base.Valid() && base.kind.MapKind?
    ensures base.tree.Map?
    ensures r.Valid() && r.kind.MapKind? && fresh(r) && r.Repr <= base.Repr + {r}
    ensures r.tree == Map(base.tree.keys, base.tree.children, file) && r.children == base.children
  {
    hide Node.Sealed, Prefix, NoDup, SetOf;
    base.Open();
    KeysThere(base.keys, base.children.Keys);
    r := new Node.MakeMap(file);
    PrefixNone(base.tree);
    for i := 0 to |base.keys|
      invariant r.Valid() && r.kind.MapKind? && r.Repr <= base.Repr + {r}
      invariant var p := Prefix(base.tree, i); r.tree == Map(p.keys, p.children, file)
      invariant forall k | k in r.children :: k in base.children && r.children[k] == base.children[k]
      invariant r.children.Keys == Prefix(base.tree, i).children.Keys
      invariant forall j | i <= j < |base.keys| :: base.keys[j] in base.children && base.children[base.keys[j]].Repr !! r.Repr
    {
      var key := base.keys[i];
      PrefixStep(base.tree, i);
      base.Part(base.children[key]);
      assert forall j | i < j < |base.keys| :: base.keys[j] != key by { KeysDiffer(base.keys); }
      r.AddChild(key, base.children[key]);
    }
    PrefixAll(base.tree);
  }

  lemma KeysDiffer(keys: seq<string>)
    requires NoDup(keys)
    ensures forall i, j | 0 <= i < j < |keys| :: keys[i] != keys[j]
  {}

  lemma KeysThere(keys: seq<string>, all: set<string>)
    requires SetOf(keys) == all
    ensures forall j | 0 <= j < |keys| :: keys[j] in all
  {}

  lemma PrefixNone(t: Tree)
    requires t.Map?
    ensures Prefix(t, 0) == Map([], map[], t.file)
  {}

  lemma MergeNone(base: Tree, over: Tree)
    requires base.Map? && over.Map?
    ensures MergeTwo(base, Prefix(over, 0)) == Map(base.keys, base.children, over.file)
  {
    assert base.keys + [] == base.keys;
    assert MergeTwo(base, Prefix(over, 0)).children == base.children;
  }

  /** One key of the override merged into the map node being built. */
  method MergeChild(r: Node, key: string, c: Node)
    requires r.Valid() && r.kind.MapKind? && c.Valid() && r.Repr !! c.Repr
    requires r.tree.Map?
    modifies r
    ensures r.Valid() && r.kind.MapKind? && fresh(r.Repr - old(r.Repr) - c.Repr)
    ensures var m := old(r.tree);
            r.tree == if key in m.children
                      then Map(m.keys, m.children[key := MergeTwo(m.children[key], c.tree)], m.file)
                      else Map(m.keys + [key], m.children[key := c.tree], m.file)
    decreases c.tree, 1
  {
    hide Node.Sealed, MergeTwo;
    r.Open();
    if key in r.children {
      var existing := r.children[key];
      r.Part(existing);
      var child := MergeNode(existing, c);
      r.SetChild(key, child);
    } else {
      r.AddChild(key, c);
    }
  }

  /** Merges into fresh map nodes; all else is taken over from the inputs, which stay as they are. */
  method MergeNode(base: Node, over: Node) returns (r: Node)
    requires base.Valid() && over.Valid() && base.Repr !! over.Repr
    ensures r.Valid() && fresh(r.Repr - base.Repr - over.Repr)
    ensures r.tree == MergeTwo(base.tree, over.tree)
    decreases over.tree, 0
  {
    hide Node.Sealed, Prefix, NewKeys, NoDup, SetOf;
    base.Open();
    over.Open();
    if !base.kind.MapKind? || !over.kind.MapKind? {
      return over;
    }
    hide MergeTwo;
    KeysDiffer(over.keys);
    KeysThere(over.keys, over.children.Keys);
    r := CopyOfMap(base, over.file);
    MergeNone(base.tree, over.tree);
    for i := 0 to |over.keys|
      invariant r.Valid() && r.kind.MapKind? && fresh(r) && fresh(r.Repr - base.Repr - over.Repr)
      invariant r.tree == MergeTwo(base.tree, Prefix(over.tree, i))
      invariant forall j | i <= j < |over.keys| :: over.children[over.keys[j]].Repr !! r.Repr
    {
      var key := over.keys[i];
      MergeOneMore(base.tree, over.tree, i);
      over.Part(over.children[key]);
      MergeChild(r, key, over.children[key]);
    }
    PrefixAll(over.tree);
  }

  ghost function TreesOf(ns: seq<Node>): seq<Tree>
    reads ns
  {
    seq(|ns|, i requires 0 <= i < |ns| reads ns => ns[i].tree)
  }

  /** A valid node stands for a well-formed tree. */
  lemma {:induction false} TreeWF(n: Node)
    requires n.Valid()
    ensures WF(n.tree)
    decreases n.tree
  {
    hide Node.Sealed, Node.Valid;
    n.Open();
    n.Kids();
    if n.kind.MapKind? {
      forall k | k in n.children ensures WF(n.tree.children[k]) {
        TreeWF(n.children[k]);
      }
    } else if n.kind.SeqKind? {
      forall i | 0 <= i < |n.items| ensures WF(n.tree.items[i]) {
        TreeWF(n.items[i]);
      }
    }
  }

  /** Reads the tree a node stands for, for the stages that do not change nodes. */
  method ToTree(n: Node) returns (t: Tree)
    requires n.Valid()
    ensures t == n.tree
    decreases n.tree, 1
  {
    hide Node.Sealed;
    n.Open();
    if n.kind.MapKind? {
      t := MapToTree(n);
    } else if n.kind.SeqKind? {
      t := SeqToTree(n);
    } else {
      t := Scalar(n.value, n.tag, n.secret, n.substituted, n.file);
    }
  }

  method MapToTree(n: Node) returns (t: Tree)
    requires n.Valid() && n.kind.MapKind?
    ensures t == n.tree
    decreases n.tree, 0
  {
    hide Node.Sealed, Node.Local, Node.Valid;
    n.MapKids();
    var children := map[];
    for i := 0 to |n.keys|
      invariant forall k | k in children :: k in n.children && children[k] == n.tree.children[k]
      invariant forall j | 0 <= j < i :: n.keys[j] in children
    {
      var key := n.keys[i];
      assert key in SetOf(n.keys);
      var child := ToTree(n.children[key]);
      children := children[key := child];
    }
    AllCopied(n, children);
    t := Map(n.keys, children, n.file);
  }

  lemma AllCopied(n: Node, children: map<string, Tree>)
    requires n.tree.Map? && SetOf(n.keys) == n.tree.children.Keys
    requires forall k | k in children :: k in n.tree.children && children[k] == n.tree.children[k]
    requires forall j | 0 <= j < |n.keys| :: n.keys[j] in children
    ensures children == n.tree.children
  {
    forall k | k in n.tree.children ensures k in children {
      assert k in SetOf(n.keys);
    }
  }

  method SeqToTree(n: Node) returns (t: Tree)
    requires n.Valid() && n.kind.SeqKind?
    ensures t == n.tree
    decreases n.tree, 0
  {
    hide Node.Sealed, Node.Valid;
    n.Open();
    n.Kids();
    var items := [];
    for i := 0 to |n.items|
      invariant items == n.tree.items[..i]
    {
      var item := ToTree(n.items[i]);
      items := items + [item];
    }
    t := Seq(items, n.file);
  }

  /** Merges the layers, lowest precedence first; null when there are none. */
  method MergeTrees(layers: seq<Node>, ghost nodes: set<Node>) returns (out: Node?)
    requires forall i | 0 <= i < |layers| :: layers[i].Valid() && layers[i].Repr <= nodes
    requires forall i, j | 0 <= i < j < |layers| :: layers[i].Repr !! layers[j].Repr
    ensures out == null <==> layers == []
    ensures out != null ==> out.Valid() && out.tree == Fold(TreesOf(layers)) && fresh(out.Repr - nodes)
  {
    hide Node.Valid, MergeTwo, Fold;
    out := null;
    ghost var ts := TreesOf(layers);
    for i := 0 to |layers|
      invariant out == null <==> i == 0
      invariant out != null ==> out.Valid() && i > 0 && out.tree == Fold(ts[..i]) && fresh(out.Repr - nodes)
      invariant out != null ==> forall j | i <= j < |layers| :: layers[j].Repr !! out.Repr
    {
      assert ts[..i + 1] == ts[..i] + [ts[i]];
      FoldSnoc(ts[..i], ts[i]);
      if out == null {
        out := layers[i];
      } else {
        out := MergeNode(out, layers[i]);
      }
    }
    assert ts[..|layers|] == ts;
  }

  /// ## Token resolution, in place

  /** Resolves every scalar below `n` where it stands, each once. */
  method WalkResolve(r: R.Resolver, n: Node) returns (err: Option<R.Error>)
    requires n.Valid()
    modifies n.Repr
    ensures err == R.Failure(r, old(n.tree))
    ensures err.None? ==> n.Valid() && n.Repr <= old(n.Repr) && n.tree == R.Resolved(r, old(n.tree))
    decreases n.tree, 1
  {
    hide Node.Sealed;
    n.Open();
    if n.kind.MapKind? {
      err := WalkMap(r, n);
    } else if n.kind.SeqKind? {
      err := WalkSeq(r, n);
    } else {
      err := ResolveScalar(r, n);
    }
  }

  method ResolveScalar(r: R.Resolver, n: Node) returns (err: Option<R.Error>)
    requires n.Valid() && n.kind.ScalarKind?
    modifies n
    ensures n.Valid() && n.Repr == old(n.Repr)
    ensures old(n.tree).Scalar? && err == R.ScalarFailure(r, old(n.tree)) && n.tree == R.ScalarResult(r, old(n.tree))
  {
    hide Node.Sealed, Contains, Scan, R.SegmentFailure, R.Joined, R.UsesSecret;
    n.Open();
    if !Contains(n.value, "$(") {
      return None;
    }
    var scanned := ScanTokens(n.value);
    if scanned.None? {
      return Some(R.BadToken);
    }
    var segs := scanned.value;
    if !HasTokens(segs) {
      if segs != [] {
        n.value := segs[0].text;
      }
    } else if r.static_ {
      return Some(R.StaticLoader);
    } else {
      err := R.SegmentFailure(r, segs, n.file);
      if err.Some? {
        return;
      }
      n.value := R.Joined(r, segs, n.file);
      n.tag := if |segs| == 1 then "" else "!!str";
      n.secret := n.secret || R.UsesSecret(segs);
      n.substituted := true;
    }
    n.tree := Scalar(n.value, n.tag, n.secret, n.substituted, n.file);
    n.Close();
    err := None;
  }

  lemma OfMap(r: R.Resolver, t: Tree)
    requires t.Map?
    ensures R.Failure(r, t) == R.KeyFailure(r, t, t.keys)
    ensures R.Resolved(r, t) == Map(t.keys, map k | k in t.children :: R.Resolved(r, t.children[k]), t.file)
  {}

  lemma OfSeq(r: R.Resolver, t: Tree)
    requires t.Seq?
    ensures R.Failure(r, t) == R.ItemFailure(r, t, t.items)
    ensures R.Resolved(r, t) == Seq(seq(|t.items|, i requires 0 <= i < |t.items| => R.Resolved(r, t.items[i])), t.file)
  {}

  /** The children before the i-th key are resolved, and those from it on are as in the tree. */
  ghost predicate Walked(r: R.Resolver, n: Node, t: Tree, i: nat)
    reads n, n.children.Values
  {
    && t.Map? && n.keys == t.keys && n.children.Keys == t.children.Keys && i <= |t.keys|
    && (forall j | 0 <= j < |t.keys| :: t.keys[j] in n.children)
    && forall j | 0 <= j < |t.keys| ::
         n.children[t.keys[j]].tree == if j < i then R.Resolved(r, t.children[t.keys[j]]) else t.children[t.keys[j]]
  }

  /** One key of a map node. */
  method WalkKey(r: R.Resolver, n: Node, ghost t: Tree, i: nat, ghost bound: set<Node>) returns (err: Option<R.Error>)
    requires KidsOk(n, bound) && Walked(r, n, t, i) && i < |t.keys| && NoDup(t.keys)
    modifies n.children[t.keys[i]].Repr
    ensures unchanged(n) && err == R.Failure(r, t.children[t.keys[i]])
    ensures err.None? ==> KidsOk(n, bound) && Walked(r, n, t, i + 1)
    decreases n.children[t.keys[i]].tree, 2
  {
    hide Node.Valid, Node.Local, Node.Sealed, R.Resolved, R.Failure;
    err := WalkResolve(r, n.children[n.keys[i]]);
  }

  method WalkMap(r: R.Resolver, n: Node) returns (err: Option<R.Error>)
    requires n.Valid() && n.kind.MapKind?
    modifies n.Repr
    ensures err == R.Failure(r, old(n.tree))
    ensures err.None? ==> n.Valid() && n.Repr <= old(n.Repr) && n.tree == R.Resolved(r, old(n.tree))
    decreases n.tree, 0
  {
    hide Node.Sealed, R.Resolved, R.Failure, SetOf;
    n.Open();
    ghost var t := n.tree;
    OfMap(r, t);
    n.Kids();
    KeysThere(n.keys, n.children.Keys);
    assert n.keys[0..] == n.keys;
    assert KidsOk(n, n.Repr) && Walked(r, n, t, 0);
    hide Node.Valid, Node.Local, KidsOk, NoDup;
    for i := 0 to |n.keys|
      invariant unchanged(n) && KidsOk(n, n.Repr) && Walked(r, n, t, i)
      invariant R.KeyFailure(r, t, t.keys) == R.KeyFailure(r, t, t.keys[i..])
      invariant forall j | i <= j < |t.keys| :: n.children[t.keys[j]].Repr <= old(n.Repr)
    {
      assert t.keys[i..][1..] == t.keys[i + 1..];
      err := WalkKey(r, n, t, i, n.Repr);
      if err.Some? {
        return;
      }
    }
    AllKeysThere(n.keys, n.children.Keys);
    n.RebuildMap(R.Resolved(r, t).children, n.Repr);
    err := None;
  }

  lemma AllKeysThere(keys: seq<string>, all: set<string>)
    requires SetOf(keys) == all
    ensures forall k | k in all :: k in keys
  {}

  method WalkSeq(r: R.Resolver, n: Node) returns (err: Option<R.Error>)
    requires n.Valid() && n.kind.SeqKind?
    modifies n.Repr
    ensures err == R.Failure(r, old(n.tree))
    ensures err.None? ==> n.Valid() && n.Repr <= old(n.Repr) && n.tree == R.Resolved(r, old(n.tree))
    decreases n.tree, 0
  {
    hide Node.Sealed, Node.Local, Node.Valid, R.Resolved, R.Failure;
    n.SeqItems();
    ghost var t := n.tree;
    OfSeq(r, t);
    assert t.items[0..] == t.items;
    for i := 0 to |n.items|
      invariant n.items == old(n.items) && unchanged(n)
      invariant forall j | 0 <= j < |n.items| :: n.items[j].Valid() && n.items[j].Repr <= old(n.items[j].Repr)
      invariant forall j | 0 <= j < |n.items| ::
        n.items[j].tree == if j < i then R.Resolved(r, t.items[j]) else t.items[j]
      invariant R.ItemFailure(r, t, t.items) == R.ItemFailure(r, t, t.items[i..])
    {
      assert t.items[i..][1..] == t.items[i + 1..];
      err := WalkResolve(r, n.items[i]);
      if err.Some? {
        return;
      }
    }
    n.RebuildSeq(R.Resolved(r, t).items, n.Repr);
    err := None;
  }

  /// ## Include expansion, in place

  /** `append` on a slice that is the first `n` elements of `a`: it writes into the backing array when
      there is room, whoever else shares that array. */
  method Append(a: array<string>, n: nat, x: string) returns (b: array<string>)
    requires n <= a.Length
    modifies a
    ensures b.Length > n && b[..n + 1] == old(a[..n]) + [x]
    ensures a[..n] == old(a[..n]) && (b == a || fresh(b))
  {
    if n < a.Length {
      a[n] := x;
      b := a;
      assert forall i | 0 <= i < n :: a[i] == old(a[i]);
    } else {
      b := new string[2 * n + 1];
      for i := 0 to n
        invariant fresh(b) && b.Length == 2 * n + 1 && unchanged(a) && b[..i] == a[..i]
      {
        b[i] := a[i];
      }
      b[n] := x;
    }
  }

  /** What a call of the expander owes for the tree `t` it was given. */
  ghost predicate Expands(st: I.Store, t: Tree, dir: string, chain: seq<string>, r: Result<Node, I.IncludeError>)
    reads if r.Ok? then {r.value} + r.value.Repr else {}
  {
    match r
    case Ok(m) => m.Valid() && I.Failure(st, t, dir, chain).None? && I.Expanded(st, t, dir, chain) == Some(m.tree)
    case Err(e) => I.Failure(st, t, dir, chain) == Some(e)
  }

  /** Expands the includes below `n` in place. The chain is the first `len` elements of `a`; sibling calls
      write past them into the same array, yet each call sees its own chain to its end. */
  method ExpandIncludes(st: I.Store, n: Node, dir: string, a: array<string>, len: nat)
    returns (r: Result<Node, I.IncludeError>)
    requires n.Valid() && len <= a.Length && NoDup(a[..len])
    modifies n.Repr, a
    ensures a[..len] == old(a[..len])
    ensures Expands(st, old(n.tree), dir, old(a[..len]), r)
    ensures r.Ok? ==> fresh(r.value.Repr - old(n.Repr))
    decreases I.Left(a[..len]), n.tree, 2
  {
    hide Node.Sealed;
    n.Open();
    if n.kind.MapKind? {
      r := ExpandMap(st, n, dir, a, len);
    } else if n.kind.SeqKind? {
      r := ExpandSeq(st, n, dir, a, len);
    } else {
      r := ExpandScalarInclude(st, n, dir, a, len);
    }
  }

  method ExpandScalarInclude(st: I.Store, n: Node, dir: string, a: array<string>, len: nat)
    returns (r: Result<Node, I.IncludeError>)
    requires n.Valid() && n.kind.ScalarKind? && len <= a.Length && NoDup(a[..len])
    modifies n.Repr, a
    ensures a[..len] == old(a[..len])
    ensures Expands(st, old(n.tree), dir, old(a[..len]), r)
    ensures r.Ok? ==> fresh(r.value.Repr - old(n.Repr))
    decreases I.Left(a[..len]), n.tree, 0
  {
    hide Node.Sealed, NoDup, I.RequestOf;
    n.Open();
    ghost var chain := a[..len];
    var request := I.RequestOf(st, Scalar(n.value, n.tag, n.secret, n.substituted, n.file), dir);
    if request.Plain? {
      return Ok(n);
    }
    if request.Bad? {
      return Err(request.error);
    }
    var target := request.target;
    if len >= I.MAX_INCLUDE_DEPTH {
      return Err(I.TooDeep);
    }
    for i := 0 to len
      invariant target !in a[..i]
    {
      if a[i] == target {
        return Err(I.Cycle);
      }
    }
    var document := st.document(target);
    if document.None? {
      return Err(I.Unreadable);
    }
    var tree := FromYaml(document.value, target);
    if tree == null {
      return Err(I.Unreadable);
    }
    var longer := Append(a, len, target);
    AppendNew(chain, target);
    r := ExpandIncludes(st, tree, dir, longer, len + 1);
  }

  lemma ExpandedMap(st: I.Store, t: Tree, dir: string, chain: seq<string>, cs: map<string, Tree>)
    requires t.Map? && cs.Keys == t.children.Keys
    requires forall k | k in cs :: I.Expanded(st, t.children[k], dir, chain) == Some(cs[k])
    ensures I.Expanded(st, t, dir, chain) == Some(Map(t.keys, cs, t.file))
  {
    assert I.Expanded(st, t, dir, chain).value.children == cs;
  }

  lemma ExpandedSeq(st: I.Store, t: Tree, dir: string, chain: seq<string>, ts: seq<Tree>)
    requires t.Seq? && |ts| == |t.items|
    requires forall i | 0 <= i < |ts| :: I.Expanded(st, t.items[i], dir, chain) == Some(ts[i])
    ensures I.Expanded(st, t, dir, chain) == Some(Seq(ts, t.file))
  {
    assert I.Expanded(st, t, dir, chain).value.items == ts;
  }

  /** The children of a map node are valid trees of their own, within `bound`. */
  ghost predicate KidsOk(n: Node, bound: set<Node>)
    reads n, n.children.Values, set c, m | c in n.children.Values && m in c.Repr :: m
  {
    && (forall k | k in n.children ::
          n.children[k].Valid() && n !in n.children[k].Repr && n.children[k].Repr <= bound)
    && (forall j, k | j in n.children && k in n.children && j != k :: n.children[j].Repr !! n.children[k].Repr)
  }

  /** Replaces one child by its expansion; its siblings are not touched. */
  method ExpandChild(st: I.Store, n: Node, key: string, dir: string, a: array<string>, len: nat, ghost bound: set<Node>)
    returns (err: Option<I.IncludeError>, ghost added: set<Node>)
    requires key in n.children && len <= a.Length && NoDup(a[..len]) && KidsOk(n, bound)
    modifies n`children, n.children[key].Repr, a
    ensures a[..len] == old(a[..len])
    ensures n.children.Keys == old(n.children.Keys)
    ensures forall k | k in n.children && k != key ::
      n.children[k] == old(n.children[k]) && n.children[k].Repr == old(n.children[k].Repr)
      && n.children[k].tree == old(n.children[k].tree)
    ensures err.None? ==> fresh(added) && KidsOk(n, bound + added)
    ensures Expands(st, old(n.children[key].tree), dir, old(a[..len]),
                    if err.None? then Ok(n.children[key]) else Err(err.value))
    decreases I.Left(a[..len]), n.children[key].tree, 3
  {
    hide Node.Valid, Node.Local, Node.Sealed, NoDup;
    var r := ExpandIncludes(st, n.children[key], dir, a, len);
    if r.Err? {
      return Some(r.error), {};
    }
    n.children := n.children[key := r.value];
    err, added := None, r.value.Repr - old(n.children[key].Repr);
  }

  /** Replaces one item by its expansion; the others are not touched. */
  method ExpandItem(st: I.Store, n: Node, i: nat, dir: string, a: array<string>, len: nat)
    returns (err: Option<I.IncludeError>, ghost added: set<Node>)
    requires i < |n.items| && len <= a.Length && NoDup(a[..len])
    requires forall j | 0 <= j < |n.items| :: n.items[j].Valid() && n !in n.items[j].Repr
    requires forall j, k | 0 <= j < k < |n.items| :: n.items[j].Repr !! n.items[k].Repr
    modifies n`items, n.items[i].Repr, a
    ensures a[..len] == old(a[..len])
    ensures |n.items| == old(|n.items|)
    ensures forall j | 0 <= j < |n.items| && j != i ::
      && n.items[j] == old(n.items[j]) && n.items[j].Valid()
      && n.items[j].Repr == old(n.items[j].Repr) && n.items[j].tree == old(n.items[j].tree)
    ensures err.None? ==> forall j, k | 0 <= j < k < |n.items| :: n.items[j].Repr !! n.items[k].Repr
    ensures err.None? ==> n !in n.items[i].Repr && fresh(added) && n.items[i].Repr <= old(n.items[i].Repr) + added
    ensures Expands(st, old(n.items[i].tree), dir, old(a[..len]),
                    if err.None? then Ok(n.items[i]) else Err(err.value))
    decreases I.Left(a[..len]), n.items[i].tree, 3
  {
    hide Node.Valid, Node.Local, Node.Sealed, NoDup;
    var r := ExpandIncludes(st, n.items[i], dir, a, len);
    if r.Err? {
      return Some(r.error), {};
    }
    n.items := n.items[i := r.value];
    err, added := None, r.value.Repr - old(n.items[i].Repr);
  }

  /** The children from the i-th key on are those of the tree, and the children before it are expanded. */
  ghost predicate Halfway(st: I.Store, n: Node, t: Tree, i: nat, dir: string, chain: seq<string>, free: set<Node>)
    reads n, n.children.Values
  {
    && t.Map? && n.children.Keys == t.children.Keys && i <= |t.keys|
    && (forall j | 0 <= j < |t.keys| :: t.keys[j] in n.children)
    && (forall j | i <= j < |t.keys| ::
          n.children[t.keys[j]].Repr <= free && n.children[t.keys[j]].tree == t.children[t.keys[j]])
    && forall j | 0 <= j < i :: I.Expanded(st, t.children[t.keys[j]], dir, chain) == Some(n.children[t.keys[j]].tree)
  }

  /** One key of a map node. */
  method ExpandKey(st: I.Store, n: Node, ghost t: Tree, i: nat, dir: string, a: array<string>, len: nat,
                   ghost bound: set<Node>, ghost free: set<Node>)
    returns (err: Option<I.IncludeError>, ghost added: set<Node>)
    requires len <= a.Length && NoDup(a[..len]) && KidsOk(n, bound)
    requires t.Map? && n.keys == t.keys && Halfway(st, n, t, i, dir, a[..len], free) && i < |t.keys| && NoDup(t.keys)
    modifies n`children, n.children[t.keys[i]].Repr, a
    ensures a[..len] == old(a[..len])
    ensures err == I.Failure(st, t.children[t.keys[i]], dir, old(a[..len]))
    ensures err.None? ==>
              fresh(added) && KidsOk(n, bound + added) && Halfway(st, n, t, i + 1, dir, old(a[..len]), free)
    decreases I.Left(a[..len]), n.children[t.keys[i]].tree, 4
  {
    hide Node.Valid, Node.Local, Node.Sealed, I.Expanded, I.Failure, KidsOk;
    err, added := ExpandChild(st, n, n.keys[i], dir, a, len, bound);
  }

  /** The loop over the keys of a map node. */
  method ExpandKeys(st: I.Store, n: Node, dir: string, a: array<string>, len: nat)
    returns (err: Option<I.IncludeError>, ghost added: set<Node>)
    requires n.Valid() && n.kind.MapKind? && n.tree.Map? && len <= a.Length && NoDup(a[..len])
    modifies n`children, n.Repr - {n}, a
    ensures a[..len] == old(a[..len])
    ensures err == I.KeysFailure(st, n.tree, n.tree.keys, dir, old(a[..len]))
    ensures err.None? ==> n.children.Keys == n.tree.children.Keys && fresh(added) && KidsOk(n, n.Repr + added)
    ensures err.None? ==> forall k | k in n.children ::
      I.Expanded(st, n.tree.children[k], dir, old(a[..len])) == Some(n.children[k].tree)
    decreases I.Left(a[..len]), n.tree, 0
  {
    hide Node.Sealed, I.Expanded, I.Failure, I.KeysFailure, SetOf;
    n.Open();
    n.Kids();
    ghost var t, chain, free := n.tree, a[..len], n.Repr - {n};
    KeysThere(n.keys, n.children.Keys);
    KeysAll(st, t, dir, chain);
    assert KidsOk(n, n.Repr);
    hide Node.Valid, Node.Local, KidsOk, NoDup;
    added := {};
    assert n.Repr + added == n.Repr;
    assert Halfway(st, n, t, 0, dir, chain, free);
    for i := 0 to |n.keys|
      invariant a[..len] == chain
      invariant fresh(added) && KidsOk(n, n.Repr + added) && Halfway(st, n, t, i, dir, chain, free)
      invariant I.KeysFailure(st, t, t.keys, dir, chain) == I.KeysFailure(st, t, t.keys[i..], dir, chain)
    {
      ghost var more;
      KeysStep(st, t, i, dir, chain);
      err, more := ExpandKey(st, n, t, i, dir, a, len, n.Repr + added, free);
      if err.Some? {
        return;
      }
      assert n.Repr + added + more == n.Repr + (added + more);
      added := added + more;
    }
    AllKeysThere(n.keys, n.children.Keys);
    err := None;
  }

  lemma KeysAll(st: I.Store, t: Tree, dir: string, chain: seq<string>)
    requires t.Map?
    ensures I.KeysFailure(st, t, t.keys, dir, chain) == I.KeysFailure(st, t, t.keys[0..], dir, chain)
    ensures I.KeysFailure(st, t, t.keys[|t.keys|..], dir, chain) == None
  {
    assert t.keys[0..] == t.keys;
  }

  lemma KeysStep(st: I.Store, t: Tree, i: nat, dir: string, chain: seq<string>)
    requires t.Map? && i < |t.keys| && t.keys[i] in t.children
    ensures var f := I.Failure(st, t.children[t.keys[i]], dir, chain);
            I.KeysFailure(st, t, t.keys[i..], dir, chain)
              == if f.Some? then f else I.KeysFailure(st, t, t.keys[i + 1..], dir, chain)
  {
    assert t.keys[i..][1..] == t.keys[i + 1..];
  }

  method ExpandMap(st: I.Store, n: Node, dir: string, a: array<string>, len: nat)
    returns (r: Result<Node, I.IncludeError>)
    requires n.Valid() && n.kind.MapKind? && len <= a.Length && NoDup(a[..len])
    modifies n.Repr, a
    ensures a[..len] == old(a[..len])
    ensures Expands(st, old(n.tree), dir, old(a[..len]), r)
    ensures r.Ok? ==> fresh(r.value.Repr - old(n.Repr))
    decreases I.Left(a[..len]), n.tree, 1
  {
    hide Node.Sealed, I.Expanded, I.Failure, SetOf, NoDup;
    n.Open();
    ghost var t, chain := n.tree, a[..len];
    FailureOfMap(st, t, dir, chain);
    var err, added := ExpandKeys(st, n, dir, a, len);
    if err.Some? {
      return Err(err.value);
    }
    ghost var cs := map k | k in n.children :: n.children[k].tree;
    ExpandedMap(st, t, dir, chain, cs);
    n.RebuildMap(cs, n.Repr + added);
    r := Ok(n);
  }

  lemma FailureOfMap(st: I.Store, t: Tree, dir: string, chain: seq<string>)
    requires t.Map?
    ensures I.Failure(st, t, dir, chain) == I.KeysFailure(st, t, t.keys, dir, chain)
  {}

  lemma FailureOfSeq(st: I.Store, t: Tree, dir: string, chain: seq<string>)
    requires t.Seq?
    ensures I.Failure(st, t, dir, chain) == I.ItemsFailure(st, t, t.items, dir, chain)
  {}

  /** The loop over the items of a sequence node. */
  method ExpandItems(st: I.Store, n: Node, dir: string, a: array<string>, len: nat)
    returns (err: Option<I.IncludeError>, ghost added: set<Node>)
    requires n.Valid() && n.kind.SeqKind? && n.tree.Seq? && len <= a.Length && NoDup(a[..len])
    modifies n`items, n.Repr - {n}, a
    ensures a[..len] == old(a[..len])
    ensures err == I.ItemsFailure(st, n.tree, n.tree.items, dir, old(a[..len]))
    ensures err.None? ==> |n.items| == |n.tree.items| && fresh(added)
    ensures err.None? ==> forall j | 0 <= j < |n.items| ::
      && n.items[j].Valid() && n !in n.items[j].Repr && n.items[j].Repr <= n.Repr + added
      && I.Expanded(st, n.tree.items[j], dir, old(a[..len])) == Some(n.items[j].tree)
    ensures err.None? ==> forall j, k | 0 <= j < k < |n.items| :: n.items[j].Repr !! n.items[k].Repr
    decreases I.Left(a[..len]), n.tree, 0
  {
    hide Node.Sealed, I.Expanded, I.Failure, I.ItemsFailure, NoDup, SetOf;
    n.Open();
    n.Kids();
    ghost var t, chain := n.tree, a[..len];
    hide Node.Valid, Node.Local;
    ItemsAll(st, t, dir, chain);
    added := {};
    for i := 0 to |n.items|
      invariant a[..len] == chain && |n.items| == |t.items|
      invariant fresh(added) && forall j | 0 <= j < |t.items| :: n.items[j].Repr <= n.Repr + added
      invariant forall j | 0 <= j < |t.items| :: n.items[j].Valid() && n !in n.items[j].Repr
      invariant forall j | i <= j < |t.items| ::
        n.items[j].Repr <= n.Repr - {n} && n.items[j].tree == t.items[j]
      invariant forall j | 0 <= j < i :: I.Expanded(st, t.items[j], dir, chain) == Some(n.items[j].tree)
      invariant forall j, k | 0 <= j < k < |t.items| :: n.items[j].Repr !! n.items[k].Repr
      invariant I.ItemsFailure(st, t, t.items, dir, chain) == I.ItemsFailure(st, t, t.items[i..], dir, chain)
    {
      ghost var more;
      ItemsStep(st, t, i, dir, chain);
      err, more := ExpandItem(st, n, i, dir, a, len);
      if err.Some? {
        return;
      }
      added := added + more;
    }
    err := None;
  }

  lemma ItemsAll(st: I.Store, t: Tree, dir: string, chain: seq<string>)
    requires t.Seq?
    ensures I.ItemsFailure(st, t, t.items, dir, chain) == I.ItemsFailure(st, t, t.items[0..], dir, chain)
    ensures I.ItemsFailure(st, t, t.items[|t.items|..], dir, chain) == None
  {
    assert t.items[0..] == t.items;
  }

  lemma ItemsStep(st: I.Store, t: Tree, i: nat, dir: string, chain: seq<string>)
    requires t.Seq? && i < |t.items|
    ensures var f := I.Failure(st, t.items[i], dir, chain);
            I.ItemsFailure(st, t, t.items[i..], dir, chain)
              == if f.Some? then f else I.ItemsFailure(st, t, t.items[i + 1..], dir, chain)
  {
    assert t.items[i..][1..] == t.items[i + 1..];
  }

  method ExpandSeq(st: I.Store, n: Node, dir: string, a: array<string>, len: nat)
    returns (r: Result<Node, I.IncludeError>)
    requires n.Valid() && n.kind.SeqKind? && len <= a.Length && NoDup(a[..len])
    modifies n.Repr, a
    ensures a[..len] == old(a[..len])
    ensures Expands(st, old(n.tree), dir, old(a[..len]), r)
    ensures r.Ok? ==> fresh(r.value.Repr - old(n.Repr))
    decreases I.Left(a[..len]), n.tree, 1
  {
    hide Node.Sealed, I.Expanded, I.Failure, I.ItemsFailure, SetOf, NoDup;
    n.Open();
    ghost var t, chain := n.tree, a[..len];
    FailureOfSeq(st, t, dir, chain);
    var err, added := ExpandItems(st, n, dir, a, len);
    if err.Some? {
      return Err(err.value);
    }
    ghost var ts := seq(|n.items|, i requires 0 <= i < |n.items| reads n, n.items => n.items[i].tree);
    ExpandedSeq(st, t, dir, chain, ts);
    n.RebuildSeq(ts, n.Repr + added);
    r := Ok(n);
  }
}
