/** Parsed YAML documents and the value tree flexconf/node.go builds from them. An alias is the
    aliased node itself, so a document that shares a node is still a finite tree. */
module Yaml {
  import opened Text
  import opened Trees

  datatype Doc =
    | Document(content: seq<Doc>)
    | Alias(target: Doc)
    | Mapping(pairs: seq<(string, Doc)>)
    | Sequence(content: seq<Doc>)
    | ScalarDoc(value: string, tag: string, quoted: bool)

  /** The tree of a document; None is a duplicate key. */
  function TreeOf(y: Doc, file: string): Option<Tree>
    decreases y
  {
    match y
    case Document(content) =>
      if content == [] then Some(Map([], map[], file)) else TreeOf(content[0], file)
    case Alias(target) => TreeOf(target, file)
    case Mapping(pairs) => MapOf(y, pairs, file)
    case Sequence(content) => SeqOf(y, content, file)
    case ScalarDoc(value, tag, quoted) =>
      Some(Scalar(value, if quoted then "!!str" else tag, false, false, file))
  }

  function MapOf(ghost y: Doc, pairs: seq<(string, Doc)>, file: string): (r: Option<Tree>)
    requires forall i | 0 <= i < |pairs| :: pairs[i].1 < y
    ensures r.Some? ==> r.value.Map?
    decreases y, |pairs|
  {
    if pairs == [] then Some(Map([], map[], file))
    else
      var (key, value) := pairs[|pairs| - 1];
      match MapOf(y, pairs[..|pairs| - 1], file)
      case None => None
      case Some(m) =>
        if key in m.children || TreeOf(value, file).None? then None
        else Some(Map(m.keys + [key], m.children[key := TreeOf(value, file).value], file))
  }

  function SeqOf(ghost y: Doc, content: seq<Doc>, file: string): (r: Option<Tree>)
    requires forall i | 0 <= i < |content| :: content[i] < y
    ensures r.Some? ==> r.value.Seq?
    decreases y, |content|
  {
    if content == [] then Some(Seq([], file))
    else
      match SeqOf(y, content[..|content| - 1], file)
      case None => None
      case Some(s) =>
        match TreeOf(content[|content| - 1], file)
        case None => None
        case Some(item) => Some(Seq(s.items + [item], file))
  }

  /** A parsed tree lists every key of a map once. */
  lemma {:induction false} TreeOfWF(y: Doc, file: string)
    requires TreeOf(y, file).Some?
    ensures WF(TreeOf(y, file).value)
    decreases y
  {
    match y
    case Document(content) => if content != [] { TreeOfWF(content[0], file); }
    case Alias(target) => TreeOfWF(target, file);
    case Mapping(pairs) => MapOfWF(y, pairs, file);
    case Sequence(content) => SeqOfWF(y, content, file);
    case ScalarDoc(_, _, _) =>
  }

  lemma {:induction false} MapOfWF(y: Doc, pairs: seq<(string, Doc)>, file: string)
    requires forall i | 0 <= i < |pairs| :: pairs[i].1 < y
    requires MapOf(y, pairs, file).Some?
    ensures WF(MapOf(y, pairs, file).value)
    decreases y, |pairs|
  {
    if pairs != [] {
      var (key, value) := pairs[|pairs| - 1];
      MapOfWF(y, pairs[..|pairs| - 1], file);
      TreeOfWF(value, file);
      var m := MapOf(y, pairs[..|pairs| - 1], file).value;
      assert SetOf(m.keys + [key]) == SetOf(m.keys) + {key};
      assert forall i | 0 <= i < |m.keys| :: m.keys[i] in SetOf(m.keys);
    }
  }

  lemma {:induction false} SeqOfWF(y: Doc, content: seq<Doc>, file: string)
    requires forall i | 0 <= i < |content| :: content[i] < y
    requires SeqOf(y, content, file).Some?
    ensures WF(SeqOf(y, content, file).value)
    decreases y, |content|
  {
    if content != [] {
      SeqOfWF(y, content[..|content| - 1], file);
      TreeOfWF(content[|content| - 1], file);
    }
  }

  /// ## What a document stands for, told without parsing

  /** The document reads as this tree: key by key and item by item, with the file it is from. A quoted scalar is a
      string; nothing is secret or substituted yet. */
  ghost predicate Reads(y: Doc, t: Tree, file: string)
    decreases y
  {
    match y
    case Document(content) => if content == [] then t == Map([], map[], file) else Reads(content[0], t, file)
    case Alias(target) => Reads(target, t, file)
    case Mapping(pairs) =>
      && t.Map? && t.file == file && |t.keys| == |pairs| && NoDup(t.keys) && SetOf(t.keys) == t.children.Keys
      && forall i | 0 <= i < |pairs| ::
           t.keys[i] == pairs[i].0 && t.keys[i] in t.children && Reads(pairs[i].1, t.children[t.keys[i]], file)
    case Sequence(content) =>
      && t.Seq? && t.file == file && |t.items| == |content|
      && forall i | 0 <= i < |content| :: Reads(content[i], t.items[i], file)
    case ScalarDoc(value, tag, quoted) =>
      && t.Scalar? && t.value == value && t.file == file && !t.secret && !t.substituted
      && (if quoted then t.tag == "!!str" else t.tag == tag)
  }

  /** Some mapping of the document has a key twice. */
  ghost predicate RepeatsKey(y: Doc)
    decreases y
  {
    match y
    case Document(content) => content != [] && RepeatsKey(content[0])
    case Alias(target) => RepeatsKey(target)
    case Mapping(pairs) =>
      || (exists i, j | 0 <= i < j < |pairs| :: pairs[i].0 == pairs[j].0)
      || exists i | 0 <= i < |pairs| :: RepeatsKey(pairs[i].1)
    case Sequence(content) => exists i | 0 <= i < |content| :: RepeatsKey(content[i])
    case ScalarDoc(_, _, _) => false
  }

  /** Parsing gives the tree the document reads as, and fails exactly on a repeated key. */
  lemma {:induction false} TreeOfReads(y: Doc, file: string)
    ensures TreeOf(y, file).None? <==> RepeatsKey(y)
    ensures TreeOf(y, file).Some? ==> Reads(y, TreeOf(y, file).value, file)
    decreases y
  {
    match y
    case Document(content) => if content != [] { TreeOfReads(content[0], file); }
    case Alias(target) => TreeOfReads(target, file);
    case Mapping(pairs) =>
      forall i | 0 <= i < |pairs|
        ensures TreeOf(pairs[i].1, file).None? <==> RepeatsKey(pairs[i].1)
        ensures TreeOf(pairs[i].1, file).Some? ==> Reads(pairs[i].1, TreeOf(pairs[i].1, file).value, file)
      {
        TreeOfReads(pairs[i].1, file);
      }
      MapOfReads(y, pairs, |pairs|, file);
      assert pairs[..|pairs|] == pairs;
    case Sequence(content) =>
      forall i | 0 <= i < |content|
        ensures TreeOf(content[i], file).None? <==> RepeatsKey(content[i])
        ensures TreeOf(content[i], file).Some? ==> Reads(content[i], TreeOf(content[i], file).value, file)
      {
        TreeOfReads(content[i], file);
      }
      SeqOfReads(y, content, |content|, file);
      assert content[..|content|] == content;
    case ScalarDoc(_, _, _) =>
  }

  /** The first pairs of a mapping, read into a map. */
  ghost predicate PairsRead(pairs: seq<(string, Doc)>, m: nat, t: Tree, file: string)
    requires m <= |pairs|
  {
    && t.Map? && t.file == file && |t.keys| == m && NoDup(t.keys) && SetOf(t.keys) == t.children.Keys
    && forall i | 0 <= i < m ::
         t.keys[i] == pairs[i].0 && t.keys[i] in t.children && TreeOf(pairs[i].1, file) == Some(t.children[t.keys[i]])
  }

  /** They cannot be: a key comes twice, or a value cannot be read. */
  ghost predicate PairsFail(pairs: seq<(string, Doc)>, m: nat, file: string)
    requires m <= |pairs|
  {
    || (exists i, j | 0 <= i < j < m :: pairs[i].0 == pairs[j].0)
    || exists i | 0 <= i < m :: TreeOf(pairs[i].1, file).None?
  }

  lemma {:induction false} MapOfReads(y: Doc, pairs: seq<(string, Doc)>, m: nat, file: string)
    requires m <= |pairs| && forall i | 0 <= i < |pairs| :: pairs[i].1 < y
    ensures MapOf(y, pairs[..m], file).None? <==> PairsFail(pairs, m, file)
    ensures MapOf(y, pairs[..m], file).Some? ==> PairsRead(pairs, m, MapOf(y, pairs[..m], file).value, file)
  {
    hide TreeOf, PairsRead, PairsFail;
    if m == 0 {
      NoPairs(pairs, file);
    } else {
      MapOfReads(y, pairs, m - 1, file);
      assert pairs[..m][..m - 1] == pairs[..m - 1];
      var below := MapOf(y, pairs[..m - 1], file);
      FailsNext(pairs, m, file);
      if below.Some? {
        KeyTaken(pairs, m, below.value, file);
        PairAdded(pairs, m, below.value, file);
      }
    }
  }

  lemma NoPairs(pairs: seq<(string, Doc)>, file: string)
    ensures PairsRead(pairs, 0, Map([], map[], file), file) && !PairsFail(pairs, 0, file)
  {}

  lemma FailsNext(pairs: seq<(string, Doc)>, m: nat, file: string)
    requires 0 < m <= |pairs|
    ensures PairsFail(pairs, m, file) <==>
            || PairsFail(pairs, m - 1, file)
            || (exists i | 0 <= i < m - 1 :: pairs[i].0 == pairs[m - 1].0)
            || TreeOf(pairs[m - 1].1, file).None?
  {
    hide TreeOf;
  }

  lemma KeyTaken(pairs: seq<(string, Doc)>, m: nat, t: Tree, file: string)
    requires 0 < m <= |pairs| && PairsRead(pairs, m - 1, t, file)
    ensures t.Map? && (pairs[m - 1].0 in t.children <==> exists i | 0 <= i < m - 1 :: pairs[i].0 == pairs[m - 1].0)
  {
    hide TreeOf;
    assert pairs[m - 1].0 in t.children <==> pairs[m - 1].0 in SetOf(t.keys);
  }

  lemma PairAdded(pairs: seq<(string, Doc)>, m: nat, t: Tree, file: string)
    requires 0 < m <= |pairs| && PairsRead(pairs, m - 1, t, file)
    ensures var (key, value) := pairs[m - 1];
            t.Map? && (key !in t.children && TreeOf(value, file).Some? ==>
                        PairsRead(pairs, m, Map(t.keys + [key], t.children[key := TreeOf(value, file).value], file), file))
  {
    hide TreeOf;
    var key := pairs[m - 1].0;
    if key !in t.children {
      AppendNew(t.keys, key);
      assert forall i | 0 <= i < m - 1 :: t.keys[i] in SetOf(t.keys);
    }
  }

  lemma {:induction false} SeqOfReads(y: Doc, content: seq<Doc>, m: nat, file: string)
    requires m <= |content| && forall i | 0 <= i < |content| :: content[i] < y
    ensures SeqOf(y, content[..m], file).None? <==> exists i | 0 <= i < m :: TreeOf(content[i], file).None?
    ensures SeqOf(y, content[..m], file).Some? ==>
            var t := SeqOf(y, content[..m], file).value;
            t.file == file && |t.items| == m && forall i | 0 <= i < m :: TreeOf(content[i], file) == Some(t.items[i])
  {
    hide TreeOf;
    if m > 0 {
      SeqOfReads(y, content, m - 1, file);
      assert content[..m][..m - 1] == content[..m - 1];
    }
  }
}
