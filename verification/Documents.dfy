/** A file of plain text in one directory, as a load prepares it. */
module Documents {
  import opened Text
  import opened Trees
  import opened Yaml
  import opened Merge
  import opened Schema
  import opened Loader
  import R = Resolve
  import I = Include

  const FILE: string := "c.yaml"

  function Literal(s: string): Tree {
    Scalar(s, "!!str", false, false, FILE)
  }

  function OneKeyMap(k: string, c: Tree): Tree {
    Map([k], map[k := c], FILE)
  }

  function TwoKeyMap(j: string, c: Tree, k: string, d: Tree): Tree {
    Map([j, k], map[j := c, k := d], FILE)
  }

  function ListOf(items: seq<Tree>): Tree {
    Seq(items, FILE)
  }

  /** A tree of this file in which nothing is a token. */
  ghost predicate PlainText(t: Tree) {
    match t
    case Scalar(value, _, secret, substituted, file) => !secret && !substituted && file == FILE && !Contains(value, "$(")
    case Map(keys, children, file) =>
      file == FILE && NoDup(keys) && SetOf(keys) == children.Keys && forall k | k in children :: PlainText(children[k])
    case Seq(items, file) => file == FILE && forall i | 0 <= i < |items| :: PlainText(items[i])
  }

  /** The document it was parsed from. */
  function DocOf(t: Tree): Doc {
    match t
    case Scalar(value, tag, _, _, _) => ScalarDoc(value, tag, false)
    case Map(keys, children, _) =>
      Mapping(seq(|keys|, i requires 0 <= i < |keys| =>
                (keys[i], if keys[i] in children then DocOf(children[keys[i]]) else ScalarDoc("", "", false))))
    case Seq(items, _) => Sequence(seq(|items|, i requires 0 <= i < |items| => DocOf(items[i])))
  }

  /** That document in one directory, and no resolvers. */
  function OneDocument(t: Tree): Source {
    Source(["d"], Disk((_, name) => name, _ => File.Document(DocOf(t))),
           I.Store(_ => None, (_, _) => "", _ => false, (_, _) => false),
           R.Resolver(true, (_, _, _) => None))
  }

  lemma {:induction false} PlainParses(t: Tree)
    requires PlainText(t)
    ensures WF(t) && TreeOf(DocOf(t), FILE) == Some(t)
  {
    match t
    case Map(keys, children, _) =>
      forall k | k in children ensures WF(children[k]) {
        PlainParses(children[k]);
      }
      KeysParse(t, |keys|);
      var pairs := DocOf(t).pairs;
      assert pairs[..|keys|] == pairs && keys[..|keys|] == keys;
      assert (map k | k in SetOf(keys) && k in children :: children[k]) == children;
    case Seq(items, _) =>
      forall i | 0 <= i < |items| ensures WF(items[i]) {
        PlainParses(items[i]);
      }
      ItemsParse(t, |items|);
      var content := DocOf(t).content;
      assert content[..|items|] == content && items[..|items|] == items;
    case _ =>
  }

  /** The first keys, with their values. */
  ghost function Leading(t: Tree, m: nat): Tree
    requires t.Map? && m <= |t.keys|
  {
    Map(t.keys[..m], map k | k in SetOf(t.keys[..m]) && k in t.children :: t.children[k], FILE)
  }

  lemma {:induction false} KeysParse(t: Tree, m: nat)
    requires PlainText(t) && t.Map? && m <= |t.keys|
    ensures MapOf(DocOf(t), DocOf(t).pairs[..m], FILE) == Some(Leading(t, m))
    decreases t, m
  {
    if m > 0 {
      KeysParse(t, m - 1);
      var key := t.keys[m - 1];
      assert key in SetOf(t.keys);
      PlainParses(t.children[key]);
      AppendedKey(t, m);
      var pairs := DocOf(t).pairs;
      assert pairs[m - 1] == (key, DocOf(t.children[key]));
      hide DocOf, MapOf, PlainText, TreeOf;
      OneMorePair(DocOf(t), pairs, m, Leading(t, m - 1), key, t.children[key]);
    }
  }

  lemma OneMorePair(y: Doc, pairs: seq<(string, Doc)>, m: nat, below: Tree, key: string, c: Tree)
    requires 0 < m <= |pairs| && below.Map? && key !in below.children && forall i | 0 <= i < |pairs| :: pairs[i].1 < y
    requires MapOf(y, pairs[..m - 1], FILE) == Some(below) && pairs[m - 1].0 == key && TreeOf(pairs[m - 1].1, FILE) == Some(c)
    ensures MapOf(y, pairs[..m], FILE) == Some(Map(below.keys + [key], below.children[key := c], FILE))
  {
    assert pairs[..m][..m - 1] == pairs[..m - 1] && pairs[..m][m - 1] == pairs[m - 1];
    hide TreeOf;
  }

  lemma AppendedKey(t: Tree, m: nat)
    requires t.Map? && NoDup(t.keys) && SetOf(t.keys) == t.children.Keys && 0 < m <= |t.keys|
    ensures var key := t.keys[m - 1];
            && key !in Leading(t, m - 1).children && key in t.children
            && Leading(t, m).keys == Leading(t, m - 1).keys + [key]
            && Leading(t, m).children == Leading(t, m - 1).children[key := t.children[key]]
  {
    var key := t.keys[m - 1];
    assert key in SetOf(t.keys);
    assert t.keys[..m] == t.keys[..m - 1] + [key];
    NoDupAppend(t.keys[..m - 1], [key]);
  }

  lemma {:induction false} ItemsParse(t: Tree, m: nat)
    requires PlainText(t) && t.Seq? && m <= |t.items|
    ensures SeqOf(DocOf(t), DocOf(t).content[..m], FILE) == Some(Seq(t.items[..m], FILE))
    decreases t, m
  {
    var content := DocOf(t).content;
    if m > 0 {
      ItemsParse(t, m - 1);
      PlainParses(t.items[m - 1]);
      assert content[..m][..m - 1] == content[..m - 1] && content[..m][m - 1] == content[m - 1] == DocOf(t.items[m - 1]);
      assert t.items[..m] == t.items[..m - 1] + [t.items[m - 1]];
    }
  }

  lemma {:induction false} PlainResolves(r: R.Resolver, t: Tree)
    requires PlainText(t)
    ensures R.Failure(r, t).None? && R.Resolved(r, t) == t
  {
    match t
    case Map(keys, children, _) =>
      forall k | k in children ensures R.Failure(r, children[k]).None? && R.Resolved(r, children[k]) == children[k] {
        PlainResolves(r, children[k]);
      }
      R.KeyFailureNone(r, t, keys);
      assert forall k | k in keys :: k in SetOf(keys);
      assert R.Resolved(r, t).children == children;
    case Seq(items, _) =>
      forall i | 0 <= i < |items| ensures R.Failure(r, items[i]).None? && R.Resolved(r, items[i]) == items[i] {
        PlainResolves(r, items[i]);
      }
      R.ItemFailureNone(r, t, items);
      assert R.Resolved(r, t).items == items;
    case _ =>
  }

  lemma {:induction false} NotWithin(s: string, p: string)
    requires p != "" && p[0] !in s
    ensures !Contains(s, p)
  {
    if s != "" {
      NotWithin(s[1..], p);
    }
  }

  lemma NameIsPlain()
    ensures NameError(FILE).None?
  {
    NotWithin("yaml", "..");
    assert FILE[1..] == ".yaml" && ".yaml"[1..] == "yaml";
    assert !(".." <= FILE) && !(".." <= ".yaml");
    assert !Contains(".yaml", "..") && !Contains(FILE, "..");
    assert EndsIn(FILE, ".yaml");
  }

  /** Its load binds the tree. */
  lemma PlainIsPrepared(n: Tree, t: Schema)
    requires PlainText(n) && n.Map? && WellShaped(n, t)
    ensures Prepared(OneDocument(n), FILE, t) == Ok(n)
  {
    var src := OneDocument(n);
    PlainParses(n);
    NameIsPlain();
    PlainResolves(src.resolver, n);
    hide NameError, WellShaped, R.Failure, R.Resolved, PlainText, TreeOf, DocOf;
    assert LayerOf(src.disk, src.st, true, "d", FILE) == Ok(Some(n));
    assert Layers(src.disk, src.st, true, [], FILE) == Ok([]);
    assert src.dirs[..0] == [] && [] + [n] == [n];
    assert Layers(src.disk, src.st, true, src.dirs, FILE) == Ok([n]);
  }
}
