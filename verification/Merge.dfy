/** The layer merge of flexconf/merge.go: what it means, and when it associates. */
module Merge {
  import opened Text
  import opened Trees

  /** The keys of `keys` that are not already known, in order. */
  function NewKeys(known: set<string>, keys: seq<string>): seq<string> {
    if keys == [] then []
    else (if keys[0] in known then [] else [keys[0]]) + NewKeys(known, keys[1..])
  }

  /** Two maps merge by key; any other pair is replaced by the override. */
  function MergeTwo(base: Tree, over: Tree): Tree
    decreases over
  {
    if base.Map? && over.Map? then
      Map(base.keys + NewKeys(base.children.Keys, over.keys),
          map k | k in base.children.Keys + over.children.Keys ::
            if k !in over.children then base.children[k]
            else if k !in base.children then over.children[k]
            else MergeTwo(base.children[k], over.children[k]),
          over.file)
    else over
  }

  /** The fold over the layers, lowest precedence first. */
  function Fold(layers: seq<Tree>): Tree
    requires layers != []
  {
    if |layers| == 1 then layers[0]
    else MergeTwo(Fold(layers[..|layers| - 1]), layers[|layers| - 1])
  }

  ghost predicate AllWF(ts: seq<Tree>) {
    forall i | 0 <= i < |ts| :: WF(ts[i])
  }

  lemma {:induction false} NewKeysHas(known: set<string>, keys: seq<string>, x: string)
    ensures x in NewKeys(known, keys) <==> x in keys && x !in known
  {
    if keys != [] {
      NewKeysHas(known, keys[1..], x);
      assert x in keys <==> x == keys[0] || x in keys[1..];
    }
  }

  lemma {:induction false} NewKeysNoDup(known: set<string>, keys: seq<string>)
    requires NoDup(keys)
    ensures NoDup(NewKeys(known, keys))
  {
    if keys != [] {
      NewKeysNoDup(known, keys[1..]);
      NewKeysHas(known, keys[1..], keys[0]);
      var tail := NewKeys(known, keys[1..]);
      assert forall j | 0 <= j < |tail| :: tail[j] in tail;
    }
  }

  lemma NewKeysAre(known: set<string>, keys: seq<string>)
    ensures SetOf(NewKeys(known, keys)) == SetOf(keys) - known
    ensures NoDup(keys) ==> NoDup(NewKeys(known, keys))
  {
    forall x ensures x in NewKeys(known, keys) <==> x in keys && x !in known {
      NewKeysHas(known, keys, x);
    }
    if NoDup(keys) {
      NewKeysNoDup(known, keys);
    }
  }

  lemma {:induction false} MergeWF(base: Tree, over: Tree)
    requires WF(base) && WF(over)
    ensures WF(MergeTwo(base, over))
    decreases over
  {
    if base.Map? && over.Map? {
      var r := MergeTwo(base, over);
      var added := NewKeys(base.children.Keys, over.keys);
      NewKeysAre(base.children.Keys, over.keys);
      assert SetOf(r.keys) == SetOf(base.keys) + SetOf(added);
      assert forall j | 0 <= j < |added| :: added[j] in SetOf(added);
      assert forall i | 0 <= i < |base.keys| :: base.keys[i] in SetOf(base.keys);
      forall k | k in base.children && k in over.children
        ensures WF(r.children[k])
      {
        MergeWF(base.children[k], over.children[k]);
      }
    }
  }

  lemma {:induction false} FoldWF(layers: seq<Tree>)
    requires layers != [] && AllWF(layers)
    ensures WF(Fold(layers))
  {
    if |layers| > 1 {
      FoldWF(layers[..|layers| - 1]);
      MergeWF(Fold(layers[..|layers| - 1]), layers[|layers| - 1]);
    }
  }

  /// ## The exact meaning of the fold

  /** The layers after the last one that is not a map. */
  function MapSuffix(ts: seq<Tree>): seq<Tree> {
    if ts == [] || !ts[|ts| - 1].Map? then [] else MapSuffix(ts[..|ts| - 1]) + [ts[|ts| - 1]]
  }

  /** What the given maps have under `key`, in order. */
  function Under(ts: seq<Tree>, key: string): seq<Tree> {
    if ts == [] then []
    else
      var t := ts[|ts| - 1];
      Under(ts[..|ts| - 1], key) + if t.Map? && key in t.children then [t.children[key]] else []
  }

  function AllKeys(ts: seq<Tree>): seq<string> {
    if ts == [] then []
    else AllKeys(ts[..|ts| - 1]) + (var t := ts[|ts| - 1]; if t.Map? then t.keys else [])
  }

  /** Keeps the first occurrence of each key. */
  function FirstSeen(keys: seq<string>): seq<string> {
    if keys == [] then []
    else
      var init := FirstSeen(keys[..|keys| - 1]);
      if keys[|keys| - 1] in init then init else init + [keys[|keys| - 1]]
  }

  lemma {:induction false} FirstSeenSet(keys: seq<string>)
    ensures SetOf(FirstSeen(keys)) == SetOf(keys)
  {
    if keys != [] {
      FirstSeenSet(keys[..|keys| - 1]);
      assert SetOf(keys) == SetOf(keys[..|keys| - 1]) + {keys[|keys| - 1]};
      var init := FirstSeen(keys[..|keys| - 1]);
      assert SetOf(init + [keys[|keys| - 1]]) == SetOf(init) + {keys[|keys| - 1]};
    }
  }

  lemma {:induction false} NewKeysSnoc(known: set<string>, keys: seq<string>)
    requires keys != []
    ensures NewKeys(known, keys) == NewKeys(known, keys[..|keys| - 1])
              + (if keys[|keys| - 1] in known then [] else [keys[|keys| - 1]])
  {
    if |keys| > 1 {
      NewKeysSnoc(known, keys[1..]);
      assert keys[1..][..|keys| - 2] == keys[..|keys| - 1][1..];
    }
  }

  lemma FirstSeenSnoc(keys: seq<string>, x: string)
    ensures FirstSeen(keys + [x]) == FirstSeen(keys) + if x in keys then [] else [x]
  {
    FirstSeenSet(keys);
    assert x in FirstSeen(keys) <==> x in SetOf(keys);
    assert (keys + [x])[..|keys|] == keys;
  }

  lemma {:induction false} FirstSeenAppend(a: seq<string>, b: seq<string>)
    requires NoDup(b)
    ensures FirstSeen(a + b) == FirstSeen(a) + NewKeys(SetOf(a), b)
  {
    if b == [] {
      assert a + b == a;
    } else {
      var init, last := b[..|b| - 1], b[|b| - 1];
      FirstSeenAppend(a, init);
      NewKeysSnoc(SetOf(a), b);
      assert a + b == (a + init) + [last];
      FirstSeenSnoc(a + init, last);
      assert last !in init;
      hide FirstSeen, NewKeys;
      assert last in a + init <==> last in SetOf(a);
      AppendAssociates(FirstSeen(a), NewKeys(SetOf(a), init), if last in SetOf(a) then [] else [last]);
    }
  }

  lemma AppendAssociates<T>(a: seq<T>, b: seq<T>, c: seq<T>)
    ensures (a + b) + c == a + (b + c)
  {}

  /** The last layer wins unless it is a map; the maps at the end merge key by key. */
  ghost predicate IsDeepMerge(r: Tree, layers: seq<Tree>)
    requires layers != []
  {
    var last, maps := layers[|layers| - 1], MapSuffix(layers);
    if !last.Map? then r == last
    else
      && r.Map?
      && r.file == last.file
      && r.keys == FirstSeen(AllKeys(maps))
      && (forall k :: k in r.children <==> Under(maps, k) != [])
      && (forall k | k in r.children :: r.children[k] == Fold(Under(maps, k)))
  }

  lemma OneMap(last: Tree, k: string)
    requires last.Map?
    ensures AllKeys([last]) == last.keys
    ensures Under([last], k) == if k in last.children then [last.children[k]] else []
  {
    assert [last][..0] == [];
    assert Under([], k) == [] && AllKeys([]) == [];
  }

  lemma StartMerge(last: Tree, layers: seq<Tree>)
    requires last.Map? && WF(last) && layers != [] && layers[|layers| - 1] == last && MapSuffix(layers) == [last]
    ensures IsDeepMerge(last, layers)
  {
    OneMap(last, "");
    FirstSeenOnce(last.keys);
    hide Under, AllKeys, FirstSeen;
    forall k
      ensures Under([last], k) == if k in last.children then [last.children[k]] else []
    {
      OneMap(last, k);
    }
  }

  lemma FirstSeenOnce(keys: seq<string>)
    requires NoDup(keys)
    ensures FirstSeen(keys) == keys
  {
    FirstSeenAppend([], keys);
    assert [] + keys == keys && SetOf<string>([]) == {};
    NewKeysOfNone(keys);
  }

  lemma ExtendUnder(b: Tree, below: seq<Tree>, last: Tree, k: string)
    requires b.Map? && last.Map?
    requires k in b.children <==> Under(below, k) != []
    requires k in b.children ==> b.children[k] == Fold(Under(below, k))
    ensures var r := MergeTwo(b, last).children;
            && (k in r <==> Under(below + [last], k) != [])
            && (k in r ==> r[k] == Fold(Under(below + [last], k)))
  {
    UnderSnoc(below, last, k);
    MergedChild(b, last, k);
    hide Under, Fold, MergeTwo;
    if k in last.children {
      FoldSnoc(Under(below, k), last.children[k]);
    }
  }

  lemma UnderSnoc(below: seq<Tree>, last: Tree, k: string)
    requires last.Map?
    ensures k in last.children ==> Under(below + [last], k) == Under(below, k) + [last.children[k]]
    ensures k !in last.children ==> Under(below + [last], k) == Under(below, k)
  {
    assert (below + [last])[..|below|] == below;
    assert (below + [last])[|below|] == last;
  }

  lemma MergedChild(b: Tree, last: Tree, k: string)
    requires b.Map? && last.Map?
    ensures var r := MergeTwo(b, last);
            && r.Map? && (k in r.children <==> k in b.children || k in last.children)
            && (k in r.children ==>
                 r.children[k] == if k !in last.children then b.children[k]
                                  else if k in b.children then MergeTwo(b.children[k], last.children[k])
                                  else last.children[k])
  {}

  lemma FoldSnoc(us: seq<Tree>, last: Tree)
    ensures Fold(us + [last]) == if us == [] then last else MergeTwo(Fold(us), last)
  {
    assert (us + [last])[..|us|] == us;
  }

  lemma ExtendMerge(b: Tree, init: seq<Tree>, last: Tree)
    requires init != [] && init[|init| - 1].Map? && IsDeepMerge(b, init) && WF(b)
    requires last.Map? && WF(last)
    ensures IsDeepMerge(MergeTwo(b, last), init + [last])
  {
    var layers, below, r := init + [last], MapSuffix(init), MergeTwo(b, last);
    var maps := MapSuffix(layers);
    assert layers[..|layers| - 1] == init;
    assert maps == below + [last] && maps[..|maps| - 1] == below;
    assert AllKeys(maps) == AllKeys(below) + last.keys;
    FirstSeenAppend(AllKeys(below), last.keys);
    FirstSeenSet(AllKeys(below));
    forall k
      ensures k in r.children <==> Under(maps, k) != []
      ensures k in r.children ==> r.children[k] == Fold(Under(maps, k))
    {
      ExtendUnder(b, below, last, k);
    }
  }

  /** The exact meaning of the fold of the layers. */
  lemma {:induction false} FoldMeaning(layers: seq<Tree>)
    requires layers != [] && AllWF(layers)
    ensures IsDeepMerge(Fold(layers), layers)
  {
    var last, init := layers[|layers| - 1], layers[..|layers| - 1];
    assert layers == init + [last];
    if last.Map? {
      if init == [] {
        StartMerge(last, layers);
      } else {
        FoldMeaning(init);
        FoldWF(init);
        if init[|init| - 1].Map? {
          ExtendMerge(Fold(init), init, last);
        } else {
          StartMerge(last, layers);
        }
      }
    }
  }

  lemma {:induction false} NewKeysOfNone(keys: seq<string>)
    ensures NewKeys({}, keys) == keys
  {
    if keys != [] {
      NewKeysOfNone(keys[1..]);
    }
  }

  function At(t: Tree, path: seq<string>): Option<Tree>
    decreases |path|
  {
    if path == [] then Some(t)
    else if t.Map? && path[0] in t.children then At(t.children[path[0]], path[1..])
    else None
  }

  /** The subtrees of the layers that still matter at a path. */
  function Providers(layers: seq<Tree>, path: seq<string>): seq<Tree>
    decreases |path|
  {
    if path == [] then layers else Providers(Under(MapSuffix(layers), path[0]), path[1..])
  }

  lemma {:induction false} UnderWF(ts: seq<Tree>, key: string)
    requires AllWF(ts)
    ensures AllWF(Under(ts, key)) && AllWF(MapSuffix(ts))
  {
    if ts != [] {
      UnderWF(ts[..|ts| - 1], key);
    }
  }

  /** At every path the result is the fold of the providers of that path. */
  lemma {:induction false} FoldAt(layers: seq<Tree>, path: seq<string>)
    requires AllWF(layers)
    ensures (if layers == [] then None else At(Fold(layers), path))
         == (if Providers(layers, path) == [] then None else Some(Fold(Providers(layers, path))))
    decreases |path|
  {
    if path == [] {
    } else if layers == [] {
      FoldAt([], path[1..]);
    } else {
      var key := path[0];
      FoldMeaning(layers);
      UnderWF(layers, key);
      UnderWF(MapSuffix(layers), key);
      FoldAt(Under(MapSuffix(layers), key), path[1..]);
      if !layers[|layers| - 1].Map? {
        assert Under([], key) == [];
      }
    }
  }

  /** Hence the highest provider of a path decides it, unless that provider is a map. */
  lemma LastProviderWins(layers: seq<Tree>, path: seq<string>)
    requires layers != [] && AllWF(layers)
    requires var ps := Providers(layers, path); ps != [] && !ps[|ps| - 1].Map?
    ensures var ps := Providers(layers, path); At(Fold(layers), path) == Some(ps[|ps| - 1])
  {
    FoldAt(layers, path);
  }

  /** A tree that says nothing about a path: what it has of the way there are maps, and the last of them lacks the
      next key. */
  predicate Silent(t: Tree, path: seq<string>)
    decreases |path|
  {
    path != [] && t.Map? && (path[0] in t.children ==> Silent(t.children[path[0]], path[1..]))
  }

  predicate MapAt(t: Tree, path: seq<string>) {
    At(t, path).Some? && At(t, path).value.Map?
  }

  /** A tree that says nothing about a path leaves what is below it; one that says something other than a map
      decides. */
  lemma {:induction false} MergeAt(a: Tree, b: Tree, path: seq<string>)
    ensures Silent(b, path) ==> At(MergeTwo(a, b), path) == At(a, path) && At(b, path).None?
    ensures !Silent(b, path) && !MapAt(b, path) ==> At(MergeTwo(a, b), path) == At(b, path)
    decreases |path|
  {
    if path != [] && a.Map? && b.Map? {
      var k := path[0];
      if k in a.children && k in b.children {
        MergeAt(a.children[k], b.children[k], path[1..]);
      } else if k in b.children {
        MergeAt(Map([], map[], ""), b.children[k], path[1..]);
      }
    } else if path != [] && b.Map? && path[0] in b.children {
      MergeAt(Map([], map[], ""), b.children[path[0]], path[1..]);
    }
  }

  /** The last layer that says anything about a path decides what is there, unless it has a map there. */
  lemma {:induction false} LastToSpeakDecides(layers: seq<Tree>, path: seq<string>, i: nat)
    requires i < |layers| && !Silent(layers[i], path) && !MapAt(layers[i], path)
    requires forall j | i < j < |layers| :: Silent(layers[j], path)
    ensures At(Fold(layers), path) == At(layers[i], path)
  {
    if |layers| > 1 {
      var init, last := layers[..|layers| - 1], layers[|layers| - 1];
      MergeAt(Fold(init), last, path);
      if i < |init| {
        LastToSpeakDecides(init, path, i);
      }
    }
  }

  /** And where no layer says anything there is nothing. */
  lemma {:induction false} NobodySpeaks(layers: seq<Tree>, path: seq<string>)
    requires layers != [] && forall j | 0 <= j < |layers| :: Silent(layers[j], path)
    ensures At(Fold(layers), path).None?
  {
    var init, last := layers[..|layers| - 1], layers[|layers| - 1];
    if init == [] {
      MergeAt(last, last, path);
    } else {
      NobodySpeaks(init, path);
      MergeAt(Fold(init), last, path);
    }
  }

  /// ## Idempotence and associativity

  lemma {:induction false} NewKeysAllKnown(known: set<string>, keys: seq<string>)
    requires SetOf(keys) <= known
    ensures NewKeys(known, keys) == []
  {
    if keys != [] {
      assert keys[0] in SetOf(keys);
      assert SetOf(keys[1..]) <= SetOf(keys);
      NewKeysAllKnown(known, keys[1..]);
    }
  }

  lemma {:induction false} MergeIdempotent(t: Tree)
    requires WF(t)
    ensures MergeTwo(t, t) == t
  {
    if t.Map? {
      NewKeysAllKnown(t.children.Keys, t.keys);
      forall k | k in t.children
        ensures MergeTwo(t.children[k], t.children[k]) == t.children[k]
      {
        MergeIdempotent(t.children[k]);
      }
      assert MergeTwo(t, t).children == t.children;
    }
  }

  /** `low` adds nothing to `high`: its keys come first there, and what they hold adds nothing either. */
  ghost predicate Covered(low: Tree, high: Tree) {
    low.Map? && high.Map? ==>
      && low.keys <= high.keys
      && forall k | k in low.children && k in high.children :: Covered(low.children[k], high.children[k])
  }

  lemma {:induction false} NewKeysSuffix(known: seq<string>, keys: seq<string>)
    requires NoDup(keys)
    ensures known + NewKeys(SetOf(known), keys) == keys <==> known <= keys
  {
    if known <= keys {
      var rest := keys[|known|..];
      assert keys == known + rest;
      NewKeysAppend(SetOf(known), known, rest);
      NewKeysAllKnown(SetOf(known), known);
      assert SetOf(rest) !! SetOf(known);
      NewKeysNoneKnown(SetOf(known), rest);
    }
  }

  lemma {:induction false} NewKeysAppend(known: set<string>, a: seq<string>, b: seq<string>)
    ensures NewKeys(known, a + b) == NewKeys(known, a) + NewKeys(known, b)
  {
    if a == [] {
      assert a + b == b;
    } else {
      assert (a + b)[1..] == a[1..] + b;
      NewKeysAppend(known, a[1..], b);
    }
  }

  lemma {:induction false} NewKeysNoneKnown(known: set<string>, keys: seq<string>)
    requires SetOf(keys) !! known
    ensures NewKeys(known, keys) == keys
  {
    if keys != [] {
      assert keys[0] in SetOf(keys);
      assert SetOf(keys[1..]) <= SetOf(keys);
      NewKeysNoneKnown(known, keys[1..]);
    }
  }

  lemma {:induction false} CoveredMeaning(low: Tree, high: Tree)
    requires WF(low) && WF(high)
    ensures MergeTwo(low, high) == high <==> Covered(low, high)
    decreases high
  {
    if low.Map? && high.Map? {
      NewKeysSuffix(low.keys, high.keys);
      var r := MergeTwo(low, high);
      forall k | k in low.children && k in high.children
        ensures r.children[k] == high.children[k] <==> Covered(low.children[k], high.children[k])
      {
        CoveredMeaning(low.children[k], high.children[k]);
      }
      if low.keys <= high.keys {
        assert SetOf(low.keys) <= SetOf(high.keys);
        assert r.children.Keys == high.children.Keys;
      }
      if Covered(low, high) {
        assert r.children == high.children;
      }
    }
  }

  /** No place where a non-map separates two maps of which the lower still adds something. */
  ghost predicate Associates(a: Tree, b: Tree, c: Tree) {
    if !c.Map? then true
    else if !b.Map? then Covered(a, c)
    else if !a.Map? then true
    else forall k | k in a.children && k in b.children && k in c.children ::
      Associates(a.children[k], b.children[k], c.children[k])
  }

  lemma {:induction false} NewKeysTwice(known: set<string>, b: seq<string>, c: seq<string>)
    ensures NewKeys(known, NewKeys(SetOf(b), c)) == NewKeys(known + SetOf(b), c)
  {
    if c != [] {
      NewKeysTwice(known, b, c[1..]);
      var tail := NewKeys(SetOf(b), c[1..]);
      assert ([c[0]] + tail)[1..] == tail;
      assert [] + tail == tail;
    }
  }

  lemma MergedKeys(a: Tree, b: Tree)
    requires a.Map? && b.Map?
    ensures MergeTwo(a, b).Map? && MergeTwo(a, b).keys == a.keys + NewKeys(a.children.Keys, b.keys)
    ensures MergeTwo(a, b).children.Keys == a.children.Keys + b.children.Keys
  {}

  lemma NewKeysAssociate(x: seq<string>, y: seq<string>, z: seq<string>)
    ensures (x + NewKeys(SetOf(x), y)) + NewKeys(SetOf(x) + SetOf(y), z)
         == x + NewKeys(SetOf(x), y + NewKeys(SetOf(y), z))
  {
    NewKeysAppend(SetOf(x), y, NewKeys(SetOf(y), z));
    NewKeysTwice(SetOf(x), y, z);
  }

  lemma MergeKeysAssociate(a: Tree, b: Tree, c: Tree)
    requires a.Map? && b.Map? && c.Map? && WF(a) && WF(b) && WF(c)
    ensures MergeTwo(MergeTwo(a, b), c).keys == MergeTwo(a, MergeTwo(b, c)).keys
  {
    hide MergeTwo, NewKeys, SetOf;
    MergedKeys(a, b);
    MergedKeys(b, c);
    MergedKeys(MergeTwo(a, b), c);
    MergedKeys(a, MergeTwo(b, c));
    NewKeysAssociate(a.keys, b.keys, c.keys);
  }

  lemma MapsAssociateIff(a: Tree, b: Tree, c: Tree)
    requires a.Map? && b.Map? && c.Map? && WF(a) && WF(b) && WF(c)
    requires forall k | k in a.children && k in b.children && k in c.children ::
      var (x, y, z) := (a.children[k], b.children[k], c.children[k]);
      MergeTwo(MergeTwo(x, y), z) == MergeTwo(x, MergeTwo(y, z)) <==> Associates(x, y, z)
    ensures MergeTwo(MergeTwo(a, b), c) == MergeTwo(a, MergeTwo(b, c)) <==> Associates(a, b, c)
  {
    var l, r := MergeTwo(MergeTwo(a, b), c), MergeTwo(a, MergeTwo(b, c));
    MergeKeysAssociate(a, b, c);
    assert l.children.Keys == r.children.Keys;
    forall k | k in l.children
      ensures l.children[k] == r.children[k] <==>
        (k in a.children && k in b.children && k in c.children ==>
           Associates(a.children[k], b.children[k], c.children[k]))
    {
      ChildAssociates(a, b, c, k);
    }
    if Associates(a, b, c) {
      assert l.children == r.children;
    }
  }

  lemma ChildAssociates(a: Tree, b: Tree, c: Tree, k: string)
    requires a.Map? && b.Map? && c.Map?
    requires k in a.children.Keys + b.children.Keys + c.children.Keys
    ensures var l, r := MergeTwo(MergeTwo(a, b), c).children, MergeTwo(a, MergeTwo(b, c)).children;
            k in l && k in r &&
            if k in a.children && k in b.children && k in c.children then
              && l[k] == MergeTwo(MergeTwo(a.children[k], b.children[k]), c.children[k])
              && r[k] == MergeTwo(a.children[k], MergeTwo(b.children[k], c.children[k]))
            else l[k] == r[k]
  {}

  /** Merging associates exactly there. */
  lemma {:induction false} AssociativeIff(a: Tree, b: Tree, c: Tree)
    requires WF(a) && WF(b) && WF(c)
    ensures MergeTwo(MergeTwo(a, b), c) == MergeTwo(a, MergeTwo(b, c)) <==> Associates(a, b, c)
    decreases c
  {
    if c.Map? && !b.Map? {
      CoveredMeaning(a, c);
    } else if c.Map? && a.Map? {
      forall k | k in a.children && k in b.children && k in c.children
        ensures var (x, y, z) := (a.children[k], b.children[k], c.children[k]);
          MergeTwo(MergeTwo(x, y), z) == MergeTwo(x, MergeTwo(y, z)) <==> Associates(x, y, z)
      {
        AssociativeIff(a.children[k], b.children[k], c.children[k]);
      }
      MapsAssociateIff(a, b, c);
    }
  }

  /** The two trees have the same kind wherever both have a value. */
  ghost predicate SameShape(a: Tree, b: Tree) {
    && KindOf(a) == KindOf(b)
    && (a.Map? && b.Map? ==>
          forall k | k in a.children && k in b.children :: SameShape(a.children[k], b.children[k]))
  }

  lemma {:induction false} SameShapeAssociates(a: Tree, b: Tree, c: Tree)
    requires SameShape(b, c)
    ensures Associates(a, b, c)
    decreases c
  {
    if c.Map? && a.Map? {
      forall k | k in a.children && k in b.children && k in c.children
        ensures Associates(a.children[k], b.children[k], c.children[k])
      {
        SameShapeAssociates(a.children[k], b.children[k], c.children[k]);
      }
    }
  }

  /** A property of scalars that holds in both operands holds in the merge. */
  lemma {:induction false} MergeScalars(base: Tree, over: Tree, p: Tree -> bool)
    requires AllScalars(base, p) && AllScalars(over, p)
    ensures AllScalars(MergeTwo(base, over), p)
    decreases over
  {
    if base.Map? && over.Map? {
      forall k | k in base.children && k in over.children
        ensures AllScalars(MergeTwo(base.children[k], over.children[k]), p)
      {
        MergeScalars(base.children[k], over.children[k], p);
      }
    }
  }
}
