/** Token resolution of flexconf/template.go, on value trees. Resolvers are one pure function:
    scheme, path and the file holding the token give a value or nothing. */
module Resolve {
  import opened Text
  import opened Trees
  import opened Scanner
  import opened Merge

  datatype Resolver = Resolver(static_: bool, dispatch: (string, string, string) -> Option<string>)

  datatype Error =
    | BadToken
    | StaticLoader                              // any token on a loader with an empty resolver set
    | IncludeEmbedded                           // a config token that include expansion left behind
    | DispatchFailed(scheme: string, path: string)

  /** The first segment, in order, that cannot be resolved. */
  function SegmentFailure(r: Resolver, segs: seq<Segment>, file: string): Option<Error> {
    if segs == [] then None
    else
      match segs[0]
      case Lit(_) => SegmentFailure(r, segs[1..], file)
      case Token(scheme, path) =>
        if scheme == "config" then Some(IncludeEmbedded)
        else if r.dispatch(scheme, path, file).None? then Some(DispatchFailed(scheme, path))
        else SegmentFailure(r, segs[1..], file)
  }

  function SegmentValue(r: Resolver, seg: Segment, file: string): string {
    match seg
    case Lit(text) => text
    case Token(scheme, path) => match r.dispatch(scheme, path, file) case Some(v) => v case None => ""
  }

  function Joined(r: Resolver, segs: seq<Segment>, file: string): string {
    if segs == [] then "" else SegmentValue(r, segs[0], file) + Joined(r, segs[1..], file)
  }

  predicate UsesSecret(segs: seq<Segment>) {
    exists i | 0 <= i < |segs| :: segs[i].Token? && segs[i].scheme == "secret"
  }

  /** Why a scalar cannot be resolved, if it cannot. */
  function ScalarFailure(r: Resolver, s: Tree): Option<Error>
    requires s.Scalar?
  {
    if !Contains(s.value, "$(") then None
    else
      match Scan(s.value)
      case None => Some(BadToken)
      case Some(segs) =>
        if !HasTokens(segs) then None
        else if r.static_ then Some(StaticLoader)
        else SegmentFailure(r, segs, s.file)
  }

  /** The scalar after resolution; a scalar that cannot be resolved is left alone. */
  function ScalarResult(r: Resolver, s: Tree): (t: Tree)
    requires s.Scalar?
    ensures t.Scalar? && t.file == s.file
  {
    if !Contains(s.value, "$(") || ScalarFailure(r, s).Some? then s
    else
      var segs := Scan(s.value).value;
      if !HasTokens(segs) then
        if segs != [] && segs[0].Lit? then s.(value := segs[0].text) else s
      else
        s.(value := Joined(r, segs, s.file),
           tag := if |segs| == 1 then "" else "!!str",
           secret := s.secret || UsesSecret(segs),
           substituted := true)
  }

  function Failure(r: Resolver, t: Tree): Option<Error>
    decreases t
  {
    match t
    case Scalar(_, _, _, _, _) => ScalarFailure(r, t)
    case Map(keys, children, _) => KeyFailure(r, t, keys)
    case Seq(items, _) => ItemFailure(r, t, items)
  }

  /** The first failure in key order. */
  function KeyFailure(r: Resolver, t: Tree, keys: seq<string>): Option<Error>
    requires t.Map?
    decreases t, |keys|
  {
    if keys == [] then None
    else if keys[0] in t.children && Failure(r, t.children[keys[0]]).Some? then Failure(r, t.children[keys[0]])
    else KeyFailure(r, t, keys[1..])
  }

  function ItemFailure(r: Resolver, ghost t: Tree, items: seq<Tree>): Option<Error>
    requires forall i | 0 <= i < |items| :: items[i] < t
    decreases t, |items|
  {
    if items == [] then None
    else if Failure(r, items[0]).Some? then Failure(r, items[0])
    else ItemFailure(r, t, items[1..])
  }

  /** The tree with every scalar resolved once. */
  function Resolved(r: Resolver, t: Tree): Tree {
    match t
    case Scalar(_, _, _, _, _) => ScalarResult(r, t)
    case Map(keys, children, file) => Map(keys, map k | k in children :: Resolved(r, children[k]), file)
    case Seq(items, file) => Seq(seq(|items|, i requires 0 <= i < |items| => Resolved(r, items[i])), file)
  }

  ghost predicate Resolves(r: Resolver, s: Tree) {
    s.Scalar? ==> ScalarFailure(r, s).None?
  }

  lemma {:induction false} KeyFailureNone(r: Resolver, t: Tree, keys: seq<string>)
    requires t.Map? && SetOf(keys) <= t.children.Keys
    ensures KeyFailure(r, t, keys).None? <==> forall k | k in keys :: Failure(r, t.children[k]).None?
  {
    if keys != [] {
      assert keys[0] in SetOf(keys);
      assert SetOf(keys[1..]) <= SetOf(keys);
      KeyFailureNone(r, t, keys[1..]);
      assert forall k :: k in keys <==> k == keys[0] || k in keys[1..];
    }
  }

  lemma {:induction false} ItemFailureNone(r: Resolver, t: Tree, items: seq<Tree>)
    requires forall i | 0 <= i < |items| :: items[i] < t
    ensures ItemFailure(r, t, items).None? <==> forall i | 0 <= i < |items| :: Failure(r, items[i]).None?
  {
    if items != [] {
      ItemFailureNone(r, t, items[1..]);
      assert forall i | 1 <= i < |items| :: items[i] == items[1..][i - 1];
    }
  }

  /** Resolution succeeds exactly when each scalar on its own resolves. */
  lemma {:induction false} FailureNone(r: Resolver, t: Tree)
    requires WF(t)
    ensures Failure(r, t).None? <==> AllScalars(t, s => Resolves(r, s))
  {
    match t
    case Scalar(_, _, _, _, _) =>
    case Map(keys, children, _) =>
      forall k | k in children
        ensures Failure(r, children[k]).None? <==> AllScalars(children[k], s => Resolves(r, s))
      {
        FailureNone(r, children[k]);
      }
      KeyFailureNone(r, t, keys);
      assert forall k :: k in keys <==> k in SetOf(keys);
    case Seq(items, _) =>
      forall i | 0 <= i < |items|
        ensures Failure(r, items[i]).None? <==> AllScalars(items[i], s => Resolves(r, s))
      {
        FailureNone(r, items[i]);
      }
      ItemFailureNone(r, t, items);
  }

  function OwnFailure(r: Resolver, s: Tree): Option<Error> {
    if s.Scalar? then ScalarFailure(r, s) else None
  }

  /** The error that is reported is that of the first scalar, in document order, that cannot be resolved. */
  lemma {:induction false} FailureIsFirst(r: Resolver, t: Tree)
    ensures IsFirst(Failure(r, t), Scalars(t), s => OwnFailure(r, s))
    decreases t
  {
    hide ScalarFailure, IsFirst;
    match t
    case Scalar(_, _, _, _, _) => FirstOfOne(r, t);
    case Map(keys, _, _) => FirstOfKeys(r, t, keys);
    case Seq(items, _) => FirstOfItems(r, t, items);
  }

  lemma FirstOfOne(r: Resolver, s: Tree)
    ensures IsFirst(None, [], s => OwnFailure(r, s))
    ensures s.Scalar? ==> IsFirst(ScalarFailure(r, s), [s], s => OwnFailure(r, s))
  {
    hide ScalarFailure;
    assert [s][0] == s;
  }

  lemma {:induction false} FirstOfKeys(r: Resolver, t: Tree, keys: seq<string>)
    requires t.Map?
    ensures IsFirst(KeyFailure(r, t, keys), KeyScalars(t, keys), s => OwnFailure(r, s))
    decreases t, |keys|
  {
    hide ScalarFailure, IsFirst, Scalars;
    FirstOfOne(r, t);
    if keys != [] {
      FirstOfKeys(r, t, keys[1..]);
      var rest, after := KeyFailure(r, t, keys[1..]), KeyScalars(t, keys[1..]);
      if keys[0] in t.children {
        var c := t.children[keys[0]];
        FailureIsFirst(r, c);
        FirstOfTwo(Failure(r, c), rest, Scalars(c), after, s => OwnFailure(r, s));
      } else {
        FirstOfTwo(None, rest, [], after, s => OwnFailure(r, s));
      }
    }
  }

  lemma {:induction false} FirstOfItems(r: Resolver, t: Tree, items: seq<Tree>)
    requires forall i | 0 <= i < |items| :: items[i] < t
    ensures IsFirst(ItemFailure(r, t, items), ItemScalars(t, items), s => OwnFailure(r, s))
    decreases t, |items|
  {
    hide ScalarFailure, IsFirst, Scalars;
    FirstOfOne(r, t);
    if items != [] {
      FailureIsFirst(r, items[0]);
      FirstOfItems(r, t, items[1..]);
      FirstOfTwo(Failure(r, items[0]), ItemFailure(r, t, items[1..]), Scalars(items[0]), ItemScalars(t, items[1..]),
                 s => OwnFailure(r, s));
    }
  }

  /// ## What a scalar becomes, told from its text

  /** Why a segment cannot be resolved. */
  function Cause(r: Resolver, seg: Segment, file: string): Option<Error> {
    if seg.Lit? then None
    else if seg.scheme == "config" then Some(IncludeEmbedded)
    else if r.dispatch(seg.scheme, seg.path, file).None? then Some(DispatchFailed(seg.scheme, seg.path))
    else None
  }

  lemma {:induction false} FirstCause(r: Resolver, segs: seq<Segment>, file: string)
    ensures SegmentFailure(r, segs, file).None? <==> forall i | 0 <= i < |segs| :: Cause(r, segs[i], file).None?
    ensures SegmentFailure(r, segs, file).Some? ==>
              exists i :: 0 <= i < |segs| && SegmentFailure(r, segs, file) == Cause(r, segs[i], file)
                          && forall j | 0 <= j < i :: Cause(r, segs[j], file).None?
  {
    if segs != [] {
      var rest := segs[1..];
      FirstCause(r, rest, file);
      assert forall i | 1 <= i < |segs| :: segs[i] == rest[i - 1];
      if Cause(r, segs[0], file).None? && SegmentFailure(r, rest, file).Some? {
        var i :| 0 <= i < |rest| && SegmentFailure(r, rest, file) == Cause(r, rest[i], file)
                 && forall j | 0 <= j < i :: Cause(r, rest[j], file).None?;
        assert segs[i + 1] == rest[i];
      }
    }
  }

  /** Which scalars cannot be resolved: those whose text does not scan, any with a token if the loader has no
      resolvers, and those with a token that has a cause of its own, of which the first is reported. */
  lemma FailureOfText(r: Resolver, s: Tree, segs: seq<Segment>)
    requires s.Scalar? && Normal(segs) && s.value == Print(segs)
    ensures var e := ScalarFailure(r, s);
            if !HasTokens(segs) then e.None?
            else if r.static_ then e == Some(StaticLoader)
            else if forall i | 0 <= i < |segs| :: Cause(r, segs[i], s.file).None? then e.None?
            else exists i :: 0 <= i < |segs| && e == Cause(r, segs[i], s.file) && e.Some?
                             && forall j | 0 <= j < i :: Cause(r, segs[j], s.file).None?
  {
    ScanPrint(segs);
    hide Scan, Print, Normal, Contains;
    FirstCause(r, segs, s.file);
    if HasTokens(segs) {
      TokenIsSeen(s.value);
    }
  }

  lemma FailureOfMalformed(r: Resolver, s: Tree)
    requires s.Scalar? && Scan(s.value).None?
    ensures ScalarFailure(r, s) == Some(BadToken)
  {
    if !Contains(s.value, "$(") {
      NoOpener(s.value);
    }
    hide Scan, Contains;
  }

  lemma {:induction false} JoinedTogether(r: Resolver, a: seq<Segment>, b: seq<Segment>, file: string)
    ensures Joined(r, a + b, file) == Joined(r, a, file) + Joined(r, b, file)
  {
    hide SegmentValue;
    if a == [] {
      assert a + b == b;
    } else {
      assert (a + b)[1..] == a[1..] + b;
      JoinedTogether(r, a[1..], b, file);
    }
  }

  lemma ValueOfText(r: Resolver, s: Tree, segs: seq<Segment>)
    requires s.Scalar? && Normal(segs) && s.value == Print(segs) && ScalarFailure(r, s).None?
    ensures ScalarResult(r, s).value == Joined(r, segs, s.file)
  {
    ScanPrint(segs);
    if HasTokens(segs) {
      TokenIsSeen(s.value);
    } else {
      LiteralAlone(r, segs, s.file);
      if !Contains(s.value, "$(") {
        NoOpener(s.value);
      }
    }
  }

  /** Without tokens there is one literal at most. */
  lemma LiteralAlone(r: Resolver, segs: seq<Segment>, file: string)
    requires Normal(segs) && !HasTokens(segs)
    ensures segs == [] || (segs[0].Lit? && segs == [Lit(segs[0].text)] && Joined(r, segs, file) == segs[0].text)
  {
    if |segs| > 1 {
      assert false;
    }
    if segs != [] {
      assert segs[1..] == [];
    }
  }

  /** The value of a text put together from two is the value of the first followed by that of the second. */
  lemma ValueTogether(r: Resolver, s: Tree, a: seq<Segment>, b: seq<Segment>)
    requires s.Scalar? && Normal(a + b) && s.value == Print(a) + Print(b) && ScalarFailure(r, s).None?
    ensures var first, second := s.(value := Print(a)), s.(value := Print(b));
            && ScalarFailure(r, first).None? && ScalarFailure(r, second).None?
            && ScalarResult(r, s).value == ScalarResult(r, first).value + ScalarResult(r, second).value
  {
    var first, second := s.(value := Print(a)), s.(value := Print(b));
    PrintTogether(a, b);
    NormalParts(a, b);
    FailureOfText(r, s, a + b);
    FailureOfText(r, first, a);
    FailureOfText(r, second, b);
    assert forall i | 0 <= i < |a| :: (a + b)[i] == a[i];
    assert forall i | 0 <= i < |b| :: (a + b)[|a| + i] == b[i];
    hide ScalarFailure, ScalarResult, Normal, Print, Cause;
    ValueOfText(r, s, a + b);
    ValueOfText(r, first, a);
    ValueOfText(r, second, b);
    JoinedTogether(r, a, b, s.file);
  }

  /** A literal alone becomes its text, and nothing else changes. */
  lemma LoneLiteral(r: Resolver, s: Tree, text: string)
    requires s.Scalar? && s.value == Print([Lit(text)])
    ensures ScalarFailure(r, s).None? && ScalarResult(r, s) == s.(value := text)
  {
    if text != "" {
      var segs := [Lit(text)];
      assert segs[1..] == [] && Normal(segs);
      FailureOfText(r, s, segs);
      ValueOfText(r, s, segs);
      FlagsOfText(r, s, segs);
      assert text + "" == text;
    } else {
      assert s.value == "";
    }
  }

  /** A token alone becomes what the resolver returns, untagged. */
  lemma LoneToken(r: Resolver, s: Tree, tok: Segment)
    requires s.Scalar? && NormalToken(tok) && s.value == TokenText(tok)
    ensures ScalarFailure(r, s) == if r.static_ then Some(StaticLoader) else Cause(r, tok, s.file)
    ensures ScalarFailure(r, s).None? ==>
              && r.dispatch(tok.scheme, tok.path, s.file).Some?
              && ScalarResult(r, s) == Scalar(r.dispatch(tok.scheme, tok.path, s.file).value, "",
                                              s.secret || tok.scheme == "secret", true, s.file)
  {
    var segs := [tok];
    assert segs[1..] == [] && segs[0].Token?;
    assert Print(segs[1..]) == "" && Print(segs) == TokenText(tok) + Print(segs[1..]);
    assert TokenText(tok) + "" == TokenText(tok);
    FailureOfText(r, s, segs);
    if ScalarFailure(r, s).None? {
      ValueOfText(r, s, segs);
      FlagsOfText(r, s, segs);
      var value := r.dispatch(tok.scheme, tok.path, s.file).value;
      assert value + "" == value;
    }
  }

  /** The tag is empty exactly for one token alone, and that of a string for any other text with a token; a secret
      token makes the value secret; and any token makes it substituted. */
  lemma FlagsOfText(r: Resolver, s: Tree, segs: seq<Segment>)
    requires s.Scalar? && Normal(segs) && s.value == Print(segs) && ScalarFailure(r, s).None?
    ensures var t := ScalarResult(r, s);
            && t.file == s.file
            && t.tag == (if !HasTokens(segs) then s.tag else if |segs| == 1 then "" else "!!str")
            && (t.secret <==> s.secret || exists i :: 0 <= i < |segs| && segs[i].Token? && segs[i].scheme == "secret")
            && (t.substituted <==> s.substituted || HasTokens(segs))
  {
    ScanPrint(segs);
    hide Scan, Print, Normal, Contains;
    if HasTokens(segs) {
      TokenIsSeen(s.value);
    }
  }

  /// ## Resolution commutes with merging

  lemma {:induction false} ResolvedMerge(r: Resolver, a: Tree, b: Tree)
    ensures Resolved(r, MergeTwo(a, b)) == MergeTwo(Resolved(r, a), Resolved(r, b))
    decreases b
  {
    if a.Map? && b.Map? {
      var l, m := Resolved(r, MergeTwo(a, b)), MergeTwo(Resolved(r, a), Resolved(r, b));
      assert Resolved(r, a).children.Keys == a.children.Keys;
      forall k | k in l.children
        ensures l.children[k] == m.children[k]
      {
        if k in a.children && k in b.children {
          ResolvedMerge(r, a.children[k], b.children[k]);
        }
      }
      assert l.children == m.children;
    }
  }

  function ResolvedAll(r: Resolver, layers: seq<Tree>): seq<Tree> {
    seq(|layers|, i requires 0 <= i < |layers| => Resolved(r, layers[i]))
  }

  /** Merge then resolve is resolve then merge: values, tags, secret and substituted flags alike. */
  lemma {:induction false} ResolvedFold(r: Resolver, layers: seq<Tree>)
    requires layers != []
    ensures Resolved(r, Fold(layers)) == Fold(ResolvedAll(r, layers))
  {
    if |layers| > 1 {
      var init, last := layers[..|layers| - 1], layers[|layers| - 1];
      ResolvedFold(r, init);
      ResolvedMerge(r, Fold(init), last);
      assert ResolvedAll(r, layers)[..|layers| - 1] == ResolvedAll(r, init);
    }
  }

  lemma {:induction false} FoldScalars(layers: seq<Tree>, p: Tree -> bool)
    requires layers != [] && forall i | 0 <= i < |layers| :: AllScalars(layers[i], p)
    ensures AllScalars(Fold(layers), p)
  {
    if |layers| > 1 {
      FoldScalars(layers[..|layers| - 1], p);
      MergeScalars(Fold(layers[..|layers| - 1]), layers[|layers| - 1], p);
    }
  }

  /** If every layer resolves on its own, so does the merged tree. */
  lemma LateResolutionSucceeds(r: Resolver, layers: seq<Tree>)
    requires layers != [] && AllWF(layers)
    requires forall i | 0 <= i < |layers| :: Failure(r, layers[i]).None?
    ensures Failure(r, Fold(layers)).None?
  {
    forall i | 0 <= i < |layers|
      ensures AllScalars(layers[i], s => Resolves(r, s))
    {
      FailureNone(r, layers[i]);
    }
    FoldScalars(layers, s => Resolves(r, s));
    FoldWF(layers);
    FailureNone(r, Fold(layers));
  }

  /** The converse fails: a token that cannot be dispatched fails where it stands, and does no harm once it is
      overridden. */
  lemma OverriddenTokenIsNotDispatched(r: Resolver, file: string) returns (low: Tree, high: Tree)
    requires !r.static_ && r.dispatch("a", "", file).None?
    ensures WF(low) && WF(high) && low.Scalar? && low.value == "$(a:)"
    ensures Failure(r, low) == Some(DispatchFailed("a", "")) && Failure(r, high).None? && Failure(r, MergeTwo(low, high)).None?
  {
    low, high := Scalar("$(a:)", "", false, false, file), Scalar("", "", false, false, file);
    EscapedToken();
    hide Scan, Contains;
    var tok := Token("a", "");
    assert [tok][0].Token? && HasTokens([tok]);
    assert SegmentFailure(r, [tok], file) == Some(DispatchFailed("a", ""));
    EmptyText();
    assert MergeTwo(low, high) == high;
  }

  lemma EmptyText()
    ensures !Contains("", "$(")
  {}

  /// ## What resolution keeps

  /** Same kinds, same keys in the same order, same lengths. */
  ghost predicate SameSkeleton(a: Tree, b: Tree) {
    match a
    case Scalar(_, _, _, _, _) => b.Scalar?
    case Map(keys, children, _) =>
      && b.Map? && b.keys == keys && b.children.Keys == children.Keys
      && forall k | k in children :: SameSkeleton(children[k], b.children[k])
    case Seq(items, _) =>
      && b.Seq? && |b.items| == |items|
      && forall i | 0 <= i < |items| :: SameSkeleton(items[i], b.items[i])
  }

  lemma {:induction false} ResolvedSkeleton(r: Resolver, t: Tree)
    ensures SameSkeleton(t, Resolved(r, t))
  {
    match t
    case Scalar(_, _, _, _, _) =>
    case Map(_, children, _) =>
      forall k | k in children ensures SameSkeleton(children[k], Resolved(r, children[k])) {
        ResolvedSkeleton(r, children[k]);
      }
    case Seq(items, _) =>
      forall i | 0 <= i < |items| ensures SameSkeleton(items[i], Resolved(r, items[i])) {
        ResolvedSkeleton(r, items[i]);
      }
  }

  lemma {:induction false} SkeletonWF(a: Tree, b: Tree)
    requires WF(a) && SameSkeleton(a, b)
    ensures WF(b)
  {
    match a
    case Scalar(_, _, _, _, _) =>
    case Map(_, children, _) =>
      forall k | k in children ensures WF(b.children[k]) {
        SkeletonWF(children[k], b.children[k]);
      }
    case Seq(items, _) =>
      forall i | 0 <= i < |items| ensures WF(b.items[i]) {
        SkeletonWF(items[i], b.items[i]);
      }
  }

  /** What is at a path afterwards is what was there, resolved. */
  lemma {:induction false} ResolvedAt(r: Resolver, t: Tree, path: seq<string>)
    ensures At(Resolved(r, t), path) == match At(t, path) case None => None case Some(x) => Some(Resolved(r, x))
    decreases |path|
  {
    if path != [] && t.Map? && path[0] in t.children {
      ResolvedAt(r, t.children[path[0]], path[1..]);
    }
  }

  /** A second pass over a resolved scalar would change it: an unescaped opener reads as a token.
      So the tree must hold each scalar once. */
  lemma RescanningDiffers(r: Resolver, file: string) returns (s: Tree)
    requires !r.static_ && r.dispatch("a", "", file) == Some("x")
    ensures s.Scalar? && s.file == file && Resolves(r, s) && Resolves(r, ScalarResult(r, s))
    ensures ScalarResult(r, ScalarResult(r, s)).value != ScalarResult(r, s).value
  {
    s := Scalar("$$(a:)", "", false, false, file);
    EscapedToken();
    var tok := Token("a", "");
    hide Scan, Contains;
    var once := ScalarResult(r, s);
    assert once.value == "$(a:)";
    assert [tok][1..] == [];
    assert SegmentFailure(r, [tok], file).None?;
    assert Joined(r, [tok], file) == "x" + "";
  }

  lemma EscapedToken()
    ensures Contains("$$(a:)", "$(") && Scan("$$(a:)") == Some([Lit("$(a:)")])
    ensures Contains("$(a:)", "$(") && Scan("$(a:)") == Some([Token("a", "")])
  {
    EscapedTokenContains();
    hide Contains;
    ScanOfToken();
    ScanOfEscape();
    hide Scan;
  }

  lemma ScanOfToken()
    ensures Scan("$(a:)") == Some([Token("a", "")])
  {
    OneToken(Token("a", ""));
    hide Scan;
    assert TokenText(Token("a", "")) == "$(a:)";
  }

  lemma ScanOfEscape()
    ensures Scan("$$(a:)") == Some([Lit("$(a:)")])
  {
    EscapedTokenContains();
    EscapedOpener("a:)");
    hide Scan, Contains;
    assert "$(" + "a:)" == "$(a:)";
    assert "$$(" + "a:)" == "$$(a:)";
  }

  lemma EscapedTokenContains()
    ensures Contains("$$(a:)", "$(") && Contains("$(a:)", "$(") && !Contains("a:)", "$(")
  {
    assert "$(" <= "$(a:)" && "$$(a:)"[1..] == "$(a:)";
    assert "a:)"[1..] == ":)" && ":)"[1..] == ")" && ")"[1..] == "";
    assert !Contains(")", "$(");
    assert !Contains(":)", "$(") by { assert ":)"[0] == ':'; }
  }

  lemma EscapedOpener(t: string)
    requires t != "" && !Contains(t, "$(")
    ensures Scan("$$(" + t) == Some([Lit("$(" + t)])
  {
    NoOpener(t);
    assert PushLit(t, []) == [Lit(t)] && PushLit("$(", [Lit(t)]) == [Lit("$(" + t)];
    ScanStep("$$(", "$(", t);
  }
}
