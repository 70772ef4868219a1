/** Include expansion of flexconf/include.go, on value trees: bounded, checked for cycles, and
    equal to naive inlining. Paths are already normalized names. */
module Include {
  import opened Text
  import opened Trees
  import opened Yaml
  import opened Scanner
  import opened Merge
  import opened Resolve

  const MAX_INCLUDE_DEPTH := 16

  /** The file source: None stands for an unreadable or unparsable file. */
  datatype Store = Store(
    document: string -> Option<Doc>,
    target: (string, string) -> string,   // containing file, include path -> normalized target
    hasYamlExt: string -> bool,
    escapes: (string, string) -> bool)    // layer directory, target
  {
    function Read(name: string): Option<Tree> {
      if document(name).None? then None else TreeOf(document(name).value, name)
    }
  }

  datatype IncludeError = BadSyntax | Embedded | Extension | Escape | TooDeep | Cycle | Unreadable

  datatype Request = Plain | Bad(error: IncludeError) | Include(target: string)

  /** What a scalar asks of the expander before depth and cycles are looked at. */
  function RequestOf(st: Store, s: Tree, dir: string): (r: Request)
    requires s.Scalar?
    ensures r.Bad? ==> !r.error.TooDeep? && !r.error.Cycle? && !r.error.Unreadable?
  {
    if !Contains(s.value, "$(config:") then Plain
    else
      match Scan(s.value)
      case None => Bad(BadSyntax)
      case Some(segs) =>
        if !HasConfig(segs) then Plain
        else if |segs| != 1 then Bad(Embedded)
        else if !st.hasYamlExt(segs[0].path) then Bad(Extension)
        else
          var target := st.target(s.file, segs[0].path);
          if st.escapes(dir, target) then Bad(Escape) else Include(target)
  }

  /** Include levels still allowed below `chain`. */
  function Left(chain: seq<string>): nat {
    if |chain| <= MAX_INCLUDE_DEPTH then MAX_INCLUDE_DEPTH - |chain| else 0
  }

  /** The expanded tree, or None if expansion fails. `chain` is the path of files being included. */
  function Expanded(st: Store, n: Tree, dir: string, chain: seq<string>): Option<Tree>
    decreases Left(chain), n
  {
    hide RequestOf, Store.Read;
    match n
    case Scalar(_, _, _, _, _) =>
      (match RequestOf(st, n, dir)
       case Plain => Some(n)
       case Bad(_) => None
       case Include(target) =>
         if |chain| >= MAX_INCLUDE_DEPTH || target in chain || st.Read(target).None? then None
         else Expanded(st, st.Read(target).value, dir, chain + [target]))
    case Map(keys, children, file) =>
      if forall k | k in children :: Expanded(st, children[k], dir, chain).Some? then
        Some(Map(keys, map k | k in children :: Expanded(st, children[k], dir, chain).value, file))
      else None
    case Seq(items, file) =>
      if forall i | 0 <= i < |items| :: Expanded(st, items[i], dir, chain).Some? then
        Some(Seq(seq(|items|, i requires 0 <= i < |items| => Expanded(st, items[i], dir, chain).value), file))
      else None
  }

  /** The first error met, in document order. */
  function Failure(st: Store, n: Tree, dir: string, chain: seq<string>): Option<IncludeError>
    decreases Left(chain), n
  {
    hide RequestOf, Store.Read;
    match n
    case Scalar(_, _, _, _, _) =>
      (match RequestOf(st, n, dir)
       case Plain => None
       case Bad(e) => Some(e)
       case Include(target) =>
         if |chain| >= MAX_INCLUDE_DEPTH then Some(TooDeep)
         else if target in chain then Some(Cycle)
         else if st.Read(target).None? then Some(Unreadable)
         else Failure(st, st.Read(target).value, dir, chain + [target]))
    case Map(keys, children, _) => KeysFailure(st, n, keys, dir, chain)
    case Seq(items, _) => ItemsFailure(st, n, items, dir, chain)
  }

  function KeysFailure(st: Store, n: Tree, keys: seq<string>, dir: string, chain: seq<string>): Option<IncludeError>
    requires n.Map?
    decreases Left(chain), n, |keys|
  {
    if keys == [] then None
    else if keys[0] in n.children && Failure(st, n.children[keys[0]], dir, chain).Some? then
      Failure(st, n.children[keys[0]], dir, chain)
    else KeysFailure(st, n, keys[1..], dir, chain)
  }

  function ItemsFailure(st: Store, ghost n: Tree, items: seq<Tree>, dir: string, chain: seq<string>): Option<IncludeError>
    requires forall i | 0 <= i < |items| :: items[i] < n
    decreases Left(chain), n, |items|
  {
    if items == [] then None
    else if Failure(st, items[0], dir, chain).Some? then Failure(st, items[0], dir, chain)
    else ItemsFailure(st, n, items[1..], dir, chain)
  }

  lemma ReadWF(st: Store, name: string)
    requires st.Read(name).Some?
    ensures WF(st.Read(name).value)
  {
    TreeOfWF(st.document(name).value, name);
  }

  /** An expanded tree is as well formed as what it was expanded from. */
  lemma {:induction false} ExpandedWF(st: Store, n: Tree, dir: string, chain: seq<string>)
    requires WF(n) && Expanded(st, n, dir, chain).Some?
    ensures WF(Expanded(st, n, dir, chain).value)
    decreases Left(chain), n
  {
    hide RequestOf, Store.Read;
    match n
    case Scalar(_, _, _, _, _) =>
      if RequestOf(st, n, dir).Include? {
        var target := RequestOf(st, n, dir).target;
        ReadWF(st, target);
        ExpandedWF(st, st.Read(target).value, dir, chain + [target]);
      }
    case Map(keys, children, _) =>
      forall k | k in children ensures WF(Expanded(st, children[k], dir, chain).value) {
        ExpandedWF(st, children[k], dir, chain);
      }
      assert Expanded(st, n, dir, chain).value.children.Keys == children.Keys;
    case Seq(items, _) =>
      forall i | 0 <= i < |items| ensures WF(Expanded(st, items[i], dir, chain).value) {
        ExpandedWF(st, items[i], dir, chain);
      }
  }

  /** Expansion fails exactly when some error is met. */
  lemma {:induction false} FailureNone(st: Store, n: Tree, dir: string, chain: seq<string>)
    requires WF(n)
    ensures Failure(st, n, dir, chain).None? <==> Expanded(st, n, dir, chain).Some?
    decreases Left(chain), n
  {
    hide RequestOf, Store.Read;
    match n
    case Scalar(_, _, _, _, _) =>
      if RequestOf(st, n, dir).Include? {
        var target := RequestOf(st, n, dir).target;
        if |chain| < MAX_INCLUDE_DEPTH && target !in chain && st.Read(target).Some? {
          ReadWF(st, target);
          FailureNone(st, st.Read(target).value, dir, chain + [target]);
        }
      }
    case Map(keys, children, _) =>
      forall k | k in children
        ensures Failure(st, children[k], dir, chain).None? <==> Expanded(st, children[k], dir, chain).Some?
      {
        FailureNone(st, children[k], dir, chain);
      }
      KeysFailureNone(st, n, keys, dir, chain);
      assert forall k :: k in keys <==> k in SetOf(keys);
    case Seq(items, _) =>
      forall i | 0 <= i < |items|
        ensures Failure(st, items[i], dir, chain).None? <==> Expanded(st, items[i], dir, chain).Some?
      {
        FailureNone(st, items[i], dir, chain);
      }
      ItemsFailureNone(st, n, items, dir, chain);
  }

  lemma {:induction false} KeysFailureNone(st: Store, n: Tree, keys: seq<string>, dir: string, chain: seq<string>)
    requires n.Map? && SetOf(keys) <= n.children.Keys
    ensures KeysFailure(st, n, keys, dir, chain).None? <==>
      forall k | k in keys :: Failure(st, n.children[k], dir, chain).None?
  {
    if keys != [] {
      assert keys[0] in SetOf(keys);
      assert SetOf(keys[1..]) <= SetOf(keys);
      KeysFailureNone(st, n, keys[1..], dir, chain);
      assert forall k :: k in keys <==> k == keys[0] || k in keys[1..];
    }
  }

  lemma {:induction false} ItemsFailureNone(st: Store, n: Tree, items: seq<Tree>, dir: string, chain: seq<string>)
    requires forall i | 0 <= i < |items| :: items[i] < n
    ensures ItemsFailure(st, n, items, dir, chain).None? <==>
      forall i | 0 <= i < |items| :: Failure(st, items[i], dir, chain).None?
  {
    if items != [] {
      ItemsFailureNone(st, n, items[1..], dir, chain);
      assert forall i | 1 <= i < |items| :: items[i] == items[1..][i - 1];
    }
  }

  /** What one scalar of a tree fails with. */
  function OwnFailure(st: Store, dir: string, chain: seq<string>, s: Tree): Option<IncludeError> {
    if s.Scalar? then Failure(st, s, dir, chain) else None
  }

  /** The error that is reported is that of the first scalar, in document order, that cannot be expanded. */
  lemma {:induction false} FailureIsFirst(st: Store, n: Tree, dir: string, chain: seq<string>)
    ensures IsFirst(Failure(st, n, dir, chain), Scalars(n), s => OwnFailure(st, dir, chain, s))
    decreases n
  {
    hide IsFirst, RequestOf, Store.Read;
    match n
    case Scalar(_, _, _, _, _) => FirstOfOne(st, n, dir, chain);
    case Map(keys, _, _) => FirstOfKeys(st, n, keys, dir, chain);
    case Seq(items, _) => FirstOfItems(st, n, items, dir, chain);
  }

  lemma FirstOfOne(st: Store, s: Tree, dir: string, chain: seq<string>)
    ensures IsFirst(None, [], s => OwnFailure(st, dir, chain, s))
    ensures s.Scalar? ==> IsFirst(Failure(st, s, dir, chain), [s], s => OwnFailure(st, dir, chain, s))
  {
    hide Failure;
    assert [s][0] == s;
  }

  lemma {:induction false} FirstOfKeys(st: Store, n: Tree, keys: seq<string>, dir: string, chain: seq<string>)
    requires n.Map?
    ensures IsFirst(KeysFailure(st, n, keys, dir, chain), KeyScalars(n, keys), s => OwnFailure(st, dir, chain, s))
    decreases n, |keys|
  {
    hide IsFirst, Failure, Scalars;
    FirstOfOne(st, n, dir, chain);
    if keys != [] {
      FirstOfKeys(st, n, keys[1..], dir, chain);
      var rest, after := KeysFailure(st, n, keys[1..], dir, chain), KeyScalars(n, keys[1..]);
      if keys[0] in n.children {
        var c := n.children[keys[0]];
        FailureIsFirst(st, c, dir, chain);
        FirstOfTwo(Failure(st, c, dir, chain), rest, Scalars(c), after, s => OwnFailure(st, dir, chain, s));
      } else {
        FirstOfTwo(None, rest, [], after, s => OwnFailure(st, dir, chain, s));
      }
    }
  }

  lemma {:induction false} FirstOfItems(st: Store, n: Tree, items: seq<Tree>, dir: string, chain: seq<string>)
    requires forall i | 0 <= i < |items| :: items[i] < n
    ensures IsFirst(ItemsFailure(st, n, items, dir, chain), ItemScalars(n, items), s => OwnFailure(st, dir, chain, s))
    decreases n, |items|
  {
    hide IsFirst, Failure, Scalars;
    FirstOfOne(st, n, dir, chain);
    if items != [] {
      FailureIsFirst(st, items[0], dir, chain);
      FirstOfItems(st, n, items[1..], dir, chain);
      FirstOfTwo(Failure(st, items[0], dir, chain), ItemsFailure(st, n, items[1..], dir, chain), Scalars(items[0]),
                 ItemScalars(n, items[1..]), s => OwnFailure(st, dir, chain, s));
    }
  }

  /// ## What may be read

  /** What one scalar asks, told from its text: without an include it stays as it is, and an include with anything beside
      it is an error. */
  lemma ScalarExpansion(st: Store, s: Tree, dir: string, chain: seq<string>, segs: seq<Segment>)
    requires s.Scalar? && Normal(segs) && s.value == Print(segs)
    ensures var e, x := Failure(st, s, dir, chain), Expanded(st, s, dir, chain);
            && (!HasConfig(segs) ==> e.None? && x == Some(s))
            && (HasConfig(segs) && |segs| > 1 ==> e == Some(Embedded) && x.None?)
            && (HasConfig(segs) && |segs| == 1 ==> segs[0].Token? && segs == [Token("config", segs[0].path)])
  {
    ScanPrint(segs);
    hide Store.Read, Scan, Print, Normal;
    if HasConfig(segs) {
      ConfigIsSeen(s.value);
    }
  }

  /** An include alone: the errors, each with its condition, and otherwise the file at the target, expanded under the
      longer chain. */
  lemma LoneInclude(st: Store, s: Tree, dir: string, chain: seq<string>, path: string)
    requires s.Scalar? && ')' !in path && s.value == TokenText(Token("config", path))
    ensures var e, x, target := Failure(st, s, dir, chain), Expanded(st, s, dir, chain), st.target(s.file, path);
            if !st.hasYamlExt(path) then e == Some(Extension) && x.None?
            else if st.escapes(dir, target) then e == Some(Escape) && x.None?
            else if |chain| >= 16 then e == Some(TooDeep) && x.None?
            else if target in chain then e == Some(Cycle) && x.None?
            else if st.Read(target).None? then e == Some(Unreadable) && x.None?
            else
              && e == Failure(st, st.Read(target).value, dir, chain + [target])
              && x == Expanded(st, st.Read(target).value, dir, chain + [target])
  {
    ConfigTokenAlone(Token("config", path));
    hide Store.Read, Scan, TokenText, Contains;
  }

  /** And a text that looks like an include and does not scan is refused. */
  lemma ScalarMalformed(st: Store, s: Tree, dir: string, chain: seq<string>)
    requires s.Scalar? && Scan(s.value).None?
    ensures var e, x := Failure(st, s, dir, chain), Expanded(st, s, dir, chain);
            if Contains(s.value, "$(config:") then e == Some(BadSyntax) && x.None? else e.None? && x == Some(s)
  {
    hide Scan;
  }

  /** The store with other documents. */
  function WithDocuments(st: Store, document: string -> Option<Doc>): Store {
    Store(document, st.target, st.hasYamlExt, st.escapes)
  }

  /** These documents differ from the store's at most outside the layer directory. */
  ghost predicate SameInside(st: Store, dir: string, document: string -> Option<Doc>) {
    forall name | !st.escapes(dir, name) :: document(name) == st.document(name)
  }

  /** Nothing outside the layer directory is read: with any other documents there, expansion is the same. */
  lemma {:induction false} OutsideIsNotRead(st: Store, document: string -> Option<Doc>, n: Tree, dir: string, chain: seq<string>)
    requires SameInside(st, dir, document)
    ensures Expanded(WithDocuments(st, document), n, dir, chain) == Expanded(st, n, dir, chain)
    ensures Failure(WithDocuments(st, document), n, dir, chain) == Failure(st, n, dir, chain)
    decreases Left(chain), n
  {
    var other := WithDocuments(st, document);
    match n
    case Scalar(_, _, _, _, _) =>
      RequestSame(st, document, n, dir);
      hide RequestOf, Store.Read;
      if RequestOf(st, n, dir).Include? {
        var target := RequestOf(st, n, dir).target;
        if |chain| < MAX_INCLUDE_DEPTH && st.Read(target).Some? {
          OutsideIsNotRead(st, document, st.Read(target).value, dir, chain + [target]);
        }
      }
    case Map(keys, children, _) =>
      hide RequestOf, Store.Read;
      forall k | k in children
        ensures Expanded(other, children[k], dir, chain) == Expanded(st, children[k], dir, chain)
        ensures Failure(other, children[k], dir, chain) == Failure(st, children[k], dir, chain)
      {
        OutsideIsNotRead(st, document, children[k], dir, chain);
      }
      KeysFailureSame(st, other, n, keys, dir, chain);
      if Expanded(st, n, dir, chain).Some? {
        assert Expanded(other, n, dir, chain).value.children == Expanded(st, n, dir, chain).value.children;
      }
    case Seq(items, _) =>
      hide RequestOf, Store.Read;
      forall i | 0 <= i < |items|
        ensures Expanded(other, items[i], dir, chain) == Expanded(st, items[i], dir, chain)
        ensures Failure(other, items[i], dir, chain) == Failure(st, items[i], dir, chain)
      {
        OutsideIsNotRead(st, document, items[i], dir, chain);
      }
      ItemsFailureSame(st, other, n, items, dir, chain);
      if Expanded(st, n, dir, chain).Some? {
        assert Expanded(other, n, dir, chain).value.items == Expanded(st, n, dir, chain).value.items;
      }
  }

  lemma RequestSame(st: Store, document: string -> Option<Doc>, s: Tree, dir: string)
    requires s.Scalar? && SameInside(st, dir, document)
    ensures RequestOf(WithDocuments(st, document), s, dir) == RequestOf(st, s, dir)
    ensures RequestOf(st, s, dir).Include? ==>
              WithDocuments(st, document).Read(RequestOf(st, s, dir).target) == st.Read(RequestOf(st, s, dir).target)
  {}

  lemma {:induction false} KeysFailureSame(st: Store, other: Store, n: Tree, keys: seq<string>, dir: string, chain: seq<string>)
    requires n.Map?
    requires forall k | k in n.children :: Failure(other, n.children[k], dir, chain) == Failure(st, n.children[k], dir, chain)
    ensures KeysFailure(other, n, keys, dir, chain) == KeysFailure(st, n, keys, dir, chain)
  {
    if keys != [] {
      KeysFailureSame(st, other, n, keys[1..], dir, chain);
    }
  }

  lemma {:induction false} ItemsFailureSame(st: Store, other: Store, n: Tree, items: seq<Tree>, dir: string, chain: seq<string>)
    requires forall i | 0 <= i < |items| :: items[i] < n
    requires forall i | 0 <= i < |items| :: Failure(other, items[i], dir, chain) == Failure(st, items[i], dir, chain)
    ensures ItemsFailure(other, n, items, dir, chain) == ItemsFailure(st, n, items, dir, chain)
  {
    if items != [] {
      ItemsFailureSame(st, other, n, items[1..], dir, chain);
    }
  }

  /// ## The reference: inlining with no cycle check and no depth cap

  /** Inlines at most `fuel` levels of includes; None means failure or that more levels are needed. */
  function Inlined(st: Store, n: Tree, dir: string, fuel: nat): Option<Tree>
    decreases fuel, n
  {
    match n
    case Scalar(_, _, _, _, _) =>
      (match RequestOf(st, n, dir)
       case Plain => Some(n)
       case Bad(_) => None
       case Include(target) =>
         if fuel == 0 || st.Read(target).None? then None
         else Inlined(st, st.Read(target).value, dir, fuel - 1))
    case Map(keys, children, file) =>
      if forall k | k in children :: Inlined(st, children[k], dir, fuel).Some? then
        Some(Map(keys, map k | k in children :: Inlined(st, children[k], dir, fuel).value, file))
      else None
    case Seq(items, file) =>
      if forall i | 0 <= i < |items| :: Inlined(st, items[i], dir, fuel).Some? then
        Some(Seq(seq(|items|, i requires 0 <= i < |items| => Inlined(st, items[i], dir, fuel).value), file))
      else None
  }

  /** Two answers agree on a map or a sequence when they agree on its parts. */
  lemma InlinedParts(st: Store, n: Tree, dir: string, f: nat, g: nat)
    requires n.Map? ==> forall k | k in n.children :: Inlined(st, n.children[k], dir, g) == Inlined(st, n.children[k], dir, f)
    requires n.Seq? ==> forall i | 0 <= i < |n.items| :: Inlined(st, n.items[i], dir, g) == Inlined(st, n.items[i], dir, f)
    requires !n.Scalar? && Inlined(st, n, dir, f).Some?
    ensures Inlined(st, n, dir, g) == Inlined(st, n, dir, f)
  {
    hide RequestOf, Store.Read;
    if n.Map? {
      assert Inlined(st, n, dir, g).value.children == Inlined(st, n, dir, f).value.children;
    } else {
      assert Inlined(st, n, dir, g).value.items == Inlined(st, n, dir, f).value.items;
    }
  }

  /** More fuel never changes an answer. */
  lemma {:induction false} InlinedMonotone(st: Store, n: Tree, dir: string, f: nat, g: nat)
    requires f <= g && Inlined(st, n, dir, f).Some?
    ensures Inlined(st, n, dir, g) == Inlined(st, n, dir, f)
    decreases f, n
  {
    hide RequestOf, Store.Read;
    match n
    case Scalar(_, _, _, _, _) =>
      if RequestOf(st, n, dir).Include? {
        InlinedMonotone(st, st.Read(RequestOf(st, n, dir).target).value, dir, f - 1, g - 1);
      }
    case Map(_, children, _) =>
      forall k | k in children ensures Inlined(st, children[k], dir, g) == Inlined(st, children[k], dir, f) {
        InlinedMonotone(st, children[k], dir, f, g);
      }
      InlinedParts(st, n, dir, f, g);
    case Seq(items, _) =>
      forall i | 0 <= i < |items| ensures Inlined(st, items[i], dir, g) == Inlined(st, items[i], dir, f) {
        InlinedMonotone(st, items[i], dir, f, g);
      }
      InlinedParts(st, n, dir, f, g);
  }

  /** What expansion returns is what naive inlining returns. */
  lemma {:induction false} ExpandedIsInlined(st: Store, n: Tree, dir: string, chain: seq<string>)
    requires Expanded(st, n, dir, chain).Some?
    ensures Inlined(st, n, dir, Left(chain)) == Expanded(st, n, dir, chain)
    decreases Left(chain), n
  {
    hide RequestOf, Store.Read;
    match n
    case Scalar(_, _, _, _, _) =>
      if RequestOf(st, n, dir).Include? {
        var target := RequestOf(st, n, dir).target;
        ExpandedIsInlined(st, st.Read(target).value, dir, chain + [target]);
      }
    case Map(_, children, _) =>
      forall k | k in children
        ensures Inlined(st, children[k], dir, Left(chain)) == Expanded(st, children[k], dir, chain)
      {
        ExpandedIsInlined(st, children[k], dir, chain);
      }
      assert Inlined(st, n, dir, Left(chain)).value.children == Expanded(st, n, dir, chain).value.children;
    case Seq(items, _) =>
      forall i | 0 <= i < |items|
        ensures Inlined(st, items[i], dir, Left(chain)) == Expanded(st, items[i], dir, chain)
      {
        ExpandedIsInlined(st, items[i], dir, chain);
      }
      assert Inlined(st, n, dir, Left(chain)).value.items == Expanded(st, n, dir, chain).value.items;
  }

  /** `n` is reached by inlining each file of `chain`: inlining that file takes inlining `n` as well. */
  ghost predicate Ancestors(st: Store, n: Tree, dir: string, chain: seq<string>) {
    forall j | 0 <= j < |chain| :: Reaches(st, n, dir, chain[j], |chain| - 1 - j)
  }

  ghost predicate Reaches(st: Store, n: Tree, dir: string, name: string, depth: nat) {
    st.Read(name).Some? ==>
      forall f: nat | Inlined(st, st.Read(name).value, dir, f).Some? ::
        depth <= f && Inlined(st, n, dir, f - depth).Some?
  }

  lemma AncestorsOfPart(st: Store, n: Tree, part: Tree, dir: string, chain: seq<string>)
    requires Ancestors(st, n, dir, chain)
    requires forall f: nat | Inlined(st, n, dir, f).Some? :: Inlined(st, part, dir, f).Some?
    ensures Ancestors(st, part, dir, chain)
  {}

  lemma AncestorsOfInclude(st: Store, n: Tree, dir: string, chain: seq<string>, target: string)
    requires Ancestors(st, n, dir, chain)
    requires n.Scalar? && RequestOf(st, n, dir) == Include(target) && st.Read(target).Some?
    ensures Ancestors(st, st.Read(target).value, dir, chain + [target])
  {
    hide RequestOf, Store.Read, Inlined, Reaches;
    var inner := st.Read(target).value;
    ReachesItself(st, inner, dir, target);
    forall j | 0 <= j < |chain| ensures Reaches(st, inner, dir, chain[j], |chain| - j) {
      IncludeStep(st, n, dir, chain[j], |chain| - 1 - j, target);
    }
    AncestorsSnoc(st, inner, dir, chain, target);
  }

  lemma AncestorsSnoc(st: Store, n: Tree, dir: string, chain: seq<string>, name: string)
    requires Reaches(st, n, dir, name, 0) && forall j | 0 <= j < |chain| :: Reaches(st, n, dir, chain[j], |chain| - j)
    ensures Ancestors(st, n, dir, chain + [name])
  {
    hide Reaches;
    var longer := chain + [name];
    forall j | 0 <= j < |longer| ensures Reaches(st, n, dir, longer[j], |longer| - 1 - j) {
      assert j < |chain| ==> longer[j] == chain[j];
    }
  }

  lemma ReachesItself(st: Store, n: Tree, dir: string, name: string)
    requires st.Read(name) == Some(n)
    ensures Reaches(st, n, dir, name, 0)
  {}

  lemma IncludeStep(st: Store, n: Tree, dir: string, name: string, depth: nat, target: string)
    requires n.Scalar? && RequestOf(st, n, dir) == Include(target) && st.Read(target).Some?
    requires Reaches(st, n, dir, name, depth)
    ensures Reaches(st, st.Read(target).value, dir, name, depth + 1)
  {
    if st.Read(name).Some? {
      forall f: nat | Inlined(st, st.Read(name).value, dir, f).Some?
        ensures depth + 1 <= f && Inlined(st, st.Read(target).value, dir, f - (depth + 1)).Some?
      {
        assert Inlined(st, n, dir, f - depth).Some?;
      }
    }
  }

  /** An include of a file on the chain can never be inlined, however deep one goes. */
  lemma {:induction false} CycleDiverges(st: Store, n: Tree, dir: string, chain: seq<string>, target: string, f: nat)
    requires Ancestors(st, n, dir, chain)
    requires n.Scalar? && RequestOf(st, n, dir) == Include(target) && target in chain
    ensures Inlined(st, n, dir, f).None?
    decreases f
  {
    hide RequestOf, Store.Read, Expanded;
    if f > 0 && st.Read(target).Some? {
      var j :| 0 <= j < |chain| && chain[j] == target;
      assert Reaches(st, n, dir, chain[j], |chain| - 1 - j);
      if |chain| - 1 - j <= f - 1 {
        CycleDiverges(st, n, dir, chain, target, f - 1 - (|chain| - 1 - j));
      }
    }
  }

  /** Whatever naive inlining can do within the depth cap, expansion does. */
  lemma {:induction false} InlinedIsExpanded(st: Store, n: Tree, dir: string, chain: seq<string>, f: nat)
    requires Ancestors(st, n, dir, chain) && f <= Left(chain) && Inlined(st, n, dir, f).Some?
    ensures Expanded(st, n, dir, chain).Some?
    decreases f, n
  {
    hide RequestOf, Store.Read;
    match n
    case Scalar(_, _, _, _, _) =>
      if RequestOf(st, n, dir).Include? {
        var target := RequestOf(st, n, dir).target;
        if target in chain {
          CycleDiverges(st, n, dir, chain, target, f);
          assert false;
        }
        AncestorsOfInclude(st, n, dir, chain, target);
        InlinedIsExpanded(st, st.Read(target).value, dir, chain + [target], f - 1);
      }
    case Map(_, children, _) =>
      forall k | k in children ensures Expanded(st, children[k], dir, chain).Some? {
        AncestorsOfPart(st, n, children[k], dir, chain);
        InlinedIsExpanded(st, children[k], dir, chain, f);
      }
    case Seq(items, _) =>
      forall i | 0 <= i < |items| ensures Expanded(st, items[i], dir, chain).Some? {
        AncestorsOfPart(st, n, items[i], dir, chain);
        InlinedIsExpanded(st, items[i], dir, chain, f);
      }
  }

  /** A layer file expands exactly when naive inlining ends within fifteen levels, to the same tree. */
  lemma ExpansionIsInlining(st: Store, root: string, tree: Tree, dir: string)
    requires st.Read(root) == Some(tree)
    ensures Expanded(st, tree, dir, [root]) == Inlined(st, tree, dir, MAX_INCLUDE_DEPTH - 1)
  {
    if Expanded(st, tree, dir, [root]).Some? {
      ExpandedIsInlined(st, tree, dir, [root]);
    } else if Inlined(st, tree, dir, MAX_INCLUDE_DEPTH - 1).Some? {
      assert Ancestors(st, tree, dir, [root]) by {
        assert Reaches(st, tree, dir, root, 0);
      }
      InlinedIsExpanded(st, tree, dir, [root], MAX_INCLUDE_DEPTH - 1);
    }
  }

  lemma {:induction false} KeysFailureHas(st: Store, n: Tree, keys: seq<string>, dir: string, chain: seq<string>)
    requires n.Map? && KeysFailure(st, n, keys, dir, chain).Some?
    ensures exists k :: k in n.children && Failure(st, n.children[k], dir, chain) == KeysFailure(st, n, keys, dir, chain)
  {
    if !(keys[0] in n.children && Failure(st, n.children[keys[0]], dir, chain).Some?) {
      KeysFailureHas(st, n, keys[1..], dir, chain);
    }
  }

  lemma {:induction false} ItemsFailureHas(st: Store, n: Tree, items: seq<Tree>, dir: string, chain: seq<string>)
    requires forall i | 0 <= i < |items| :: items[i] < n
    requires ItemsFailure(st, n, items, dir, chain).Some?
    ensures exists i :: 0 <= i < |items| && Failure(st, items[i], dir, chain) == ItemsFailure(st, n, items, dir, chain)
  {
    if Failure(st, items[0], dir, chain).None? {
      ItemsFailureHas(st, n, items[1..], dir, chain);
      var i :| 0 <= i < |items[1..]| && Failure(st, items[1..][i], dir, chain) == ItemsFailure(st, n, items, dir, chain);
      assert items[1..][i] == items[i + 1];
    }
  }

  /** A reported cycle is real: inlining would not have ended at any depth. */
  lemma {:induction false} ReportedCycleDiverges(st: Store, n: Tree, dir: string, chain: seq<string>, f: nat)
    requires Ancestors(st, n, dir, chain) && Failure(st, n, dir, chain) == Some(Cycle)
    ensures Inlined(st, n, dir, f).None?
    decreases Left(chain), n
  {
    hide Ancestors, RequestOf, Expanded;
    if n.Scalar? {
      var target := RequestOf(st, n, dir).target;
      if target in chain {
        CycleDiverges(st, n, dir, chain, target, f);
      } else if f > 0 {
        AncestorsOfInclude(st, n, dir, chain, target);
        ReportedCycleDiverges(st, st.Read(target).value, dir, chain + [target], f - 1);
      }
    } else {
      var part := FailingPart(st, n, dir, chain);
      AncestorsOfPart(st, n, part, dir, chain);
      ReportedCycleDiverges(st, part, dir, chain, f);
    }
  }

  /** The part of a map or sequence that fails first, without which nothing is inlined. */
  lemma FailingPart(st: Store, n: Tree, dir: string, chain: seq<string>) returns (part: Tree)
    requires !n.Scalar? && Failure(st, n, dir, chain).Some?
    ensures part < n && Failure(st, part, dir, chain) == Failure(st, n, dir, chain)
    ensures forall f: nat | Inlined(st, n, dir, f).Some? :: Inlined(st, part, dir, f).Some?
  {
    if n.Map? {
      KeysFailureHas(st, n, n.keys, dir, chain);
      var k :| k in n.children && Failure(st, n.children[k], dir, chain) == Failure(st, n, dir, chain);
      part := n.children[k];
    } else {
      ItemsFailureHas(st, n, n.items, dir, chain);
      var i :| 0 <= i < |n.items| && Failure(st, n.items[i], dir, chain) == Failure(st, n, dir, chain);
      part := n.items[i];
    }
  }

  /** Without the reread hypothesis only one direction is left: a root read from another source may
      be named like an include that ends, and is still reported as a cycle. */
  lemma RootNameFromAnotherSource() returns (st: Store, tree: Tree)
    ensures Expanded(st, tree, "d", ["r"]).None? && Inlined(st, tree, "d", 1).Some?
  {
    var tok := Token("config", "r");
    st := Store(name => Some(ScalarDoc("", "", false)), (file, path) => path, path => true, (dir, t) => false);
    assert st.Read("r") == Some(Scalar("", "", false, false, "r"));
    assert RequestOf(st, st.Read("r").value, "d") == Plain by { assert !Contains("", "$(config:"); }
    tree := Scalar(TokenText(tok), "", false, false, "f");
    ConfigTokenAlone(tok);
    assert RequestOf(st, tree, "d") == Include("r");
  }

  lemma ConfigTokenAlone(tok: Segment)
    requires tok.Token? && tok.scheme == "config" && ')' !in tok.path
    ensures var s := TokenText(tok); Scan(s) == Some([tok]) && HasConfig([tok]) && Contains(s, "$(config:")
  {
    OneToken(tok);
    assert [tok][0].scheme == "config";
    ConfigIsSeen(TokenText(tok));
  }

  /// ## No config token is left

  ghost predicate NoConfig(s: Tree) {
    s.Scalar? && Scan(s.value).Some? ==> !HasConfig(Scan(s.value).value)
  }

  lemma {:induction false} ExpandedNoConfig(st: Store, n: Tree, dir: string, chain: seq<string>)
    requires Expanded(st, n, dir, chain).Some?
    ensures AllScalars(Expanded(st, n, dir, chain).value, NoConfig)
    decreases Left(chain), n
  {
    hide Store.Read;
    match n
    case Scalar(_, _, _, _, _) =>
      if RequestOf(st, n, dir).Include? {
        var target := RequestOf(st, n, dir).target;
        ExpandedNoConfig(st, st.Read(target).value, dir, chain + [target]);
      } else if Scan(n.value).Some? && HasConfig(Scan(n.value).value) {
        ConfigIsSeen(n.value);
        assert false;
      }
    case Map(_, children, _) =>
      forall k | k in children ensures AllScalars(Expanded(st, children[k], dir, chain).value, NoConfig) {
        ExpandedNoConfig(st, children[k], dir, chain);
      }
    case Seq(items, _) =>
      forall i | 0 <= i < |items| ensures AllScalars(Expanded(st, items[i], dir, chain).value, NoConfig) {
        ExpandedNoConfig(st, items[i], dir, chain);
      }
  }

  lemma {:induction false} NoConfigSegments(r: Resolver, segs: seq<Segment>, file: string)
    requires !HasConfig(segs)
    ensures SegmentFailure(r, segs, file) != Some(IncludeEmbedded)
  {
    if segs != [] {
      assert forall i | 0 <= i < |segs[1..]| :: segs[1..][i] == segs[i + 1];
      NoConfigSegments(r, segs[1..], file);
    }
  }

  lemma {:induction false} NoConfigFailure(r: Resolver, t: Tree)
    requires AllScalars(t, NoConfig)
    ensures Resolve.Failure(r, t) != Some(IncludeEmbedded)
  {
    match t
    case Scalar(_, _, _, _, _) =>
      if Scan(t.value).Some? {
        NoConfigSegments(r, Scan(t.value).value, t.file);
      }
    case Map(keys, children, _) =>
      forall k | k in children ensures Resolve.Failure(r, children[k]) != Some(IncludeEmbedded) {
        NoConfigFailure(r, children[k]);
      }
      NoConfigKeys(r, t, keys);
    case Seq(items, _) =>
      forall i | 0 <= i < |items| ensures Resolve.Failure(r, items[i]) != Some(IncludeEmbedded) {
        NoConfigFailure(r, items[i]);
      }
      NoConfigItems(r, t, items);
  }

  lemma {:induction false} NoConfigKeys(r: Resolver, t: Tree, keys: seq<string>)
    requires t.Map? && forall k | k in t.children :: Resolve.Failure(r, t.children[k]) != Some(IncludeEmbedded)
    ensures KeyFailure(r, t, keys) != Some(IncludeEmbedded)
  {
    if keys != [] {
      NoConfigKeys(r, t, keys[1..]);
    }
  }

  lemma {:induction false} NoConfigItems(r: Resolver, t: Tree, items: seq<Tree>)
    requires forall i | 0 <= i < |items| :: items[i] < t && Resolve.Failure(r, items[i]) != Some(IncludeEmbedded)
    ensures ItemFailure(r, t, items) != Some(IncludeEmbedded)
  {
    if items != [] {
      NoConfigItems(r, t, items[1..]);
    }
  }

  /** On expanded and merged layers the embedded-include branch of resolution is unreachable. */
  lemma ConfigBranchUnreachable(r: Resolver, st: Store, raw: seq<Tree>, dirs: seq<string>, chains: seq<seq<string>>)
    requires raw != [] && |raw| == |dirs| == |chains|
    requires forall i | 0 <= i < |raw| :: Expanded(st, raw[i], dirs[i], chains[i]).Some?
    ensures var layers := seq(|raw|, i requires 0 <= i < |raw| => Expanded(st, raw[i], dirs[i], chains[i]).value);
            Resolve.Failure(r, Fold(layers)) != Some(IncludeEmbedded)
  {
    var layers := seq(|raw|, i requires 0 <= i < |raw| => Expanded(st, raw[i], dirs[i], chains[i]).value);
    forall i | 0 <= i < |layers| ensures AllScalars(layers[i], NoConfig) {
      ExpandedNoConfig(st, raw[i], dirs[i], chains[i]);
    }
    FoldScalars(layers, NoConfig);
    NoConfigFailure(r, Fold(layers));
  }
}
