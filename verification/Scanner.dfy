/** The token scanner of flexconf/template.go: `$(scheme:path)` tokens and the `$$(` escape. */
module Scanner {
  import opened Text

  datatype Segment = Lit(text: string) | Token(scheme: string, path: string)

  predicate ValidScheme(s: string) {
    && s != ""
    && 'a' <= s[0] <= 'z'
    && forall i | 1 <= i < |s| :: 'a' <= s[i] <= 'z' || '0' <= s[i] <= '9'
  }

  /** Adds literal text in front, joining it to a literal that is already there. */
  function PushLit(text: string, segs: seq<Segment>): seq<Segment> {
    if text == "" then segs
    else if segs != [] && segs[0].Lit? then [Lit(text + segs[0].text)] + segs[1..]
    else [Lit(text)] + segs
  }

  /** `strings.HasPrefix(s, "$(")`, character by character. */
  predicate AtOpener(s: string) {
    |s| >= 2 && s[0] == '$' && s[1] == '('
  }

  /** `strings.HasPrefix(s, "$$(")`. */
  predicate AtEscape(s: string) {
    |s| >= 3 && s[0] == '$' && s[1] == '$' && s[2] == '('
  }

  /** The token opening at the start of `s` and the number of bytes it takes, or None if malformed. */
  function TokenAt(s: string): (r: Option<(Segment, nat)>)
    requires AtOpener(s)
    ensures r.Some? ==> r.value.0.Token? && 2 < r.value.1 <= |s|
  {
    match IndexByte(s, ')')
    case None => None
    case Some(end) =>
      var body := s[2..end];
      match IndexByte(body, ':')
      case None => None
      case Some(c) =>
        if ValidScheme(body[..c]) then Some((Token(body[..c], body[c + 1..]), end + 1)) else None
  }

  /** What the scanner meets at its current position, and the bytes it then skips. */
  datatype Step = Text(text: string, skip: nat) | Tok(token: Segment, skip: nat) | Malformed

  function Next(s: string): (r: Step)
    requires s != ""
    ensures !r.Malformed? ==> 0 < r.skip <= |s|
    ensures r.Text? ==> r.text != ""
    ensures r.Tok? ==> r.token.Token?
  {
    if AtEscape(s) then Text("$(", 3)
    else if AtOpener(s) then
      match TokenAt(s)
      case None => Malformed
      case Some((tok, n)) => Tok(tok, n)
    else Text([s[0]], 1)
  }

  /** What scanning a scalar means; None is a malformed token. */
  function Scan(s: string): Option<seq<Segment>>
    decreases |s|
  {
    if s == "" then Some([])
    else
      match Next(s)
      case Malformed => None
      case Text(text, n) => PushText(text, Scan(s[n..]))
      case Tok(tok, n) => PushTok(tok, Scan(s[n..]))
  }

  function PushText(text: string, rest: Option<seq<Segment>>): Option<seq<Segment>> {
    if rest.None? then None else Some(PushLit(text, rest.value))
  }

  function PushTok(tok: Segment, rest: Option<seq<Segment>>): Option<seq<Segment>> {
    if rest.None? then None else Some([tok] + rest.value)
  }

  lemma PushPush(a: string, b: string, segs: seq<Segment>)
    ensures PushLit(a, PushLit(b, segs)) == PushLit(a + b, segs)
  {
    if a == "" || b == "" {
      assert a + b == if a == "" then b else a;
    } else if segs != [] && segs[0].Lit? {
      assert a + (b + segs[0].text) == (a + b) + segs[0].text;
    } else {
      assert PushLit(b, segs)[1..] == segs;
    }
  }

  /** What has been collected so far, continued by the scan of what is left. */
  function Continue(segs: seq<Segment>, lit: string, rest: Option<seq<Segment>>): Option<seq<Segment>> {
    if rest.None? then None else Some(segs + PushLit(lit, rest.value))
  }

  function Flush(segs: seq<Segment>, lit: string): seq<Segment> {
    if lit == "" then segs else segs + [Lit(lit)]
  }

  lemma LitStep(segs: seq<Segment>, lit: string, text: string, rest: Option<seq<Segment>>)
    ensures Continue(segs, lit, PushText(text, rest))
         == Continue(segs, lit + text, rest)
  {
    if rest.Some? {
      PushPush(lit, text, rest.value);
    }
  }

  lemma TokenStep(segs: seq<Segment>, lit: string, tok: Segment, rest: Option<seq<Segment>>)
    requires tok.Token?
    ensures Continue(segs, lit, PushTok(tok, rest))
         == Continue(Flush(segs, lit) + [tok], "", rest)
  {
    if rest.Some? {
      var after := [tok] + rest.value;
      assert after[0] == tok;
      assert Flush(segs, lit) + after == (Flush(segs, lit) + [tok]) + rest.value;
      if lit != "" {
        assert segs + ([Lit(lit)] + after) == (segs + [Lit(lit)]) + after;
      }
    }
  }

  lemma Ends(segs: seq<Segment>, lit: string, rest: Option<seq<Segment>>)
    ensures Continue([], "", rest) == rest
    ensures Continue(segs, lit, Some([])) == Some(Flush(segs, lit))
  {
    assert rest.Some? ==> [] + rest.value == rest.value;
    assert segs + [] == segs;
    assert [Lit(lit)] + [] == [Lit(lit)];
  }

  /** The index loop of the source, with its literal builder. */
  method ScanTokens(s: string) returns (r: Option<seq<Segment>>)
    ensures r == Scan(s)
  {
    hide Next, PushLit;
    var segs: seq<Segment>, lit := [], "";
    var i := 0;
    assert s[0..] == s;
    Ends(segs, lit, Scan(s));
    while i < |s|
      invariant 0 <= i <= |s|
      invariant Scan(s) == Continue(segs, lit, Scan(s[i..]))
    {
      var tail := s[i..];
      match Next(tail) {
        case Malformed => return None;
        case Text(text, n) =>
          assert tail[n..] == s[i + n..];
          LitStep(segs, lit, text, Scan(tail[n..]));
          lit := lit + text;
          i := i + n;
        case Tok(tok, n) =>
          assert tail[n..] == s[i + n..];
          TokenStep(segs, lit, tok, Scan(tail[n..]));
          segs := Flush(segs, lit) + [tok];
          lit := "";
          i := i + n;
      }
    }
    assert s[i..] == "";
    Ends(segs, lit, None);
    return Some(Flush(segs, lit));
  }

  /// ## Printing: the inverse of scanning

  /** `text` with every opener escaped, followed by `rest`. */
  function Escape(text: string, rest: string): string {
    if text == "" then rest
    else if AtOpener(text) then "$$(" + Escape(text[2..], rest)
    else [text[0]] + Escape(text[1..], rest)
  }

  function TokenText(tok: Segment): string
    requires tok.Token?
  {
    "$(" + (tok.scheme + ":" + tok.path) + ")"
  }

  function Print(segs: seq<Segment>): string {
    if segs == [] then ""
    else
      match segs[0]
      case Lit(text) => Escape(text, Print(segs[1..]))
      case Token(_, _) => TokenText(segs[0]) + Print(segs[1..])
  }

  predicate EndsInDollar(text: string) {
    text != "" && text[|text| - 1] == '$'
  }

  predicate NormalToken(tok: Segment) {
    tok.Token? && ValidScheme(tok.scheme) && ')' !in tok.path
  }

  /** The segment lists a scan can produce. */
  predicate Normal(segs: seq<Segment>) {
    segs == [] ||
    (&& Normal(segs[1..])
     && match segs[0]
        case Lit(text) => text != "" && (|segs| == 1 || (segs[1].Token? && !EndsInDollar(text)))
        case Token(_, _) => NormalToken(segs[0]))
  }

  lemma {:induction false} EscapeHead(t: string, rest: string)
    ensures t != "" ==> Escape(t, rest) != "" && Escape(t, rest)[0] == t[0]
    ensures (t == "" ==> !AtOpener(rest)) && (EndsInDollar(t) ==> rest == "") ==> !AtOpener(Escape(t, rest))
  {
    if t != "" && !AtOpener(t) {
      EscapeHead(t[1..], rest);
      assert Escape(t, rest)[1..] == Escape(t[1..], rest);
      assert |t| > 1 ==> Escape(t, rest)[1] == t[1];
    }
  }

  /** One scanner step over `head`, seen from the printed side. */
  ghost predicate StepsOver(head: string, text: string, rest: string) {
    || (head == "$$(" && text == "$(")
    || (|head| == 1 && text == head && (head == "$" && rest != "" ==> rest[0] != '(' && !AtOpener(rest)))
  }

  lemma NextText(s: string)
    requires s != "" && Next(s).Text?
    ensures s == s[..Next(s).skip] + s[Next(s).skip..]
    ensures StepsOver(s[..Next(s).skip], Next(s).text, s[Next(s).skip..])
  {}

  lemma ScanStep(head: string, text: string, rest: string)
    requires StepsOver(head, text, rest)
    ensures Scan(head + rest) == PushText(text, Scan(rest))
  {
    var s := head + rest;
    assert s[|head|..] == rest;
    assert Next(s) == Text(text, |head|) by {
      if |head| == 1 {
        assert [s[0]] == head;
        assert |s| > 1 ==> s[1] == rest[0];
        assert |s| > 2 ==> s[2] == rest[1];
      }
    }
  }

  lemma EscapeJoin(head: string, text: string, t: string, rest: string)
    requires (head == "$$(" && text == "$(") || (|head| == 1 && text == head && !AtOpener(text + t))
    ensures Escape(text + t, rest) == head + Escape(t, rest)
  {
    assert (text + t)[|text|..] == t;
  }

  /** Printing a pushed literal puts its escaped text in front. */
  lemma PrintPush(head: string, text: string, segs: seq<Segment>)
    requires Normal(segs) && StepsOver(head, text, Print(segs))
    ensures Normal(PushLit(text, segs)) && Print(PushLit(text, segs)) == head + Print(segs)
  {
    var r := PushLit(text, segs);
    if segs != [] && segs[0].Lit? {
      var t := segs[0].text;
      assert r[1..] == segs[1..];
      EscapeHead(t, Print(segs[1..]));
      EscapeJoin(head, text, t, Print(segs[1..]));
      assert (text + t)[|text| + |t| - 1] == t[|t| - 1];
    } else {
      assert r[1..] == segs;
      assert text + "" == text;
      EscapeJoin(head, text, "", Print(segs));
      if segs != [] {
        TokenOpens(segs[0], Print(segs[1..]));
      }
    }
  }

  lemma TokenOpens(tok: Segment, rest: string)
    requires tok.Token?
    ensures AtOpener(TokenText(tok) + rest)
  {}

  lemma Rejoin(s: string, c: char, i: nat)
    requires i < |s| && s[i] == c
    ensures s == s[..i] + [c] + s[i + 1..]
  {}

  lemma OpenBody(s: string, end: nat)
    requires AtOpener(s) && 2 <= end <= |s|
    ensures s[..end] == "$(" + s[2..end]
  {}

  lemma NotInSlice(s: string, i: nat, c: char)
    requires i <= |s| && c !in s
    ensures c !in s[i..]
  {
    assert forall j | 0 <= j < |s| - i :: s[i..][j] == s[i + j];
  }

  lemma TokenParts(s: string)
    requires AtOpener(s) && TokenAt(s).Some?
    ensures var (tok, n) := TokenAt(s).value;
            && tok.Token? && 3 <= n <= |s| && s[n - 1] == ')' && ')' !in s[..n - 1]
            && var body := s[2..n - 1];
               && |tok.scheme| < |body| && body[|tok.scheme|] == ':' && ValidScheme(tok.scheme)
               && tok.scheme == body[..|tok.scheme|] && tok.path == body[|tok.scheme| + 1..]
  {}

  lemma TokenAtText(s: string)
    requires AtOpener(s) && TokenAt(s).Some?
    ensures var (tok, n) := TokenAt(s).value; NormalToken(tok) && s == TokenText(tok) + s[n..]
  {
    TokenParts(s);
    hide TokenAt, ValidScheme;
    var (tok, n) := TokenAt(s).value;
    var body := s[2..n - 1];
    Rejoin(s, ')', n - 1);
    OpenBody(s, n - 1);
    Rejoin(body, ':', |tok.scheme|);
    NotInSlice(s[..n - 1], 2, ')');
    assert s[..n - 1][2..] == body;
    NotInSlice(body, |tok.scheme| + 1, ')');
  }

  /** Printing undoes scanning, and a scan always yields a normal form. */
  lemma {:induction false} PrintScan(s: string)
    requires Scan(s).Some?
    ensures Normal(Scan(s).value) && Print(Scan(s).value) == s
    decreases |s|
  {
    hide Next;
    if s != "" {
      match Next(s)
      case Text(text, n) =>
        PrintScan(s[n..]);
        NextText(s);
        PrintPush(s[..n], text, Scan(s[n..]).value);
      case Tok(tok, n) =>
        PrintScan(s[n..]);
        NextTok(s);
        var segs := Scan(s).value;
        assert segs[0] == tok && segs[1..] == Scan(s[n..]).value;
    }
  }

  lemma NextTok(s: string)
    requires s != "" && Next(s).Tok?
    ensures NormalToken(Next(s).token) && s == TokenText(Next(s).token) + s[Next(s).skip..]
  {
    TokenAtText(s);
  }

  lemma {:induction false} ScanEscape(text: string, rest: string)
    requires EndsInDollar(text) ==> rest == ""
    ensures Scan(Escape(text, rest)) == PushText(text, Scan(rest))
    decreases |text|
  {
    if text != "" {
      var n := if AtOpener(text) then 2 else 1;
      var head, tail := if n == 2 then "$$(" else [text[0]], Escape(text[n..], rest);
      ScanEscape(text[n..], rest);
      EscapeSteps(text, rest);
      ScanStep(head, text[..n], tail);
      assert text[..n] + text[n..] == text;
      if Scan(rest).Some? {
        PushPush(text[..n], text[n..], Scan(rest).value);
      }
    }
  }

  lemma EscapeSteps(text: string, rest: string)
    requires text != "" && (EndsInDollar(text) ==> rest == "")
    ensures AtOpener(text) ==> StepsOver("$$(", text[..2], Escape(text[2..], rest))
    ensures !AtOpener(text) ==> StepsOver([text[0]], text[..1], Escape(text[1..], rest))
  {
    if !AtOpener(text) && text[0] == '$' {
      EscapeHead(text[1..], rest);
      assert |text| > 1 ==> Escape(text[1..], rest)[0] == text[1];
    }
  }

  lemma BodyCut(scheme: string, path: string)
    requires ValidScheme(scheme)
    ensures var body := scheme + ":" + path;
            IndexByte(body, ':') == Some(|scheme|) && body[..|scheme|] == scheme && body[|scheme| + 1..] == path
  {
    IndexByteIs(scheme, ':', path);
    assert scheme + [':'] + path == scheme + ":" + path;
  }

  lemma CloseParen(body: string, rest: string)
    requires ')' !in body
    ensures var s := "$(" + body + ")" + rest;
            AtOpener(s) && IndexByte(s, ')') == Some(|body| + 2) && s[2..|body| + 2] == body && s[|body| + 3..] == rest
  {
    var head := "$(" + body;
    assert forall c | c in head :: c in "$(" || c in body;
    assert "$(" + body + ")" + rest == head + [')'] + rest;
    IndexByteIs(head, ')', rest);
  }

  lemma NoParen(tok: Segment)
    requires NormalToken(tok)
    ensures ')' !in tok.scheme + ":" + tok.path
  {
    var body := tok.scheme + ":" + tok.path;
    forall i | 0 <= i < |body| ensures body[i] != ')' {
      if i > |tok.scheme| {
        assert body[i] == tok.path[i - |tok.scheme| - 1];
      }
    }
  }

  lemma TokenAtIs(s: string, body: string, c: nat)
    requires AtOpener(s) && IndexByte(s, ')') == Some(|body| + 2) && |body| + 2 <= |s| && s[2..|body| + 2] == body
    requires IndexByte(body, ':') == Some(c) && c < |body| && ValidScheme(body[..c])
    ensures TokenAt(s) == Some((Token(body[..c], body[c + 1..]), |body| + 3))
  {
    hide IndexByte, ValidScheme, AtOpener;
  }

  lemma NextPrintedToken(tok: Segment, rest: string)
    requires NormalToken(tok)
    ensures var s, n := TokenText(tok) + rest, |tok.scheme| + |tok.path| + 4;
            n <= |s| && s != "" && Next(s) == Tok(tok, n) && s[n..] == rest
  {
    hide TokenAt, IndexByte, ValidScheme, Next, AtOpener;
    var body := tok.scheme + ":" + tok.path;
    NoParen(tok);
    BodyCut(tok.scheme, tok.path);
    CloseParen(body, rest);
    NextAt("$(" + body + ")" + rest, body, |tok.scheme|);
  }

  lemma NextAt(s: string, body: string, c: nat)
    requires AtOpener(s) && IndexByte(s, ')') == Some(|body| + 2) && |body| + 2 <= |s| && s[2..|body| + 2] == body
    requires IndexByte(body, ':') == Some(c) && c < |body| && ValidScheme(body[..c])
    ensures s != "" && Next(s) == Tok(Token(body[..c], body[c + 1..]), |body| + 3)
  {
    TokenAtIs(s, body, c);
    hide TokenAt, IndexByte, ValidScheme;
  }

  lemma ScanPrintedToken(tok: Segment, rest: string)
    requires NormalToken(tok)
    ensures Scan(TokenText(tok) + rest) == PushTok(tok, Scan(rest))
  {
    NextPrintedToken(tok, rest);
    hide Next, TokenText, NormalToken;
  }

  /** Scanning undoes printing on normal forms: with PrintScan, a bijection. */
  lemma {:induction false} ScanPrint(segs: seq<Segment>)
    requires Normal(segs)
    ensures Scan(Print(segs)) == Some(segs)
  {
    if segs != [] {
      ScanPrint(segs[1..]);
      assert segs == [segs[0]] + segs[1..];
      match segs[0]
      case Lit(text) =>
        if |segs| > 1 { assert segs[1..][0] == segs[1]; }
        ScanEscape(text, Print(segs[1..]));
      case Token(_, _) => ScanPrintedToken(segs[0], Print(segs[1..]));
    }
  }

  lemma {:induction false} EscapeFirst(text: string, rest: string)
    ensures Escape(text, rest) == Escape(text, "") + rest
  {
    if text == "" {
      assert "" + rest == rest;
    } else {
      var n := if AtOpener(text) then 2 else 1;
      EscapeFirst(text[n..], rest);
    }
  }

  /** What two lists print is printed one after the other. */
  lemma {:induction false} PrintTogether(a: seq<Segment>, b: seq<Segment>)
    ensures Print(a + b) == Print(a) + Print(b)
  {
    if a == [] {
      assert a + b == b && "" + Print(b) == Print(b);
    } else {
      PrintTogether(a[1..], b);
      assert (a + b)[1..] == a[1..] + b && (a + b)[0] == a[0];
      match a[0]
      case Lit(text) =>
        EscapeFirst(text, Print(a[1..]));
        EscapeFirst(text, Print(a[1..] + b));
      case Token(_, _) =>
    }
  }

  lemma {:induction false} NormalParts(a: seq<Segment>, b: seq<Segment>)
    requires Normal(a + b)
    ensures Normal(a) && Normal(b)
  {
    if a == [] {
      assert a + b == b;
    } else {
      assert (a + b)[1..] == a[1..] + b && (a + b)[0] == a[0];
      NormalParts(a[1..], b);
      assert |a| > 1 ==> (a + b)[1] == a[1];
    }
  }

  /** A text of the form of a token is that token exactly if its scheme is a name and its path has no closing
      parenthesis. The path may hold a colon, which the documentation rules out. */
  lemma TokenIff(tok: Segment)
    requires tok.Token?
    ensures Scan(TokenText(tok)) == Some([tok]) <==> ValidScheme(tok.scheme) && ')' !in tok.path
  {
    hide Scan, ValidScheme;
    if NormalToken(tok) {
      OneToken(tok);
    }
    if Scan(TokenText(tok)) == Some([tok]) {
      PrintScan(TokenText(tok));
      NormalHead([tok]);
    }
  }

  lemma OneToken(tok: Segment)
    requires NormalToken(tok)
    ensures Scan(TokenText(tok)) == Some([tok])
  {
    ScanPrintedToken(tok, "");
    assert TokenText(tok) + "" == TokenText(tok);
    assert Scan("") == Some([]);
    hide Scan, TokenText;
    assert [tok] + [] == [tok];
  }

  lemma NormalHead(segs: seq<Segment>)
    requires segs != [] && Normal(segs) && segs[0].Token?
    ensures NormalToken(segs[0])
  {}

  /** A scheme is a lower-case letter followed by lower-case letters and digits: no other character, and none at all,
      makes a token. */
  lemma SchemesAre()
    ensures ValidScheme("env") && ValidScheme("s3") && !ValidScheme("") && !ValidScheme("3s") && !ValidScheme("Env")
    ensures !ValidScheme("eNv") && !ValidScheme("e-v") && !ValidScheme("e v") && !ValidScheme("e_v")
  {
    assert "eNv"[1] == 'N' && "e-v"[1] == '-' && "e v"[1] == ' ' && "e_v"[1] == '_';
  }

  lemma ColonInPath()
    ensures Scan("$(a:b:c)") == Some([Token("a", "b:c")])
  {
    ColonText();
    TokenIff(Token("a", "b:c"));
  }

  lemma ColonText()
    ensures TokenText(Token("a", "b:c")) == "$(a:b:c)" && ValidScheme("a") && ')' !in "b:c"
  {}

  /// ## The substring pre-filters agree with the full scan

  predicate HasConfig(segs: seq<Segment>) {
    exists i | 0 <= i < |segs| :: segs[i].Token? && segs[i].scheme == "config"
  }

  predicate HasTokens(segs: seq<Segment>) {
    exists i | 0 <= i < |segs| :: segs[i].Token?
  }

  /** Without the opener, scanning finds the whole text as one literal. */
  lemma {:induction false} NoOpener(s: string)
    requires !Contains(s, "$(")
    ensures Scan(s) == Some(PushLit(s, []))
  {
    if s != "" {
      NoOpener(s[1..]);
      assert !("$(" <= s) && !("$(" <= s[1..]);
      assert !AtOpener(s) && !AtOpener(s[1..]);
      assert s == [s[0]] + s[1..];
      ScanStep([s[0]], [s[0]], s[1..]);
      PushPush([s[0]], s[1..], []);
      assert [s[0]] + s[1..] == s;
    }
  }

  /** A token is never missed by the `$(` substring test. */
  lemma TokenIsSeen(s: string)
    requires Scan(s).Some? && HasTokens(Scan(s).value)
    ensures Contains(s, "$(")
  {
    if !Contains(s, "$(") {
      NoOpener(s);
    }
  }

  /** A config token is never missed by the `$(config:` substring test. */
  lemma {:induction false} ConfigIsSeen(s: string)
    requires Scan(s).Some? && HasConfig(Scan(s).value)
    ensures Contains(s, "$(config:")
    decreases |s|
  {
    hide Next;
    var segs := Scan(s).value;
    var i :| 0 <= i < |segs| && segs[i].Token? && segs[i].scheme == "config";
    match Next(s)
    case Text(text, n) =>
      var rest := Scan(s[n..]).value;
      assert segs[i] == rest[i - (|segs| - |rest|)];
      ConfigIsSeen(s[n..]);
      ContainsInTail(s, n, "$(config:");
    case Tok(tok, n) =>
      if i > 0 {
        assert segs[i] == Scan(s[n..]).value[i - 1];
        ConfigIsSeen(s[n..]);
        ContainsInTail(s, n, "$(config:");
      } else {
        ConfigStart(s);
      }
  }

  lemma ConfigStart(s: string)
    requires s != "" && Next(s).Tok? && Next(s).token.scheme == "config"
    ensures Contains(s, "$(config:")
  {
    NextTok(s);
    hide Next;
    ConfigHead(Next(s).token.path, s[Next(s).skip..]);
  }

  lemma ConfigHead(path: string, rest: string)
    ensures Contains(TokenText(Token("config", path)) + rest, "$(config:")
  {
    var after := path + ")" + rest;
    assert TokenText(Token("config", path)) + rest == "$(config:" + after;
    ContainsHead("$(config:", after);
  }

  lemma ContainsHead(p: string, rest: string)
    ensures Contains(p + rest, p)
  {
    assert p <= p + rest;
  }

  lemma {:induction false} ContainsInTail(s: string, n: nat, p: string)
    requires n <= |s| && Contains(s[n..], p)
    ensures Contains(s, p)
    decreases n
  {
    if n > 0 {
      assert s[1..][n - 1..] == s[n..];
      ContainsInTail(s[1..], n - 1, p);
    }
  }
}
