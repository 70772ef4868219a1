/** String primitives the source takes from Go's `strings` package, and facts about them.
    A string is a sequence of characters. Where the source walks bytes, those it compares are ASCII, which
    the encoding of no other character contains. */
module Text {
  datatype Option<+T> = None | Some(value: T)

  datatype Result<+T, +E> = Ok(value: T) | Err(error: E)

  ghost predicate NoDup<T>(s: seq<T>) {
    forall i, j | 0 <= i < j < |s| :: s[i] != s[j]
  }

  function SetOf<T>(s: seq<T>): set<T> {
    set x | x in s
  }

  lemma AppendNew<T>(s: seq<T>, x: T)
    requires NoDup(s) && x !in SetOf(s)
    ensures NoDup(s + [x]) && SetOf(s + [x]) == SetOf(s) + {x}
  {
    assert forall i | 0 <= i < |s| :: s[i] in SetOf(s);
  }

  lemma NoDupAppend<T>(a: seq<T>, b: seq<T>)
    ensures NoDup(a + b) <==> NoDup(a) && NoDup(b) && SetOf(a) !! SetOf(b)
    ensures SetOf(a + b) == SetOf(a) + SetOf(b)
  {
    var ab := a + b;
    assert forall i | 0 <= i < |a| :: ab[i] == a[i] && a[i] in SetOf(a);
    assert forall j | 0 <= j < |b| :: ab[|a| + j] == b[j] && b[j] in SetOf(b);
    if NoDup(a) && NoDup(b) && SetOf(a) !! SetOf(b) {
      assert forall i, j | 0 <= i < |a| <= j < |ab| :: ab[i] in SetOf(a) && ab[j] == b[j - |a|] && ab[j] in SetOf(b);
    }
  }

  /** `strings.Contains`. */
  predicate Contains(s: string, p: string)
    decreases |s|
  {
    p <= s || (s != "" && Contains(s[1..], p))
  }

  /** `strings.IndexByte`: the first position of `c`, if there is one. */
  function IndexByte(s: string, c: char): (r: Option<nat>)
    ensures r.None? <==> c !in s
    ensures r.Some? ==> r.value < |s| && s[r.value] == c && c !in s[..r.value]
  {
    if s == "" then None
    else if s[0] == c then Some(0)
    else
      match IndexByte(s[1..], c)
      case None => None
      case Some(i) => assert s[..i + 1] == [s[0]] + s[1..][..i]; Some(i + 1)
  }

  /** The first position is the only one with nothing equal before it. */
  lemma IndexByteIs(before: string, c: char, after: string)
    requires c !in before
    ensures IndexByte(before + [c] + after, c) == Some(|before|)
  {
    var s := before + [c] + after;
    assert forall k | 0 <= k < |before| :: s[k] == before[k] && before[k] in before;
    assert forall j | |before| < j <= |s| :: s[..j][|before|] == c;
    assert s[|before|] == c;
  }
}
