/** Secret addresses, flexvault/address.go. On its way to a backend behind the agent one address is
    parsed up to three times. */
module Address {
  import opened Text

  /** White space as `unicode.IsSpace` has it. */
  predicate IsSpace(c: char) {
    var n := c as int;
    || 0x9 <= n <= 0xD || n == 0x20 || n == 0x85 || n == 0xA0 || n == 0x1680 || 0x2000 <= n <= 0x200A
    || n == 0x2028 || n == 0x2029 || n == 0x202F || n == 0x205F || n == 0x3000
  }

  function TrimLeft(s: string): string {
    if s != "" && IsSpace(s[0]) then TrimLeft(s[1..]) else s
  }

  function TrimRight(s: string): string {
    if s != "" && IsSpace(s[|s| - 1]) then TrimRight(s[..|s| - 1]) else s
  }

  function Trim(s: string): string {
    TrimRight(TrimLeft(s))
  }

  /** Namespace and key, or None. */
  function ParseAddress(addr: string): Option<(string, string)> {
    var t := Trim(addr);
    match IndexByte(t, '/')
    case None => None
    case Some(i) =>
      var ns, key := t[..i], t[i + 1..];
      if ns == "" || key == "" || '/' in key then None else Some((ns, key))
  }

  function Joined(ns: string, key: string): string {
    ns + "/" + key
  }

  ghost predicate Trimmed(s: string) {
    s != "" ==> !IsSpace(s[0]) && !IsSpace(s[|s| - 1])
  }

  lemma {:induction false} TrimLeftStarts(s: string)
    ensures var t := TrimLeft(s); (t != "" ==> !IsSpace(t[0])) && |t| <= |s| && t == s[|s| - |t|..]
  {
    if s != "" && IsSpace(s[0]) {
      TrimLeftStarts(s[1..]);
    }
  }

  lemma {:induction false} TrimRightEnds(s: string)
    ensures var t := TrimRight(s); (t != "" ==> !IsSpace(t[|t| - 1])) && t <= s
  {
    if s != "" && IsSpace(s[|s| - 1]) {
      TrimRightEnds(s[..|s| - 1]);
    }
  }

  lemma TrimTrims(s: string)
    ensures Trimmed(Trim(s))
  {
    TrimLeftStarts(s);
    TrimRightEnds(TrimLeft(s));
  }

  lemma TrimKeeps(s: string)
    requires Trimmed(s)
    ensures Trim(s) == s
  {}

  /** An address is exactly two non-empty segments once trimmed. */
  lemma AddressIff(addr: string, ns: string, key: string)
    ensures ParseAddress(addr) == Some((ns, key)) <==>
            Trim(addr) == Joined(ns, key) && ns != "" && key != "" && '/' !in ns && '/' !in key
  {
    if Trim(addr) == Joined(ns, key) && '/' !in ns {
      IndexByteIs(ns, '/', key);
      assert ns + ['/'] + key == Joined(ns, key);
      assert Joined(ns, key)[..|ns|] == ns && Joined(ns, key)[|ns| + 1..] == key;
    }
  }

  /** The form the Manager hands on parses to itself, so parsing again changes nothing. */
  lemma ParseAgain(addr: string)
    requires ParseAddress(addr).Some?
    ensures var (ns, key) := ParseAddress(addr).value;
            ParseAddress(Joined(ns, key)) == Some((ns, key))
  {
    var (ns, key) := ParseAddress(addr).value;
    AddressIff(addr, ns, key);
    TrimTrims(addr);
    TrimKeeps(Joined(ns, key));
    AddressIff(Joined(ns, key), ns, key);
  }

  /** Every normal form is reached: two segments without slashes or outer spaces. */
  lemma NormalForms(ns: string, key: string)
    ensures (exists addr :: ParseAddress(addr) == Some((ns, key))) <==>
            ns != "" && key != "" && '/' !in ns && '/' !in key && !IsSpace(ns[0]) && !IsSpace(key[|key| - 1])
  {
    if exists addr :: ParseAddress(addr) == Some((ns, key)) {
      var addr :| ParseAddress(addr) == Some((ns, key));
      AddressIff(addr, ns, key);
      TrimTrims(addr);
    } else if ns != "" && key != "" && '/' !in ns && '/' !in key && !IsSpace(ns[0]) && !IsSpace(key[|key| - 1]) {
      TrimKeeps(Joined(ns, key));
      AddressIff(Joined(ns, key), ns, key);
    }
  }
}
