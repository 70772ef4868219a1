/** The caller's memory: values as they lie in it, with pointers as references, and a destination as the
    binder sees it, with everything behind its pointers. The pointers of a destination lead to pairwise
    different places. */
module Memory {
  import opened Text
  import opened Schema
  import opened Binding
  import opened Walks

  type Heap = map<nat, Val>

  /** The value as it lies in memory. */
  function Flat(v: Val): Val {
    match v
    case Struct(fields) => Struct(seq(|fields|, i requires 0 <= i < |fields| => Flat(fields[i])))
    case Own(addr, _) => Ref(addr)
    case New(to) => New(Flat(to))
    case MapV(entries) => MapV(map k | k in entries :: Flat(entries[k]))
    case SliceV(elems) => SliceV(seq(|elems|, i requires 0 <= i < |elems| => Flat(elems[i])))
    case _ => v
  }

  /** Everything behind the caller's pointers is what memory holds there. */
  ghost predicate Backed(h: Heap, v: Val) {
    match v
    case Struct(fields) => forall i | 0 <= i < |fields| :: Backed(h, fields[i])
    case Own(addr, to) => addr in h && h[addr] == Flat(to) && Backed(h, to)
    case New(to) => Backed(h, to)
    case Ref(_) => false
    case MapV(entries) => forall k | k in entries :: Backed(h, entries[k])
    case SliceV(elems) => forall i | 0 <= i < |elems| :: Backed(h, elems[i])
    case _ => true
  }

  /** No two pointers lead to one place, and none leads into itself. */
  ghost predicate Apart(v: Val) {
    match v
    case Struct(fields) => AllApart(fields)
    case Own(addr, to) => addr !in Places(to) && Apart(to)
    case New(to) => Apart(to)
    case MapV(entries) =>
      && (forall k | k in entries :: Apart(entries[k]))
      && forall j, k | j in entries && k in entries && j != k :: Places(entries[j]) !! Places(entries[k])
    case SliceV(elems) => AllApart(elems)
    case _ => true
  }

  ghost predicate AllApart(vs: seq<Val>) {
    && (forall i | 0 <= i < |vs| :: Apart(vs[i]))
    && forall i, j | 0 <= i < j < |vs| :: Places(vs[i]) !! Places(vs[j])
  }

  /** Every pointer is one of the caller, and followed. */
  ghost predicate Settled(v: Val) {
    match v
    case Struct(fields) => forall i | 0 <= i < |fields| :: Settled(fields[i])
    case Own(_, to) => Settled(to)
    case New(_) => false
    case Ref(_) => false
    case MapV(entries) => forall k | k in entries :: Settled(entries[k])
    case SliceV(elems) => forall i | 0 <= i < |elems| :: Settled(elems[i])
    case _ => true
  }

  /** The variable `f` and the memory `h` hold the destination `v`. */
  ghost predicate Holds(h: Heap, f: Val, v: Val) {
    f == Flat(v) && Backed(h, v) && Apart(v) && Settled(v)
  }

  lemma {:induction false} BackedPlaces(h: Heap, v: Val)
    requires Backed(h, v)
    ensures Places(v) <= h.Keys
  {
    match v
    case Struct(fields) =>
      forall i | 0 <= i < |fields| ensures Places(fields[i]) <= h.Keys {
        BackedPlaces(h, fields[i]);
      }
    case Own(_, to) => BackedPlaces(h, to);
    case New(to) => BackedPlaces(h, to);
    case MapV(entries) =>
      forall k | k in entries ensures Places(entries[k]) <= h.Keys {
        BackedPlaces(h, entries[k]);
      }
    case SliceV(elems) =>
      forall i | 0 <= i < |elems| ensures Places(elems[i]) <= h.Keys {
        BackedPlaces(h, elems[i]);
      }
    case _ =>
  }

  /** Memory elsewhere does not matter. */
  lemma {:induction false} BackedFrame(h: Heap, h': Heap, v: Val)
    requires Backed(h, v) && forall a | a in Places(v) && a in h :: a in h' && h'[a] == h[a]
    ensures Backed(h', v)
  {
    BackedPlaces(h, v);
    match v
    case Struct(fields) =>
      forall i | 0 <= i < |fields| ensures Backed(h', fields[i]) {
        assert forall a | a in Places(fields[i]) :: a in Places(v);
        BackedFrame(h, h', fields[i]);
      }
    case Own(addr, to) =>
      assert addr in Places(v);
      BackedFrame(h, h', to);
    case New(to) => BackedFrame(h, h', to);
    case MapV(entries) =>
      forall k | k in entries ensures Backed(h', entries[k]) {
        assert forall a | a in Places(entries[k]) :: a in Places(v);
        BackedFrame(h, h', entries[k]);
      }
    case SliceV(elems) =>
      forall i | 0 <= i < |elems| ensures Backed(h', elems[i]) {
        assert forall a | a in Places(elems[i]) :: a in Places(v);
        BackedFrame(h, h', elems[i]);
      }
    case _ =>
  }

  /** Two memories that back one value agree on its places. */
  lemma {:induction false} BackedSame(h: Heap, h': Heap, v: Val, a: nat)
    requires Backed(h, v) && Backed(h', v) && a in Places(v)
    ensures a in h && a in h' && h'[a] == h[a]
  {
    match v
    case Struct(fields) =>
      var i :| 0 <= i < |fields| && a in Places(fields[i]);
      BackedSame(h, h', fields[i], a);
    case Own(addr, to) =>
      if a != addr {
        BackedSame(h, h', to, a);
      }
    case New(to) => BackedSame(h, h', to, a);
    case MapV(entries) =>
      var k :| k in entries && a in Places(entries[k]);
      BackedSame(h, h', entries[k], a);
    case SliceV(elems) =>
      var i :| 0 <= i < |elems| && a in Places(elems[i]);
      BackedSame(h, h', elems[i], a);
    case _ =>
  }

  /// ## What a bind may do to a place

  /** From `v` to `w`: nothing; something put in its place that leads to no place but those `added`; the
      fields of a struct; or what is behind a pointer, of the caller only if it is walked. */
  ghost predicate Evolves(v: Val, w: Val, walks: set<nat>, added: set<nat>) {
    || w == v
    || Places(w) <= added
    || (v.Struct? && w.Struct? && |v.fields| == |w.fields|
        && forall i | 0 <= i < |v.fields| :: Evolves(v.fields[i], w.fields[i], walks, added))
    || (v.Own? && w.Own? && v.addr == w.addr && v.addr in walks && Evolves(v.to, w.to, walks, added))
    || (v.New? && w.New? && Evolves(v.to, w.to, walks, added))
  }

  lemma {:induction false} EvolvesPlaces(v: Val, w: Val, walks: set<nat>, added: set<nat>)
    requires Evolves(v, w, walks, added)
    ensures Places(w) <= Places(v) + added
  {
    if w == v || Places(w) <= added {
    } else if v.Struct? {
      forall i | 0 <= i < |v.fields| ensures Places(w.fields[i]) <= Places(v) + added {
        EvolvesPlaces(v.fields[i], w.fields[i], walks, added);
        assert Places(v.fields[i]) <= Places(v);
      }
    } else {
      EvolvesPlaces(v.to, w.to, walks, added);
    }
  }

  lemma {:induction false} EvolvesThen(v: Val, w: Val, x: Val, walks: set<nat>, more: set<nat>, added: set<nat>)
    requires Evolves(v, w, walks, added) && Evolves(w, x, more, added)
    ensures Evolves(v, x, walks + more, added)
  {
    if w == v {
      EvolvesMore(w, x, more, walks + more, added);
    } else if x == w {
      EvolvesMore(v, w, walks, walks + more, added);
    } else if Places(x) <= added {
    } else if Places(w) <= added {
      EvolvesPlaces(w, x, more, added);
    } else if v.Struct? {
      forall i | 0 <= i < |v.fields| ensures Evolves(v.fields[i], x.fields[i], walks + more, added) {
        EvolvesThen(v.fields[i], w.fields[i], x.fields[i], walks, more, added);
      }
    } else {
      EvolvesThen(v.to, w.to, x.to, walks, more, added);
    }
  }

  lemma {:induction false} EvolvesMore(v: Val, w: Val, walks: set<nat>, more: set<nat>, added: set<nat>)
    requires Evolves(v, w, walks, added) && walks <= more
    ensures Evolves(v, w, more, added)
  {
    if w == v || Places(w) <= added {
    } else if v.Struct? {
      forall i | 0 <= i < |v.fields| ensures Evolves(v.fields[i], w.fields[i], more, added) {
        EvolvesMore(v.fields[i], w.fields[i], walks, more, added);
      }
    } else {
      EvolvesMore(v.to, w.to, walks, more, added);
    }
  }

  /** A bind keeps pointers apart and leaves none unfollowed. */
  lemma {:induction false} EvolvesApart(v: Val, w: Val, walks: set<nat>)
    requires Evolves(v, w, walks, {}) && Apart(v) && Followed(v)
    ensures Apart(w) && Followed(w)
  {
    if w == v {
    } else if Places(w) == {} {
      NoPlacesApart(w);
    } else if v.Struct? {
      forall i | 0 <= i < |w.fields|
        ensures Apart(w.fields[i]) && Followed(w.fields[i]) && Places(w.fields[i]) <= Places(v.fields[i])
      {
        EvolvesApart(v.fields[i], w.fields[i], walks);
        EvolvesPlaces(v.fields[i], w.fields[i], walks, {});
      }
    } else {
      EvolvesApart(v.to, w.to, walks);
      EvolvesPlaces(v.to, w.to, walks, {});
    }
  }

  lemma {:induction false} NoPlacesApart(w: Val)
    requires Places(w) == {}
    ensures Apart(w) && Followed(w)
  {
    match w
    case Struct(fields) =>
      forall i | 0 <= i < |fields| ensures Apart(fields[i]) && Followed(fields[i]) && Places(fields[i]) == {} {
        assert Places(fields[i]) <= Places(w);
        NoPlacesApart(fields[i]);
      }
    case New(to) => NoPlacesApart(to);
    case MapV(entries) =>
      forall k | k in entries ensures Apart(entries[k]) && Followed(entries[k]) && Places(entries[k]) == {} {
        assert Places(entries[k]) <= Places(w);
        NoPlacesApart(entries[k]);
      }
    case SliceV(elems) =>
      forall i | 0 <= i < |elems| ensures Apart(elems[i]) && Followed(elems[i]) && Places(elems[i]) == {} {
        assert Places(elems[i]) <= Places(w);
        NoPlacesApart(elems[i]);
      }
    case _ =>
  }

  lemma {:induction false} SettledFollowed(v: Val)
    requires Settled(v)
    ensures Followed(v)
  {
    match v
    case Struct(fields) =>
      forall i | 0 <= i < |fields| ensures Followed(fields[i]) {
        SettledFollowed(fields[i]);
      }
    case Own(_, to) => SettledFollowed(to);
    case MapV(entries) =>
      forall k | k in entries ensures Followed(entries[k]) {
        SettledFollowed(entries[k]);
      }
    case SliceV(elems) =>
      forall i | 0 <= i < |elems| ensures Followed(elems[i]) {
        SettledFollowed(elems[i]);
      }
    case _ =>
  }

  /** One field of a struct. */
  lemma FieldEvolves(vals: seq<Val>, i: nat, w: Val, walks: set<nat>)
    requires i < |vals| && Evolves(vals[i], w, walks, {})
    ensures Evolves(Struct(vals), Struct(vals[i := w]), walks, {})
  {
    var a, b := Struct(vals), Struct(vals[i := w]);
    forall j | 0 <= j < |vals| ensures Evolves(a.fields[j], b.fields[j], walks, {}) {}
  }

  /** The fields of a struct, read from a value that may not be one. */
  lemma StructEvolves(env: Env, v: Val, t: Schema, vals: seq<Val>, walks: set<nat>)
    requires t.StructT? && |vals| == |t.fields|
    requires Evolves(Struct(FieldVals(env, v, t)), Struct(vals), walks, {})
    ensures Evolves(v, Struct(vals), walks, {})
  {
    if !(v.Struct? && |v.fields| == |t.fields|) {
      ZeroPlaces(env, t);
      EvolvesPlaces(Zero(env, t), Struct(vals), walks, {});
    }
  }

  /** What is behind a pointer, allocated if it is nil. */
  lemma PointerEvolves(env: Env, v: Val, elem: Schema, w: Val, walks: set<nat>)
    requires Evolves(Pointee(env, v, elem), w, walks, {}) && WalkOf(v) <= walks
    ensures Evolves(v, Repoint(v, w), walks, {})
  {
    if !IsPointer(v) {
      ZeroPlaces(env, elem);
      EvolvesPlaces(Zero(env, elem), w, walks, {});
    }
  }

  /// ## Putting a destination back

  /** `w` is `v` with each pointer of the load at one of the places `added`. */
  ghost predicate Becomes(v: Val, w: Val, added: set<nat>) {
    match v
    case Struct(fields) =>
      w.Struct? && |w.fields| == |fields| && forall i | 0 <= i < |fields| :: Becomes(fields[i], w.fields[i], added)
    case Own(addr, to) => w.Own? && w.addr == addr && Becomes(to, w.to, added)
    case New(to) => w.Own? && w.addr in added && Becomes(to, w.to, added)
    case MapV(entries) =>
      w.MapV? && w.entries.Keys == entries.Keys && forall k | k in entries :: Becomes(entries[k], w.entries[k], added)
    case SliceV(elems) =>
      w.SliceV? && |w.elems| == |elems| && forall i | 0 <= i < |elems| :: Becomes(elems[i], w.elems[i], added)
    case _ => w == v
  }

  /** No unfollowed pointer. */
  ghost predicate Followed(v: Val) {
    match v
    case Struct(fields) => forall i | 0 <= i < |fields| :: Followed(fields[i])
    case Own(_, to) => Followed(to)
    case New(to) => Followed(to)
    case Ref(_) => false
    case MapV(entries) => forall k | k in entries :: Followed(entries[k])
    case SliceV(elems) => forall i | 0 <= i < |elems| :: Followed(elems[i])
    case _ => true
  }

  /** The memory after `v` was put into it as `s`: it backs `s`, whose new places were free, and is what it
      was away from the places of `v`. */
  ghost predicate Put(h: Heap, next: nat, v: Val, h': Heap, next': nat, s: Val) {
    && next <= next' && (forall a | a in h' :: a < next') && h.Keys <= h'.Keys
    && Backed(h', s) && Apart(s) && Settled(s) && Becomes(v, s, h'.Keys - h.Keys)
    && Places(s) <= Places(v) + (h'.Keys - h.Keys)
    && forall a | a in h && a !in Places(v) :: h'[a] == h[a]
  }

  /** Writes what is behind the pointers of a destination into memory, giving the pointers of this load a
      place there. */
  method Settle(h: Heap, next: nat, v: Val) returns (h': Heap, next': nat, s: Val)
    requires Apart(v) && Followed(v) && Places(v) <= h.Keys && forall a | a in h :: a < next
    ensures Put(h, next, v, h', next', s)
    decreases v, 2
  {
    match v
    case Struct(fields) =>
      var ss;
      forall i | 0 <= i < |fields| ensures Places(fields[i]) <= Places(v) {}
      h', next', ss := SettleAll(h, next, fields, v);
      SeqPut(h, next, fields, h', next', ss);
      s := Struct(ss);
    case Own(addr, to) =>
      h', next', s := Settle(h, next, to);
      ghost var before := h';
      h' := h'[addr := Flat(s)];
      assert h'.Keys == before.Keys;
      BackedFrame(before, h', s);
      s := Own(addr, s);
    case New(to) =>
      h', next', s := Settle(h, next, to);
      ghost var before := h';
      h' := h'[next' := Flat(s)];
      BackedPlaces(before, s);
      BackedFrame(before, h', s);
      BecomesMore(to, s, before.Keys - h.Keys, h'.Keys - h.Keys);
      s, next' := Own(next', s), next' + 1;
    case MapV(entries) =>
      var ss;
      h', next', ss := SettleEntries(h, next, entries);
      s := MapV(ss);
    case SliceV(elems) =>
      var ss;
      forall i | 0 <= i < |elems| ensures Places(elems[i]) <= Places(v) {}
      h', next', ss := SettleAll(h, next, elems, v);
      SeqPut(h, next, elems, h', next', ss);
      s := SliceV(ss);
    case _ => h', next', s := h, next, v;
  }

  lemma {:induction false} BecomesMore(v: Val, w: Val, added: set<nat>, more: set<nat>)
    requires Becomes(v, w, added) && added <= more
    ensures Becomes(v, w, more)
  {
    match v
    case Struct(fields) =>
      forall i | 0 <= i < |fields| ensures Becomes(fields[i], w.fields[i], more) {
        BecomesMore(fields[i], w.fields[i], added, more);
      }
    case Own(_, to) => BecomesMore(to, w.to, added, more);
    case New(to) => BecomesMore(to, w.to, added, more);
    case MapV(entries) =>
      forall k | k in entries ensures Becomes(entries[k], w.entries[k], more) {
        BecomesMore(entries[k], w.entries[k], added, more);
      }
    case SliceV(elems) =>
      forall i | 0 <= i < |elems| ensures Becomes(elems[i], w.elems[i], more) {
        BecomesMore(elems[i], w.elems[i], added, more);
      }
    case _ =>
  }

  /** The same for several values at once. */
  ghost predicate PutAll(h: Heap, next: nat, vs: seq<Val>, h': Heap, next': nat, ss: seq<Val>) {
    && |ss| == |vs| && next <= next' && (forall a | a in h' :: a < next') && h.Keys <= h'.Keys
    && (forall i | 0 <= i < |vs| ::
          && Backed(h', ss[i]) && Apart(ss[i]) && Settled(ss[i]) && Becomes(vs[i], ss[i], h'.Keys - h.Keys)
          && Places(ss[i]) <= Places(vs[i]) + (h'.Keys - h.Keys))
    && (forall i, j | 0 <= i < j < |ss| :: Places(ss[i]) !! Places(ss[j]))
    && forall a | a in h && (forall i | 0 <= i < |vs| :: a !in Places(vs[i])) :: h'[a] == h[a]
  }

  method SettleAll(h: Heap, next: nat, vs: seq<Val>, ghost whole: Val) returns (h': Heap, next': nat, ss: seq<Val>)
    requires AllApart(vs) && (forall a | a in h :: a < next)
    requires forall i | 0 <= i < |vs| :: vs[i] < whole && Followed(vs[i]) && Places(vs[i]) <= h.Keys
    ensures PutAll(h, next, vs, h', next', ss)
    decreases whole, 0
  {
    hide Backed, Apart, Settled, Becomes, Followed, Places;
    h', next', ss := h, next, [];
    for i := 0 to |vs|
      invariant PutAll(h, next, vs[..i], h', next', ss)
    {
      ghost var before, nextBefore := h', next';
      var s;
      h', next', s := Settle(h', next', vs[i]);
      PutOneMore(h, next, vs[..i], before, nextBefore, ss, vs[i], h', next', s);
      assert vs[..i] + [vs[i]] == vs[..i + 1];
      ss := ss + [s];
    }
    assert vs[..|vs|] == vs;
  }

  lemma PutOneMore(h: Heap, next: nat, vs: seq<Val>, h1: Heap, next1: nat, ss: seq<Val>, v: Val, h2: Heap, next2: nat, s: Val)
    requires PutAll(h, next, vs, h1, next1, ss) && Put(h1, next1, v, h2, next2, s)
    requires Places(v) <= h.Keys && forall i | 0 <= i < |vs| :: Places(vs[i]) <= h.Keys && Places(vs[i]) !! Places(v)
    ensures PutAll(h, next, vs + [v], h2, next2, ss + [s])
  {
    hide Backed, Apart, Settled, Becomes, Places;
    var all, out, added := vs + [v], ss + [s], h2.Keys - h.Keys;
    forall i | 0 <= i < |all|
      ensures Backed(h2, out[i]) && Apart(out[i]) && Settled(out[i]) && Becomes(all[i], out[i], added)
      ensures Places(out[i]) <= Places(all[i]) + added
    {
      if i < |vs| {
        EarlierKept(h, vs[i], h1, ss[i], v, h2);
      } else {
        BecomesMore(v, s, h2.Keys - h1.Keys, added);
      }
    }
    forall i, j | 0 <= i < j < |out| ensures Places(out[i]) !! Places(out[j]) {
      if j == |ss| {
        BackedPlaces(h1, ss[i]);
      }
    }
    forall a | a in h && (forall i | 0 <= i < |all| :: a !in Places(all[i])) ensures h2[a] == h[a] {
      assert a !in Places(all[|vs|]);
      forall i | 0 <= i < |vs| ensures a !in Places(vs[i]) {
        assert a !in Places(all[i]);
      }
    }
  }

  lemma EarlierKept(h: Heap, u: Val, h1: Heap, r: Val, v: Val, h2: Heap)
    requires h.Keys <= h1.Keys <= h2.Keys && Backed(h1, r) && Becomes(u, r, h1.Keys - h.Keys)
    requires Places(r) <= Places(u) + (h1.Keys - h.Keys) && Places(u) !! Places(v) && Places(v) <= h.Keys
    requires forall a | a in h1 && a !in Places(v) :: h2[a] == h1[a]
    ensures Backed(h2, r) && Becomes(u, r, h2.Keys - h.Keys)
  {
    hide Backed, Becomes, Places;
    BackedPlaces(h1, r);
    BackedFrame(h1, h2, r);
    BecomesMore(u, r, h1.Keys - h.Keys, h2.Keys - h.Keys);
  }

  /** The entries of a map, and their values one after the other. */
  ghost predicate Listed(keys: seq<string>, vs: seq<Val>, entries: map<string, Val>) {
    && |vs| == |keys| && (forall i | 0 <= i < |keys| :: keys[i] in entries && vs[i] == entries[keys[i]])
    && forall k | k in entries :: exists i :: 0 <= i < |keys| && keys[i] == k
  }

  lemma ListedPlaces(keys: seq<string>, vs: seq<Val>, entries: map<string, Val>)
    requires Listed(keys, vs, entries)
    ensures forall a | a !in Places(MapV(entries)) :: forall i | 0 <= i < |vs| :: a !in Places(vs[i])
    ensures forall i | 0 <= i < |vs| :: Places(vs[i]) <= Places(MapV(entries))
  {
    forall i | 0 <= i < |vs| ensures Places(vs[i]) <= Places(MapV(entries)) {
      assert Places(entries[keys[i]]) <= Places(MapV(entries));
    }
  }

  lemma ListedApart(keys: seq<string>, vs: seq<Val>, entries: map<string, Val>)
    requires Listed(keys, vs, entries) && forall i | 0 <= i < |vs| :: Apart(vs[i])
    requires forall i, j | 0 <= i < j < |vs| :: Places(vs[i]) !! Places(vs[j])
    ensures Apart(MapV(entries))
  {
    forall j, k | j in entries && k in entries && j != k ensures Places(entries[j]) !! Places(entries[k]) {
      var x :| 0 <= x < |keys| && keys[x] == j;
      var y :| 0 <= y < |keys| && keys[y] == k;
      assert if x < y then Places(vs[x]) !! Places(vs[y]) else Places(vs[y]) !! Places(vs[x]);
    }
  }

  /** They can be settled one after the other. */
  lemma ListedSettles(keys: seq<string>, vs: seq<Val>, entries: map<string, Val>)
    requires Listed(keys, vs, entries) && NoDup(keys) && Apart(MapV(entries)) && Followed(MapV(entries))
    ensures AllApart(vs)
    ensures forall i | 0 <= i < |vs| :: vs[i] < MapV(entries) && Followed(vs[i]) && Places(vs[i]) <= Places(MapV(entries))
  {
    ListedPlaces(keys, vs, entries);
    hide Places;
  }

  /** The entries of a map in some order. */
  method Enumerate(entries: map<string, Val>) returns (keys: seq<string>, vs: seq<Val>)
    ensures NoDup(keys) && Listed(keys, vs, entries)
  {
    keys, vs := [], [];
    var todo := entries.Keys;
    while todo != {}
      invariant todo <= entries.Keys && NoDup(keys) && SetOf(keys) == entries.Keys - todo
      invariant |vs| == |keys| && forall i | 0 <= i < |keys| :: keys[i] in entries && vs[i] == entries[keys[i]]
    {
      var k :| k in todo;
      todo := todo - {k};
      AppendNew(keys, k);
      keys, vs := keys + [k], vs + [entries[k]];
    }
    forall k | k in entries ensures exists i :: 0 <= i < |keys| && keys[i] == k {
      assert k in SetOf(keys);
    }
  }

  function Zipped(keys: seq<string>, vs: seq<Val>): map<string, Val>
    requires NoDup(keys) && |vs| == |keys|
  {
    map i | 0 <= i < |keys| :: keys[i] := vs[i]
  }

  lemma ZippedListed(keys: seq<string>, vs: seq<Val>, entries: map<string, Val>, out: seq<Val>)
    requires NoDup(keys) && Listed(keys, vs, entries) && |out| == |keys|
    ensures Listed(keys, out, Zipped(keys, out)) && Zipped(keys, out).Keys == entries.Keys
  {}

  method SettleEntries(h: Heap, next: nat, entries: map<string, Val>)
    returns (h': Heap, next': nat, ss: map<string, Val>)
    requires Apart(MapV(entries)) && Followed(MapV(entries)) && Places(MapV(entries)) <= h.Keys
    requires forall a | a in h :: a < next
    ensures Put(h, next, MapV(entries), h', next', MapV(ss))
    decreases MapV(entries), 1
  {
    var keys, vs := Enumerate(entries);
    ListedSettles(keys, vs, entries);
    hide Apart, Followed, Places, Put, PutAll, AllApart;
    var out;
    h', next', out := SettleAll(h, next, vs, MapV(entries));
    PutAllLength(h, next, vs, h', next', out);
    ss := Zipped(keys, out);
    ZippedListed(keys, vs, entries, out);
    EntriesPut(h, next, entries, keys, vs, h', next', out, ss);
  }

  lemma EntryPut(h: Heap, next: nat, entries: map<string, Val>, keys: seq<string>, vs: seq<Val>,
                 h': Heap, next': nat, out: seq<Val>, ss: map<string, Val>, k: string)
    requires Listed(keys, vs, entries) && Listed(keys, out, ss) && PutAll(h, next, vs, h', next', out) && k in ss && k in entries
    ensures Backed(h', ss[k]) && Apart(ss[k]) && Settled(ss[k]) && Becomes(entries[k], ss[k], h'.Keys - h.Keys)
    ensures Places(ss[k]) <= Places(MapV(entries)) + (h'.Keys - h.Keys)
  {
    var i :| 0 <= i < |keys| && keys[i] == k;
    ListedPlaces(keys, vs, entries);
    hide Backed, Apart, Settled, Becomes, Places;
  }

  lemma EntriesFrame(h: Heap, next: nat, entries: map<string, Val>, keys: seq<string>, vs: seq<Val>,
                     h': Heap, next': nat, out: seq<Val>, a: nat)
    requires Listed(keys, vs, entries) && PutAll(h, next, vs, h', next', out)
    requires a in h && a !in Places(MapV(entries))
    ensures a in h' && h'[a] == h[a]
  {
    ListedPlaces(keys, vs, entries);
    hide Backed, Apart, Settled, Becomes, Places;
  }

  lemma EntriesPut(h: Heap, next: nat, entries: map<string, Val>, keys: seq<string>, vs: seq<Val>,
                   h': Heap, next': nat, out: seq<Val>, ss: map<string, Val>)
    requires Listed(keys, vs, entries) && Listed(keys, out, ss) && ss.Keys == entries.Keys
    requires PutAll(h, next, vs, h', next', out)
    ensures Put(h, next, MapV(entries), h', next', MapV(ss))
  {
    ListedApart(keys, out, ss);
    hide Apart, Listed;
    forall k | k in ss
      ensures Backed(h', ss[k]) && Settled(ss[k]) && Becomes(entries[k], ss[k], h'.Keys - h.Keys)
      ensures Places(ss[k]) <= Places(MapV(entries)) + (h'.Keys - h.Keys)
    {
      EntryPut(h, next, entries, keys, vs, h', next', out, ss, k);
    }
    forall a | a in h && a !in Places(MapV(entries)) ensures a in h' && h'[a] == h[a] {
      EntriesFrame(h, next, entries, keys, vs, h', next', out, a);
    }
  }

  lemma PutAllLength(h: Heap, next: nat, vs: seq<Val>, h': Heap, next': nat, out: seq<Val>)
    requires PutAll(h, next, vs, h', next', out)
    ensures |out| == |vs|
  {}

  lemma SeqPut(h: Heap, next: nat, vs: seq<Val>, h': Heap, next': nat, ss: seq<Val>)
    requires PutAll(h, next, vs, h', next', ss)
    ensures Put(h, next, SliceV(vs), h', next', SliceV(ss)) && Put(h, next, Struct(vs), h', next', Struct(ss))
  {
    var all := Places(SliceV(vs));
    assert Places(Struct(vs)) == all && Places(Struct(ss)) == Places(SliceV(ss));
    forall i | 0 <= i < |vs| ensures Places(vs[i]) <= all {}
    forall i | 0 <= i < |ss| ensures Places(ss[i]) <= all + (h'.Keys - h.Keys) {}
    assert forall a | a in h && a !in all :: h'[a] == h[a];
  }

  /// ## Following a destination

  /** Reads a variable with everything behind its pointers. */
  method Follow(h: Heap, f: Val, ghost v: Val) returns (r: Val)
    requires f == Flat(v) && Backed(h, v) && Settled(v)
    ensures r == v
    decreases v, 1
  {
    match f
    case Struct(fields) =>
      var rs := FollowAll(h, fields, v.fields, v);
      r := Struct(rs);
    case Ref(addr) =>
      var to := Follow(h, h[addr], v.to);
      r := Own(addr, to);
    case MapV(entries) =>
      var todo, rs := entries.Keys, map[];
      while todo != {}
        invariant todo <= entries.Keys && rs.Keys == entries.Keys - todo
        invariant forall k | k in rs :: rs[k] == v.entries[k]
      {
        var k :| k in todo;
        var to := Follow(h, entries[k], v.entries[k]);
        rs, todo := rs[k := to], todo - {k};
      }
      r := MapV(rs);
    case SliceV(elems) =>
      var rs := FollowAll(h, elems, v.elems, v);
      r := SliceV(rs);
    case _ => r := f;
  }

  method FollowAll(h: Heap, fs: seq<Val>, ghost vs: seq<Val>, ghost whole: Val) returns (rs: seq<Val>)
    requires |fs| == |vs|
    requires forall i | 0 <= i < |fs| :: vs[i] < whole && fs[i] == Flat(vs[i]) && Backed(h, vs[i]) && Settled(vs[i])
    ensures rs == vs
    decreases whole, 0
  {
    rs := [];
    for i := 0 to |fs|
      invariant rs == vs[..i]
    {
      var r := Follow(h, fs[i], vs[i]);
      rs := rs + [r];
    }
  }

  /// ## After a bind

  /** Putting a bound destination back changes no place that was not walked. */
  lemma {:induction false} UnwalkedKept(v: Val, w: Val, s: Val, walks: set<nat>, added: set<nat>, h: Heap, h': Heap, a: nat)
    requires Evolves(v, w, walks, {}) && Becomes(w, s, added)
    requires Backed(h, v) && Settled(v) && Backed(h', s) && a in Places(w) && a !in walks
    ensures a in h && a in h' && h'[a] == h[a]
  {
    if w == v {
      BecomesItself(v, s, added);
      BackedSame(h, h', v, a);
    } else if v.Struct? && Places(w) != {} {
      var i :| 0 <= i < |w.fields| && a in Places(w.fields[i]);
      UnwalkedKept(v.fields[i], w.fields[i], s.fields[i], walks, added, h, h', a);
    } else {
      UnwalkedKept(v.to, w.to, s.to, walks, added, h, h', a);
    }
  }

  lemma {:induction false} BecomesItself(v: Val, s: Val, added: set<nat>)
    requires Settled(v) && Becomes(v, s, added)
    ensures s == v
  {
    match v
    case Struct(fields) =>
      forall i | 0 <= i < |fields| ensures s.fields[i] == fields[i] {
        BecomesItself(fields[i], s.fields[i], added);
      }
      assert s.fields == fields;
    case Own(_, to) => BecomesItself(to, s.to, added);
    case MapV(entries) =>
      forall k | k in entries ensures s.entries[k] == entries[k] {
        BecomesItself(entries[k], s.entries[k], added);
      }
      assert s.entries == entries;
    case SliceV(elems) =>
      forall i | 0 <= i < |elems| ensures s.elems[i] == elems[i] {
        BecomesItself(elems[i], s.elems[i], added);
      }
      assert s.elems == elems;
    case _ =>
  }

  /** A value in memory is flat like another one exactly if it was before its new pointers got places. */
  lemma {:induction false} FlatIff(w: Val, s: Val, v: Val, added: set<nat>)
    requires Becomes(w, s, added) && Settled(v) && Places(v) !! added && Followed(w)
    ensures Flat(s) == Flat(v) <==> Flat(w) == Flat(v)
  {
    match w
    case Struct(fields) =>
      if v.Struct? && |v.fields| == |fields| {
        forall i | 0 <= i < |fields| ensures Flat(s.fields[i]) == Flat(v.fields[i]) <==> Flat(fields[i]) == Flat(v.fields[i]) {
          assert Places(v.fields[i]) <= Places(v);
          FlatIff(fields[i], s.fields[i], v.fields[i], added);
        }
        SeqsFlat(s.fields, v.fields);
        SeqsFlat(fields, v.fields);
      }
    case MapV(entries) =>
      if v.MapV? && v.entries.Keys == entries.Keys {
        forall k | k in entries ensures Flat(s.entries[k]) == Flat(v.entries[k]) <==> Flat(entries[k]) == Flat(v.entries[k]) {
          assert Places(v.entries[k]) <= Places(v);
          FlatIff(entries[k], s.entries[k], v.entries[k], added);
        }
        MapsFlat(s.entries, v.entries);
        MapsFlat(entries, v.entries);
      } else if v.MapV? {
        assert Flat(w).entries.Keys == entries.Keys == Flat(s).entries.Keys;
        assert Flat(v).entries.Keys == v.entries.Keys;
      }
    case SliceV(elems) =>
      if v.SliceV? && |v.elems| == |elems| {
        forall i | 0 <= i < |elems| ensures Flat(s.elems[i]) == Flat(v.elems[i]) <==> Flat(elems[i]) == Flat(v.elems[i]) {
          assert Places(v.elems[i]) <= Places(v);
          FlatIff(elems[i], s.elems[i], v.elems[i], added);
        }
        SeqsFlat(s.elems, v.elems);
        SeqsFlat(elems, v.elems);
      }
    case _ =>
  }

  lemma SeqsFlat(a: seq<Val>, b: seq<Val>)
    requires |a| == |b|
    ensures Flat(Struct(a)) == Flat(Struct(b)) <==> forall i | 0 <= i < |a| :: Flat(a[i]) == Flat(b[i])
    ensures Flat(SliceV(a)) == Flat(SliceV(b)) <==> forall i | 0 <= i < |a| :: Flat(a[i]) == Flat(b[i])
  {
    var fa, fb := Flat(Struct(a)).fields, Flat(Struct(b)).fields;
    assert fa == Flat(SliceV(a)).elems && fb == Flat(SliceV(b)).elems;
    assert forall i | 0 <= i < |a| :: fa[i] == Flat(a[i]) && fb[i] == Flat(b[i]);
  }

  lemma MapsFlat(a: map<string, Val>, b: map<string, Val>)
    requires a.Keys == b.Keys
    ensures Flat(MapV(a)) == Flat(MapV(b)) <==> forall k | k in a :: Flat(a[k]) == Flat(b[k])
  {
    var fa, fb := Flat(MapV(a)).entries, Flat(MapV(b)).entries;
    assert fa.Keys == a.Keys && fb.Keys == b.Keys;
    assert forall k | k in a :: fa[k] == Flat(a[k]) && fb[k] == Flat(b[k]);
  }

  /** Exactly when a bind leaves every place of the caller's memory as it was: when what it put behind each
      pointer is what was there. */
  lemma {:induction false} MemoryKeptIff(v: Val, w: Val, s: Val, walks: set<nat>, added: set<nat>, h: Heap, h': Heap)
    requires Evolves(v, w, walks, {}) && Becomes(w, s, added) && Followed(w)
    requires Backed(h, v) && Settled(v) && Backed(h', s) && h.Keys !! added
    ensures (forall a | a in Places(w) :: a in h && a in h' && h'[a] == h[a]) <==> Backed(h, w)
  {
    if w == v {
      BecomesItself(v, s, added);
      forall a | a in Places(v) ensures a in h && a in h' && h'[a] == h[a] {
        BackedSame(h, h', v, a);
      }
    } else if Places(w) == {} {
      NoPlacesBacked(h, w);
    } else if v.Struct? {
      forall i | 0 <= i < |w.fields|
        ensures (forall a | a in Places(w.fields[i]) :: a in h && a in h' && h'[a] == h[a]) <==> Backed(h, w.fields[i])
      {
        MemoryKeptIff(v.fields[i], w.fields[i], s.fields[i], walks, added, h, h');
      }
      assert forall i | 0 <= i < |w.fields| :: Places(w.fields[i]) <= Places(w);
    } else {
      MemoryKeptIff(v.to, w.to, s.to, walks, added, h, h');
      BackedPlaces(h, v.to);
      FlatIff(w.to, s.to, v.to, added);
    }
  }

  lemma {:induction false} NoPlacesBacked(h: Heap, w: Val)
    requires Places(w) == {}
    ensures Backed(h, w)
  {
    match w
    case Struct(fields) =>
      forall i | 0 <= i < |fields| ensures Backed(h, fields[i]) {
        assert Places(fields[i]) <= Places(w);
        NoPlacesBacked(h, fields[i]);
      }
    case New(to) => NoPlacesBacked(h, to);
    case MapV(entries) =>
      forall k | k in entries ensures Backed(h, entries[k]) {
        assert Places(entries[k]) <= Places(w);
        NoPlacesBacked(h, entries[k]);
      }
    case SliceV(elems) =>
      forall i | 0 <= i < |elems| ensures Backed(h, elems[i]) {
        assert Places(elems[i]) <= Places(w);
        NoPlacesBacked(h, elems[i]);
      }
    case _ =>
  }

  /// ## After a bind that failed

  /** What the caller's variable leads to once the copy is dropped: its own fields as before, and behind its
      pointers what the copy left there. */
  ghost function Restored(v: Val, s: Val): Val {
    if v.Struct? && s.Struct? && |v.fields| == |s.fields| then
      Struct(seq(|v.fields|, i requires 0 <= i < |v.fields| => Restored(v.fields[i], s.fields[i])))
    else if v.Own? && s.Own? && v.addr == s.addr then s
    else v
  }

  /** The variable still holds a destination, though what is behind its walked pointers has changed. */
  lemma {:induction false} RestoredHolds(v: Val, s: Val, walks: set<nat>, added: set<nat>, h: Heap, h': Heap, all: set<nat>)
    requires Evolves(v, s, walks, added) && h.Keys !! added
    requires Backed(h, v) && Apart(v) && Settled(v)
    requires Backed(h', s) && Apart(s) && Settled(s)
    requires Places(v) * all <= Places(s) && forall a | a in h && a !in all :: a in h' && h'[a] == h[a]
    ensures var r := Restored(v, s);
            Holds(h', Flat(v), r) && Places(r) <= Places(v) + (Places(s) * added)
  {
    BackedPlaces(h, v);
    if v.Struct? && s.Struct? && |v.fields| == |s.fields| {
      forall i | 0 <= i < |v.fields|
        ensures Holds(h', Flat(v.fields[i]), Restored(v.fields[i], s.fields[i]))
        ensures Places(Restored(v.fields[i], s.fields[i])) <= Places(v.fields[i]) + (Places(s.fields[i]) * added)
      {
        RestoredField(v, s, walks, added, all, i);
        RestoredHolds(v.fields[i], s.fields[i], walks, added, h, h', all);
      }
      RestoredStruct(v, s, added, h, h');
    } else if v.Own? && s.Own? && v.addr == s.addr {
      EvolvesPlaces(v, s, walks, added);
    } else if s != v {
      forall a | a in Places(v) ensures a in h' && h'[a] == h[a] {
        assert a !in Places(s);
      }
      BackedFrame(h, h', v);
    }
  }

  /** What the hypothesis about the places put back says of one field. */
  lemma RestoredField(v: Val, s: Val, walks: set<nat>, added: set<nat>, all: set<nat>, i: nat)
    requires v.Struct? && s.Struct? && |v.fields| == |s.fields| && i < |v.fields| && Evolves(v, s, walks, added)
    requires Apart(v) && Places(v) !! added && Places(v) * all <= Places(s)
    ensures Evolves(v.fields[i], s.fields[i], walks, added) && Places(v.fields[i]) * all <= Places(s.fields[i])
  {
    FieldsEvolve(v, s, walks, added, i);
    forall a | a in Places(v.fields[i]) && a in all ensures a in Places(s.fields[i]) {
      assert a in Places(v) && a in Places(s);
      var j :| 0 <= j < |s.fields| && a in Places(s.fields[j]);
      FieldsEvolve(v, s, walks, added, j);
      EvolvesPlaces(v.fields[j], s.fields[j], walks, added);
    }
  }

  lemma RestoredStruct(v: Val, s: Val, added: set<nat>, h: Heap, h': Heap)
    requires v.Struct? && s.Struct? && |v.fields| == |s.fields| && Apart(v) && Apart(s) && Places(v) !! added
    requires Backed(h, v)
    requires forall i | 0 <= i < |v.fields| ::
               && Holds(h', Flat(v.fields[i]), Restored(v.fields[i], s.fields[i]))
               && Places(Restored(v.fields[i], s.fields[i])) <= Places(v.fields[i]) + (Places(s.fields[i]) * added)
    ensures Holds(h', Flat(v), Restored(v, s)) && Places(Restored(v, s)) <= Places(v) + (Places(s) * added)
  {
    var r := Restored(v, s);
    assert forall i | 0 <= i < |v.fields| :: r.fields[i] == Restored(v.fields[i], s.fields[i]);
    FieldsWithin(v);
    FieldsWithin(s);
    StructHolds(h', v.fields, r.fields);
    forall i, j | 0 <= i < j < |v.fields| ensures Places(r.fields[i]) !! Places(r.fields[j]) {
      hide Backed, Settled, Flat, Restored, Holds;
      TwoApart(Places(v.fields[i]), Places(v.fields[j]), Places(s.fields[i]), Places(s.fields[j]), added,
               Places(r.fields[i]), Places(r.fields[j]));
    }
    hide Backed, Settled, Flat, Restored;
    forall i | 0 <= i < |r.fields| ensures Places(r.fields[i]) <= Places(v) + (Places(s) * added) {
      hide Apart, Holds;
      assert Places(v.fields[i]) <= Places(v) && Places(s.fields[i]) <= Places(s);
    }
    FieldsTogether(r, Places(v) + (Places(s) * added));
    assert v == Struct(v.fields) && r == Struct(r.fields) && AllApart(r.fields);
    assert Apart(r);
  }

  lemma TwoApart(v: set<nat>, w: set<nat>, s: set<nat>, t: set<nat>, added: set<nat>, q: set<nat>, r: set<nat>)
    requires v !! w && s !! t && v !! added && w !! added && q <= v + (s * added) && r <= w + (t * added)
    ensures q !! r
  {}

  lemma FieldsWithin(v: Val)
    requires v.Struct?
    ensures forall i | 0 <= i < |v.fields| :: Places(v.fields[i]) <= Places(v)
  {}

  lemma FieldsTogether(v: Val, all: set<nat>)
    requires v.Struct? && forall i | 0 <= i < |v.fields| :: Places(v.fields[i]) <= all
    ensures Places(v) <= all
  {}

  lemma StructHolds(h: Heap, vs: seq<Val>, rs: seq<Val>)
    requires |vs| == |rs| && forall i | 0 <= i < |vs| :: Holds(h, Flat(vs[i]), rs[i])
    ensures Flat(Struct(vs)) == Flat(Struct(rs)) && Backed(h, Struct(rs)) && Settled(Struct(rs))
    ensures forall i | 0 <= i < |rs| :: Apart(rs[i])
  {
    SeqsFlat(vs, rs);
  }

  lemma FieldsEvolve(v: Val, s: Val, walks: set<nat>, added: set<nat>, i: nat)
    requires v.Struct? && s.Struct? && |v.fields| == |s.fields| && i < |v.fields| && Evolves(v, s, walks, added)
    ensures Evolves(v.fields[i], s.fields[i], walks, added)
  {
    if Places(s) <= added {
      assert Places(s.fields[i]) <= Places(s);
    }
  }

  /** A bind and then putting it back, as one change. */
  lemma {:induction false} EvolvesBecomes(v: Val, w: Val, s: Val, walks: set<nat>, added: set<nat>)
    requires Evolves(v, w, walks, {}) && Becomes(w, s, added) && Settled(v)
    requires Places(s) <= Places(w) + added
    ensures Evolves(v, s, walks, added)
  {
    if w == v {
      BecomesItself(v, s, added);
    } else if Places(w) == {} {
    } else if v.Struct? {
      forall i | 0 <= i < |v.fields| ensures Evolves(v.fields[i], s.fields[i], walks, added) {
        BecomesPlaces(w.fields[i], s.fields[i], added);
        EvolvesBecomes(v.fields[i], w.fields[i], s.fields[i], walks, added);
      }
    } else {
      BecomesPlaces(w.to, s.to, added);
      EvolvesBecomes(v.to, w.to, s.to, walks, added);
    }
  }

  lemma {:induction false} BecomesPlaces(w: Val, s: Val, added: set<nat>)
    requires Becomes(w, s, added)
    ensures Places(s) <= Places(w) + added
  {
    match w
    case Struct(fields) =>
      forall i | 0 <= i < |fields| ensures Places(s.fields[i]) <= Places(w) + added {
        BecomesPlaces(fields[i], s.fields[i], added);
        assert Places(fields[i]) <= Places(w);
      }
    case Own(_, to) => BecomesPlaces(to, s.to, added);
    case New(to) => BecomesPlaces(to, s.to, added);
    case MapV(entries) =>
      forall k | k in entries ensures Places(s.entries[k]) <= Places(w) + added {
        BecomesPlaces(entries[k], s.entries[k], added);
        assert Places(entries[k]) <= Places(w);
      }
    case SliceV(elems) =>
      forall i | 0 <= i < |elems| ensures Places(s.elems[i]) <= Places(w) + added {
        BecomesPlaces(elems[i], s.elems[i], added);
        assert Places(elems[i]) <= Places(w);
      }
    case _ =>
  }

  /** The places of the caller stay the places of the caller. */
  lemma {:induction false} BecomesKeeps(w: Val, s: Val, added: set<nat>)
    requires Becomes(w, s, added)
    ensures Places(w) <= Places(s)
  {
    match w
    case Struct(fields) =>
      forall i | 0 <= i < |fields| ensures Places(fields[i]) <= Places(s) {
        BecomesKeeps(fields[i], s.fields[i], added);
        assert Places(s.fields[i]) <= Places(s);
      }
    case Own(_, to) => BecomesKeeps(to, s.to, added);
    case New(to) => BecomesKeeps(to, s.to, added);
    case MapV(entries) =>
      forall k | k in entries ensures Places(entries[k]) <= Places(s) {
        BecomesKeeps(entries[k], s.entries[k], added);
        assert Places(s.entries[k]) <= Places(s);
      }
    case SliceV(elems) =>
      forall i | 0 <= i < |elems| ensures Places(elems[i]) <= Places(s) {
        BecomesKeeps(elems[i], s.elems[i], added);
        assert Places(s.elems[i]) <= Places(s);
      }
    case _ =>
  }

  /** A variable and its memory hold one destination only. */
  lemma {:induction false} HoldsOnce(h: Heap, h': Heap, f: Val, v: Val, w: Val)
    requires f == Flat(v) == Flat(w) && Backed(h, v) && Backed(h', w) && Settled(v) && Settled(w)
    requires forall a | a in h :: a in h' && h'[a] == h[a]
    ensures v == w
    decreases v
  {
    match v
    case Struct(fields) =>
      forall i | 0 <= i < |fields| ensures fields[i] == w.fields[i] {
        assert Flat(v).fields[i] == Flat(w).fields[i];
        HoldsOnce(h, h', Flat(fields[i]), fields[i], w.fields[i]);
      }
      assert fields == w.fields;
    case Own(_, to) => HoldsOnce(h, h', Flat(to), to, w.to);
    case MapV(entries) =>
      assert entries.Keys == Flat(v).entries.Keys == Flat(w).entries.Keys == w.entries.Keys;
      forall k | k in entries ensures entries[k] == w.entries[k] {
        assert Flat(v).entries[k] == Flat(w).entries[k];
        HoldsOnce(h, h', Flat(entries[k]), entries[k], w.entries[k]);
      }
      assert entries == w.entries;
    case SliceV(elems) =>
      forall i | 0 <= i < |elems| ensures elems[i] == w.elems[i] {
        assert Flat(v).elems[i] == Flat(w).elems[i];
        HoldsOnce(h, h', Flat(elems[i]), elems[i], w.elems[i]);
      }
      assert elems == w.elems;
    case _ =>
  }
}
