/** The KeePass driver of flexvault/driver/keepass: groups of entries, where names may repeat and the first
    match counts. The file is a snapshot of the database and a rename one atomic step; how a file is
    decrypted is abstract. */
module Keepass {
  import opened Text
  import opened Address
  import opened Vault

  /** An entry is a list of named values; the first of a name counts. */
  datatype Entry = Entry(values: seq<(string, string)>)
  datatype Group = Group(name: string, entries: seq<Entry>)

  /** The root groups of a database file; the first one is used. */
  datatype Database = Database(roots: seq<seq<Group>>)

  /** What is fixed: settings, and the outside world's answers. */
  datatype Setting = Setting(
    pathGiven: bool, readOnly: bool, hasKeyFile: bool, keyFileReads: bool,
    opens: bool,                    // the database file can be opened
    decodes: string -> Decoding,    // what decoding with this password gives
    saves: nat -> bool)             // whether the n-th save succeeds

  datatype Decoding = Decoded | WrongKey | Corrupt

  /** The driver's state and the file. */
  datatype State = State(setting: Setting, configured: bool, file: Database, db: Option<Database>, saved: nat)

  /// ## Searching

  function First<T>(xs: seq<T>, name: T -> string, want: string): (r: Option<nat>)
    ensures r.Some? ==> r.value < |xs| && name(xs[r.value]) == want && forall i | 0 <= i < r.value :: name(xs[i]) != want
    ensures r.None? ==> forall i | 0 <= i < |xs| :: name(xs[i]) != want
  {
    if xs == [] then None
    else if name(xs[0]) == want then Some(0)
    else
      match First(xs[1..], name, want)
      case None => None
      case Some(i) => assert forall j | 0 < j <= i :: xs[j] == xs[1..][j - 1]; Some(i + 1)
  }

  function Field(e: Entry, name: string): Option<nat> {
    First(e.values, (v: (string, string)) => v.0, name)
  }

  function Content(e: Entry, name: string): string {
    if Field(e, name).Some? then e.values[Field(e, name).value].1 else ""
  }

  function Title(e: Entry): string {
    Content(e, "Title")
  }

  function Password(e: Entry): string {
    Content(e, "Password")
  }

  function FindGroup(gs: seq<Group>, ns: string): Option<nat> {
    First(gs, (g: Group) => g.name, ns)
  }

  function FindEntry(g: Group, key: string): Option<nat> {
    First(g.entries, (e: Entry) => Title(e), key)
  }

  /** The value at an address, if there is one. */
  function Lookup(gs: seq<Group>, ns: string, key: string): Option<string> {
    match FindGroup(gs, ns)
    case None => None
    case Some(g) =>
      match FindEntry(gs[g], key)
      case None => None
      case Some(e) => Some(Password(gs[g].entries[e]))
  }

  /// ## Writing

  function WithPassword(e: Entry, value: string): Entry {
    match Field(e, "Password")
    case Some(i) => Entry(e.values[i := ("Password", value)])
    case None => Entry(e.values + [("Password", value)])
  }

  function WithEntry(g: Group, key: string, value: string): Group {
    match FindEntry(g, key)
    case Some(i) => Group(g.name, g.entries[i := WithPassword(g.entries[i], value)])
    case None => Group(g.name, g.entries + [Entry([("Title", key), ("Password", value)])])
  }

  function Written(gs: seq<Group>, ns: string, key: string, value: string): seq<Group> {
    match FindGroup(gs, ns)
    case Some(i) => gs[i := WithEntry(gs[i], key, value)]
    case None => gs + [WithEntry(Group(ns, []), key, value)]
  }

  function GroupNames(gs: seq<Group>): seq<string> {
    seq(|gs|, i requires 0 <= i < |gs| => gs[i].name)
  }

  function Titles(gs: seq<Group>, ns: string): seq<string> {
    match FindGroup(gs, ns)
    case None => []
    case Some(g) => TitlesOf(gs[g])
  }

  function TitlesOf(g: Group): seq<string> {
    seq(|g.entries|, i requires 0 <= i < |g.entries| => Title(g.entries[i]))
  }

  /// ## What a write does

  /** The first match is unique: it is where the search says. */
  lemma FirstIs<T>(xs: seq<T>, name: T -> string, want: string, i: nat)
    requires i < |xs| && name(xs[i]) == want && forall j | 0 <= j < i :: name(xs[j]) != want
    ensures First(xs, name, want) == Some(i)
  {}

  lemma FirstNone<T>(xs: seq<T>, name: T -> string, want: string)
    requires forall j | 0 <= j < |xs| :: name(xs[j]) != want
    ensures First(xs, name, want) == None
  {}

  /** Replacing an element by one of the same name, or appending one of a new name, keeps every search. */
  lemma FirstKept<T>(xs: seq<T>, ys: seq<T>, name: T -> string, want: string)
    requires |xs| <= |ys| && forall j | 0 <= j < |xs| :: name(xs[j]) == name(ys[j])
    requires forall j | |xs| <= j < |ys| :: name(ys[j]) != want
    ensures First(ys, name, want) == First(xs, name, want)
  {
    match First(xs, name, want)
    case Some(i) => FirstIs(ys, name, want, i);
    case None => FirstNone(ys, name, want);
  }

  lemma PasswordWritten(e: Entry, value: string)
    ensures Password(WithPassword(e, value)) == value && Title(WithPassword(e, value)) == Title(e)
  {
    var name := (v: (string, string)) => v.0;
    var e' := WithPassword(e, value);
    FirstKept(e.values, e'.values, name, "Title");
    match Field(e, "Password")
    case Some(i) => FirstIs(e'.values, name, "Password", i);
    case None => FirstIs(e'.values, name, "Password", |e.values|);
  }

  lemma NewEntry(key: string, value: string)
    ensures var e := Entry([("Title", key), ("Password", value)]); Title(e) == key && Password(e) == value
  {
    var e := Entry([("Title", key), ("Password", value)]);
    var name := (v: (string, string)) => v.0;
    FirstIs(e.values, name, "Title", 0);
    FirstIs(e.values, name, "Password", 1);
  }

  /** A group after a write: the key has the value, other keys keep theirs, and the titles grow by the key
      if it was not there. Only the first entry of the title is touched. */
  lemma EntryWritten(g: Group, key: string, value: string, other: string)
    ensures var g' := WithEntry(g, key, value);
            && g'.name == g.name
            && FindEntry(g', key).Some? && Password(g'.entries[FindEntry(g', key).value]) == value
            && (other != key ==>
                  && FindEntry(g', other) == FindEntry(g, other)
                  && (FindEntry(g, other).Some? ==>
                        g'.entries[FindEntry(g, other).value] == g.entries[FindEntry(g, other).value]))
            && |g'.entries| == |g.entries| + (if FindEntry(g, key).None? then 1 else 0)
            && (forall i | 0 <= i < |g.entries| && Some(i) != FindEntry(g, key) :: g'.entries[i] == g.entries[i])
            && (forall i | 0 <= i < |g.entries| :: Title(g'.entries[i]) == Title(g.entries[i]))
            && (FindEntry(g, key).None? ==> Title(g'.entries[|g.entries|]) == key)
  {
    var title := (e: Entry) => Title(e);
    var g' := WithEntry(g, key, value);
    NewEntry(key, value);
    match FindEntry(g, key)
    case Some(i) =>
      PasswordWritten(g.entries[i], value);
      hide Title, Password, WithPassword;
      FirstKept(g.entries, g'.entries, title, key);
      FirstKept(g.entries, g'.entries, title, other);
    case None =>
      hide Title, Password, WithPassword;
      FirstIs(g'.entries, title, key, |g.entries|);
      if other != key {
        FirstKept(g.entries, g'.entries, title, other);
      }
  }

  /** After a write the address gives the value and every other address what it gave before. */
  lemma LookupWritten(gs: seq<Group>, ns: string, key: string, value: string, ns2: string, key2: string)
    ensures var gs' := Written(gs, ns, key, value);
            Lookup(gs', ns2, key2) == if ns2 == ns && key2 == key then Some(value) else Lookup(gs, ns2, key2)
  {
    var name := (g: Group) => g.name;
    var gs' := Written(gs, ns, key, value);
    var old_ := if FindGroup(gs, ns).Some? then gs[FindGroup(gs, ns).value] else Group(ns, []);
    EntryWritten(old_, key, value, key2);
    hide WithEntry, FindEntry, Password;
    match FindGroup(gs, ns)
    case Some(i) =>
      FirstKept(gs, gs', name, ns2);
    case None =>
      FirstIs(gs', name, ns, |gs|);
      if ns2 != ns {
        FirstKept(gs, gs', name, ns2);
      } else {
        NothingIn(ns, key2);
      }
  }

  lemma NothingIn(ns: string, key: string)
    ensures FindEntry(Group(ns, []), key) == None
  {}

  lemma TitlesWritten(g: Group, key: string, value: string)
    ensures TitlesOf(WithEntry(g, key, value)) == TitlesOf(g) + (if FindEntry(g, key).None? then [key] else [])
  {
    EntryWritten(g, key, value, key);
    hide WithEntry, FindEntry, Password, Title;
  }

  lemma NamesWritten(gs: seq<Group>, ns: string, key: string, value: string)
    ensures GroupNames(Written(gs, ns, key, value)) == GroupNames(gs) + (if FindGroup(gs, ns).None? then [ns] else [])
  {
    hide FindEntry;
  }

  /** Listing grows by exactly what was missing. */
  lemma ListingWritten(gs: seq<Group>, ns: string, key: string, value: string, ns2: string)
    ensures var gs' := Written(gs, ns, key, value);
            && GroupNames(gs') == GroupNames(gs) + (if FindGroup(gs, ns).None? then [ns] else [])
            && Titles(gs', ns2) == Titles(gs, ns2) + (if ns2 == ns && Lookup(gs, ns, key).None? then [key] else [])
  {
    var name := (g: Group) => g.name;
    var gs' := Written(gs, ns, key, value);
    var old_ := if FindGroup(gs, ns).Some? then gs[FindGroup(gs, ns).value] else Group(ns, []);
    NamesWritten(gs, ns, key, value);
    TitlesWritten(old_, key, value);
    NothingIn(ns, key);
    assert TitlesOf(Group(ns, [])) == [];
    hide FindEntry, Password, Title, TitlesOf, GroupNames;
    match FindGroup(gs, ns)
    case Some(i) =>
      FirstKept(gs, gs', name, ns2);
    case None =>
      FirstIs(gs', name, ns, |gs|);
      if ns2 != ns {
        FirstKept(gs, gs', name, ns2);
      }
  }

  /** What can be looked up is what is listed. */
  lemma ListedIff(gs: seq<Group>, ns: string, key: string)
    ensures Lookup(gs, ns, key).Some? <==> key in Titles(gs, ns)
    ensures Lookup(gs, ns, key).Some? ==> ns in GroupNames(gs)
  {
    hide Title, Password;
    match FindGroup(gs, ns)
    case None =>
    case Some(g) =>
      assert GroupNames(gs)[g] == ns;
      if FindEntry(gs[g], key).Some? {
        assert TitlesOf(gs[g])[FindEntry(gs[g], key).value] == key;
      }
  }

  /** Groups that are not the first of their name, and in the group written every entry but the one written,
      are as they were. */
  lemma ShadowedUntouched(gs: seq<Group>, ns: string, key: string, value: string, i: nat)
    requires i < |gs|
    ensures var gs' := Written(gs, ns, key, value);
            && (FindGroup(gs, ns) != Some(i) ==> gs'[i] == gs[i])
            && (FindGroup(gs, ns) == Some(i) ==>
                  forall j | 0 <= j < |gs[i].entries| && Some(j) != FindEntry(gs[i], key) ::
                    gs'[i].entries[j] == gs[i].entries[j])
  {
    EntryWritten(gs[i], key, value, key);
  }

  /// ## The driver's operations

  function Configured(k: State): (Option<Error>, State) {
    if k.setting.pathGiven then (None, k.(configured := true)) else (Some({}), k)
  }

  function Credentials(k: State): seq<Request> {
    [Request("password", k.setting.hasKeyFile)]
  }

  function Unlocked(k: State, answers: Answers): (Option<Error>, State) {
    var password := if "password" in answers then answers["password"] else "";
    if !k.configured then (Some({ErrNotConfigured}), k)
    else if !k.setting.opens then (Some({}), k)
    else if !k.setting.hasKeyFile && password == "" then (Some({ErrAuth}), k)
    else if k.setting.hasKeyFile && !k.setting.keyFileReads then (Some({}), k)
    else
      match k.setting.decodes(password)
      case WrongKey => (Some({ErrAuth}), k)
      case Corrupt => (Some({}), k)
      case Decoded => (None, k.(db := Some(k.file)))
  }

  /** The root group's groups, or why there are none. */
  function Root(k: State): Result<seq<Group>, Error> {
    if k.db.None? then Err({ErrLocked})
    else if k.db.value.roots == [] then Err({})
    else Ok(k.db.value.roots[0])
  }

  function Got(k: State, addr: string): Result<string, Error> {
    if Root(k).Err? then Err(Root(k).error)
    else
      match ParseAddress(addr)
      case None => Err({})
      case Some((ns, key)) =>
        match Lookup(Root(k).value, ns, key)
        case None => Err({ErrNotFound})
        case Some(v) => Ok(v)
  }

  /** A write changes the database in memory even if saving it fails. */
  function Stored(k: State, addr: string, value: string): (Option<Error>, State) {
    if Root(k).Err? then (Some(Root(k).error), k)
    else if k.setting.readOnly then (Some({ErrReadOnly}), k)
    else
      match ParseAddress(addr)
      case None => (Some({}), k)
      case Some((ns, key)) =>
        var db := Database(k.db.value.roots[0 := Written(Root(k).value, ns, key, value)]);
        if k.setting.saves(k.saved) then (None, State(k.setting, k.configured, db, Some(db), k.saved + 1))
        else (Some({}), State(k.setting, k.configured, k.file, Some(db), k.saved + 1))
  }

  function Listed(k: State, ns: string): Result<seq<string>, Error> {
    if Root(k).Err? then Err(Root(k).error)
    else if ns == "" then Ok(GroupNames(Root(k).value))
    else Ok(Titles(Root(k).value, ns))
  }

  function Locked(k: State): State {
    k.(db := None)
  }

  /** The driver, as a Manager drives it. */
  function AsDriver(): Driver<State> {
    Driver(
      (k: State) => Configured(k),
      (k: State) => Credentials(k),
      (k: State, answers: Answers) => Unlocked(k, answers),
      (k: State, addr: string) => (Got(k, addr), k),
      (k: State, addr: string, value: string) => Stored(k, addr, value),
      (k: State, ns: string) => (Listed(k, ns), k),
      (k: State) => (None, Locked(k)))
  }

  class KeepassDriver {
    const setting: Setting
    var configured: bool
    var file: Database           // what is on disk
    var db: Option<Database>     // the decrypted database; None when locked
    var saved: nat

    constructor (setting: Setting, file: Database)
      ensures Now() == State(setting, false, file, None, 0)
    {
      this.setting, configured, this.file, db, saved := setting, false, file, None, 0;
    }

    ghost function Now(): State
      reads this
    {
      State(setting, configured, file, db, saved)
    }

    method Configure() returns (err: Option<Error>)
      modifies this`configured
      ensures (err, Now()) == Configured(old(Now()))
      ensures (err.None? <==> setting.pathGiven) && (configured <==> old(configured) || setting.pathGiven)
    {
      if !setting.pathGiven {
        return Some({});
      }
      configured := true;
      err := None;
    }

    method Unlock(answers: Answers) returns (err: Option<Error>)
      modifies this`db
      ensures (err, Now()) == Unlocked(old(Now()), answers)
    {
      if !configured {
        return Some({ErrNotConfigured});
      }
      if !setting.opens {
        return Some({});
      }
      var password := if "password" in answers then answers["password"] else "";
      if !setting.hasKeyFile && password == "" {
        return Some({ErrAuth});
      }
      if setting.hasKeyFile && !setting.keyFileReads {
        return Some({});
      }
      var decoding := setting.decodes(password);
      if decoding.WrongKey? {
        return Some({ErrAuth});
      }
      if decoding.Corrupt? {
        return Some({});
      }
      db := Some(file);
      err := None;
    }

    method Lock()
      modifies this`db
      ensures Now() == Locked(old(Now()))
    {
      db := None;
    }

    static method FindGroupIn(gs: seq<Group>, ns: string) returns (r: Option<nat>)
      ensures r == FindGroup(gs, ns)
    {
      var name := (g: Group) => g.name;
      for i := 0 to |gs|
        invariant forall j | 0 <= j < i :: gs[j].name != ns
      {
        if gs[i].name == ns {
          FirstIs(gs, name, ns, i);
          return Some(i);
        }
      }
      FirstNone(gs, name, ns);
      r := None;
    }

    static method FindEntryIn(g: Group, key: string) returns (r: Option<nat>)
      ensures r == FindEntry(g, key)
    {
      var title := (e: Entry) => Title(e);
      for i := 0 to |g.entries|
        invariant forall j | 0 <= j < i :: Title(g.entries[j]) != key
      {
        if Title(g.entries[i]) == key {
          FirstIs(g.entries, title, key, i);
          return Some(i);
        }
      }
      FirstNone(g.entries, title, key);
      r := None;
    }

    method Get(addr: string) returns (r: Result<string, Error>)
      ensures r == Got(Now(), addr)
    {
      if db.None? {
        return Err({ErrLocked});
      }
      if db.value.roots == [] {
        return Err({});
      }
      var a := ParseAddress(addr);
      if a.None? {
        return Err({});
      }
      var gs := db.value.roots[0];
      var g := FindGroupIn(gs, a.value.0);
      if g.None? {
        return Err({ErrNotFound});
      }
      var e := FindEntryIn(gs[g.value], a.value.1);
      if e.None? {
        return Err({ErrNotFound});
      }
      r := Ok(Password(gs[g.value].entries[e.value]));
    }

    /** Creates the group and the entry where they are missing, and overwrites the first match where they are
        not. */
    static method Write(was: seq<Group>, ns: string, key: string, value: string) returns (gs: seq<Group>)
      ensures gs == Written(was, ns, key, value)
    {
      gs := was;
      var found := FindGroupIn(gs, ns);
      var g: nat;
      if found.None? {
        g := |gs|;
        gs := gs + [Group(ns, [])];
      } else {
        g := found.value;
      }
      var e := FindEntryIn(gs[g], key);
      var entries := gs[g].entries;
      if e.Some? {
        var entry := entries[e.value];
        var i := Field(entry, "Password");
        if i.Some? {
          entry := Entry(entry.values[i.value := ("Password", value)]);
        } else {
          entry := Entry(entry.values + [("Password", value)]);
        }
        entries := entries[e.value := entry];
      } else {
        entries := entries + [Entry([("Title", key), ("Password", value)])];
      }
      gs := gs[g := Group(gs[g].name, entries)];
    }

    /** Writes the value into the database in memory, and saves. */
    method Set(addr: string, value: string) returns (err: Option<Error>)
      modifies this
      ensures (err, Now()) == Stored(old(Now()), addr, value)
    {
      if db.None? {
        return Some({ErrLocked});
      }
      if db.value.roots == [] {
        return Some({});
      }
      if setting.readOnly {
        return Some({ErrReadOnly});
      }
      var a := ParseAddress(addr);
      if a.None? {
        return Some({});
      }
      var gs := Write(db.value.roots[0], a.value.0, a.value.1, value);
      hide Written;
      db := Some(Database(db.value.roots[0 := gs]));
      err := Save();
    }

    /** Writes the database to a temporary file that replaces the real one, or fails and leaves it. */
    method Save() returns (err: Option<Error>)
      requires db.Some?
      modifies this`file, this`saved
      ensures saved == old(saved) + 1
      ensures if setting.saves(old(saved)) then err.None? && file == db.value else err == Some({}) && file == old(file)
    {
      saved := saved + 1;
      if setting.saves(saved - 1) {
        file := db.value;
        return None;
      }
      err := Some({});
    }

    method List(ns: string) returns (r: Result<seq<string>, Error>)
      ensures r == Listed(Now(), ns)
    {
      if db.None? {
        return Err({ErrLocked});
      }
      if db.value.roots == [] {
        return Err({});
      }
      var gs := db.value.roots[0];
      if ns == "" {
        var names := [];
        for i := 0 to |gs|
          invariant names == GroupNames(gs)[..i]
        {
          names := names + [gs[i].name];
        }
        assert GroupNames(gs)[..|gs|] == GroupNames(gs);
        return Ok(names);
      }
      var g := FindGroupIn(gs, ns);
      if g.None? {
        return Ok([]);
      }
      var keys := [];
      for i := 0 to |gs[g.value].entries|
        invariant keys == TitlesOf(gs[g.value])[..i]
      {
        keys := keys + [Title(gs[g.value].entries[i])];
      }
      assert TitlesOf(gs[g.value])[..|gs[g.value].entries|] == TitlesOf(gs[g.value]);
      r := Ok(keys);
    }
  }

  /// ## Whole runs

  datatype Event =
    | Opening(answers: Answers) | Closing | Reading(addr: string) | Writing(addr: string, value: string)
    | Listing(ns: string)

  datatype Report = Done | Value(value: string) | Names(names: seq<string>)

  /** What an event reports, and the state it leaves. */
  function Step(k: State, ev: Event): (Result<Report, Error>, State) {
    match ev
    case Opening(answers) =>
      var (err, k') := Unlocked(k, answers);
      (if err.None? then Ok(Done) else Err(err.value), k')
    case Closing => (Ok(Done), Locked(k))
    case Reading(addr) => (match Got(k, addr) case Ok(v) => Ok(Value(v)) case Err(e) => Err(e), k)
    case Writing(addr, value) =>
      var (err, k') := Stored(k, addr, value);
      (if err.None? then Ok(Done) else Err(err.value), k')
    case Listing(ns) => (match Listed(k, ns) case Ok(names) => Ok(Names(names)) case Err(e) => Err(e), k)
  }

  function Run(k: State, evs: seq<Event>): State {
    if evs == [] then k else Step(Run(k, evs[..|evs| - 1]), evs[|evs| - 1]).1
  }

  /** The i-th event was a write that succeeded. */
  predicate SavedAt(k: State, evs: seq<Event>, i: nat) {
    i < |evs| && evs[i].Writing? && Step(Run(k, evs[..i]), evs[i]).0.Ok?
  }

  /** Only a write that succeeds changes the file. */
  lemma FileStep(k: State, ev: Event)
    ensures var (r, k') := Step(k, ev);
            if ev.Writing? && r.Ok? then Some(k'.file) == k'.db else k'.file == k.file
  {
    hide Written, ParseAddress;
  }

  /** The file is the database in memory as of the last write that succeeded, whatever happened since. */
  lemma {:induction false} FileIsLastSaved(k: State, evs: seq<Event>, i: nat)
    requires SavedAt(k, evs, i) && forall j | i < j < |evs| :: !SavedAt(k, evs, j)
    ensures Some(Run(k, evs).file) == Run(k, evs[..i + 1]).db
  {
    hide Step;
    var init := evs[..|evs| - 1];
    FileStep(Run(k, init), evs[|init|]);
    if i == |init| {
      assert evs[..i + 1] == evs && evs[..i] == init;
    } else {
      assert forall j | 0 <= j < |evs| :: init[..j] == evs[..j];
      assert forall j | i <= j < |init| :: SavedAt(k, init, j) <==> SavedAt(k, evs, j);
      FileIsLastSaved(k, init, i);
      assert init[..i + 1] == evs[..i + 1];
      assert !SavedAt(k, evs, |init|);
    }
  }

  /** Until a write succeeds the file stays what it was. */
  lemma {:induction false} FileUntouched(k: State, evs: seq<Event>)
    requires forall j | 0 <= j < |evs| :: !SavedAt(k, evs, j)
    ensures Run(k, evs).file == k.file
  {
    hide Step;
    if evs != [] {
      var init := evs[..|evs| - 1];
      assert forall j | 0 <= j < |evs| :: init[..j] == evs[..j];
      assert forall j | 0 <= j < |init| :: SavedAt(k, init, j) <==> SavedAt(k, evs, j);
      FileUntouched(k, init);
      assert !SavedAt(k, evs, |init|);
      FileStep(Run(k, init), evs[|init|]);
    }
  }

  /// ## The store refines a map

  /** A map, with the groups and the keys of each group in the order in which they came. */
  datatype Store = Store(values: map<(string, string), string>, groups: seq<string>, keys: map<string, seq<string>>)
  {
    function KeysOf(ns: string): seq<string> {
      if ns in keys then keys[ns] else []
    }
  }

  /** The store in memory while open, and on disk. */
  datatype Spec = Spec(memory: Option<Store>, disk: Store)

  ghost predicate Shows(db: Database, m: Store) {
    && db.roots != [] && GroupNames(db.roots[0]) == m.groups
    && (forall ns, key ::
          Lookup(db.roots[0], ns, key) == if (ns, key) in m.values then Some(m.values[(ns, key)]) else None)
    && forall ns :: Titles(db.roots[0], ns) == m.KeysOf(ns)
  }

  ghost predicate Refines(k: State, s: Spec) {
    && k.configured && Shows(k.file, s.disk)
    && (k.db.Some? <==> s.memory.Some?) && (k.db.Some? ==> Shows(k.db.value, s.memory.value))
  }

  /** A value written: what is new comes last. */
  function Put(m: Store, ns: string, key: string, value: string): Store {
    Store(m.values[(ns, key) := value],
          if ns in m.groups then m.groups else m.groups + [ns],
          if (ns, key) in m.values then m.keys else m.keys[ns := m.KeysOf(ns) + [key]])
  }

  /** The map's own steps. `outcome` is that of an opening, `saves` whether a save succeeds. */
  function SpecStep(s: Spec, ev: Event, outcome: Option<Error>, readOnly: bool, saves: bool): (Result<Report, Error>, Spec) {
    match ev
    case Opening(_) => if outcome.None? then (Ok(Done), Spec(Some(s.disk), s.disk)) else (Err(outcome.value), s)
    case Closing => (Ok(Done), Spec(None, s.disk))
    case Reading(addr) =>
      (if s.memory.None? then Err({ErrLocked})
       else if ParseAddress(addr).None? then Err({})
       else if ParseAddress(addr).value in s.memory.value.values then Ok(Value(s.memory.value.values[ParseAddress(addr).value]))
       else Err({ErrNotFound}), s)
    case Writing(addr, value) =>
      if s.memory.None? then (Err({ErrLocked}), s)
      else if readOnly then (Err({ErrReadOnly}), s)
      else if ParseAddress(addr).None? then (Err({}), s)
      else
        var m := Put(s.memory.value, ParseAddress(addr).value.0, ParseAddress(addr).value.1, value);
        if saves then (Ok(Done), Spec(Some(m), m)) else (Err({}), Spec(Some(m), s.disk))
    case Listing(ns) =>
      (if s.memory.None? then Err({ErrLocked})
       else Ok(Names(if ns == "" then s.memory.value.groups else s.memory.value.KeysOf(ns))), s)
  }

  lemma GroupIsNamed(gs: seq<Group>, ns: string)
    ensures FindGroup(gs, ns).Some? <==> ns in GroupNames(gs)
  {
    var names := GroupNames(gs);
    assert |names| == |gs| && forall i | 0 <= i < |gs| :: names[i] == gs[i].name;
    if ns in names {
      var i :| 0 <= i < |names| && names[i] == ns;
    }
  }

  lemma ShowsWritten(db: Database, m: Store, ns: string, key: string, value: string)
    requires Shows(db, m)
    ensures Shows(Database(db.roots[0 := Written(db.roots[0], ns, key, value)]), Put(m, ns, key, value))
  {
    hide Lookup, Written, Titles, FindGroup, GroupNames;
    var gs, m' := db.roots[0], Put(m, ns, key, value);
    var gs' := Written(gs, ns, key, value);
    GroupIsNamed(gs, ns);
    assert Lookup(gs, ns, key).Some? <==> (ns, key) in m.values;
    forall ns2, key2
      ensures Lookup(gs', ns2, key2) == if (ns2, key2) in m'.values then Some(m'.values[(ns2, key2)]) else None
    {
      LookupWritten(gs, ns, key, value, ns2, key2);
    }
    forall ns2 ensures Titles(gs', ns2) == m'.KeysOf(ns2) {
      ListingWritten(gs, ns, key, value, ns2);
      assert Titles(gs, ns2) == m.KeysOf(ns2);
    }
    ListingWritten(gs, ns, key, value, ns);
  }

  /** Every step of the driver is a step of the map, with the same report: duplicate groups and titles do
      not show. */
  lemma StepRefines(k: State, s: Spec, ev: Event)
    requires Refines(k, s)
    ensures var outcome := if ev.Opening? then Unlocked(k, ev.answers).0 else None;
            var (r, k') := Step(k, ev);
            var (rs, s') := SpecStep(s, ev, outcome, k.setting.readOnly, k.setting.saves(k.saved));
            r == rs && Refines(k', s')
  {
    hide Written, Lookup, Titles, GroupNames, Put, Shows;
    if k.db.Some? {
      ShowsRoot(k.db.value, s.memory.value);
    }
    if ev.Writing? && k.db.Some? && ParseAddress(ev.addr).Some? {
      var (ns, key) := ParseAddress(ev.addr).value;
      ShowsWritten(k.db.value, s.memory.value, ns, key, ev.value);
    }
  }

  /** The map's run beside the driver's, with the driver's saves and openings. */
  function SpecRun(k: State, s: Spec, evs: seq<Event>): Spec {
    if evs == [] then s
    else
      var init, ev := evs[..|evs| - 1], evs[|evs| - 1];
      var before := Run(k, init);
      SpecStep(SpecRun(k, s, init), ev, if ev.Opening? then Unlocked(before, ev.answers).0 else None,
               before.setting.readOnly, before.setting.saves(before.saved)).1
  }

  /** Over every run the store is a map: each read gives what the map holds, and each listing its groups or
      keys, in the order in which they came. */
  lemma {:induction false} RunRefines(k: State, s: Spec, evs: seq<Event>, ev: Event)
    requires Refines(k, s)
    ensures var m := SpecRun(k, s, evs);
            && Refines(Run(k, evs), m)
            && (ev.Reading? || ev.Listing? ==> Step(Run(k, evs), ev).0 == SpecStep(m, ev, None, false, false).0)
  {
    hide Step, SpecStep, Refines;
    if evs != [] {
      var init := evs[..|evs| - 1];
      RunRefines(k, s, init, ev);
      StepRefines(Run(k, init), SpecRun(k, s, init), evs[|evs| - 1]);
    }
    StepRefines(Run(k, evs), SpecRun(k, s, evs), ev);
    if ev.Reading? || ev.Listing? {
      LookingIsStep(SpecRun(k, s, evs), ev);
    }
  }

  lemma LookingIsStep(s: Spec, ev: Event)
    requires ev.Reading? || ev.Listing?
    ensures forall ro, saves :: SpecStep(s, ev, None, ro, saves) == SpecStep(s, ev, None, false, false)
  {}

  lemma ShowsRoot(db: Database, m: Store)
    requires Shows(db, m)
    ensures db.roots != [] && GroupNames(db.roots[0]) == m.groups
    ensures forall ns, key :: Lookup(db.roots[0], ns, key) == if (ns, key) in m.values then Some(m.values[(ns, key)]) else None
    ensures forall ns :: Titles(db.roots[0], ns) == m.KeysOf(ns)
  {}

  /** A database without a root group can be neither read nor written nor listed: every access fails without a class, and
      nothing changes. */
  lemma NoRootGroup(k: State, addr: string, value: string, ns: string)
    requires k.db.Some? && k.db.value.roots == []
    ensures Got(k, addr) == Err({}) && Stored(k, addr, value) == (Some({}), k) && Listed(k, ns) == Err({})
  {}

  /// ## A write that fails

  /** Something can be read or listed that could not before, or no more, or not the same. */
  ghost predicate Differs(k: State, k': State) {
    (exists addr :: Got(k', addr) != Got(k, addr)) || exists ns :: Listed(k', ns) != Listed(k, ns)
  }

  /** A write passes every check before the save. */
  predicate Admitted(k: State, addr: string) {
    Root(k).Ok? && !k.setting.readOnly && ParseAddress(addr).Some?
  }

  /** A write that fails is seen exactly if it was admitted, so that it was the save that failed, and the
      value is not the one that was there. */
  lemma FailedWriteIsSeenIff(k: State, addr: string, value: string)
    requires Stored(k, addr, value).0.Some?
    ensures Differs(k, Stored(k, addr, value).1) <==> Admitted(k, addr) && Got(k, addr) != Ok(value)
    ensures Admitted(k, addr) ==> !k.setting.saves(k.saved)
  {
    if Admitted(k, addr) {
      var k' := Stored(k, addr, value).1;
      var (ns, key) := ParseAddress(addr).value;
      var gs := Root(k).value;
      LookupWritten(gs, ns, key, value, ns, key);
      assert Root(k') == Ok(Written(gs, ns, key, value));
      assert Got(k', addr) == Ok(value);
      if Got(k, addr) == Ok(value) {
        SameValueIsNotSeen(k, k', ns, key, value);
      }
    }
  }

  lemma SameValueIsNotSeen(k: State, k': State, ns: string, key: string, value: string)
    requires Root(k).Ok? && Root(k') == Ok(Written(Root(k).value, ns, key, value))
    requires Lookup(Root(k).value, ns, key) == Some(value)
    ensures !Differs(k, k')
  {
    hide Lookup, Written, Titles, GroupNames, FindGroup;
    var gs := Root(k).value;
    forall addr ensures Got(k', addr) == Got(k, addr) {
      if ParseAddress(addr).Some? {
        var (ns2, key2) := ParseAddress(addr).value;
        LookupWritten(gs, ns, key, value, ns2, key2);
      }
    }
    forall ns2 ensures Listed(k', ns2) == Listed(k, ns2) {
      ListingWritten(gs, ns, key, value, ns2);
      FoundInGroup(gs, ns, key);
      var gs' := Written(gs, ns, key, value);
      assert GroupNames(gs') == GroupNames(gs) && Titles(gs', ns2) == Titles(gs, ns2);
    }
  }

  lemma FoundInGroup(gs: seq<Group>, ns: string, key: string)
    ensures Lookup(gs, ns, key).Some? ==> FindGroup(gs, ns).Some?
  {}

  /** It is seen until the vault is locked, and then no more. */
  lemma FailedSaveIsSeenUntilLock(k: State, addr: string, value: string, answers: Answers)
    requires Root(k).Ok? && ParseAddress(addr).Some? && !k.setting.readOnly && !k.setting.saves(k.saved)
    requires k.db == Some(k.file) && Unlocked(k, answers).0.None?
    ensures var (err, k1) := Stored(k, addr, value);
            && err.Some? && Got(k1, addr) == Ok(value)
            && Got(Unlocked(Locked(k1), answers).1, addr) == Got(k, addr)
  {
    var (ns, key) := ParseAddress(addr).value;
    LookupWritten(Root(k).value, ns, key, value, ns, key);
  }
}
