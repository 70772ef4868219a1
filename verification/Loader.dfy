/** Load of flexconf/loader.go: read, check, merge, resolve, bind, swap; or fail, and change nothing but what
    lies behind pointers the bind has followed. */
module Loader {
  import opened Text
  import opened Trees
  import opened Yaml
  import opened Merge
  import opened Schema
  import opened Fields
  import opened Nodes
  import opened Binding
  import opened Variants
  import opened Running
  import opened Agreement
  import opened Events
  import opened Arrangements
  import opened Orders
  import opened Binder
  import opened Walks
  import opened Memory
  import opened UserCode
  import opened Traces
  import opened Panics
  import R = Resolve
  import I = Include

  /** What is at a path: nothing, something unreadable or unparsable, or a document. */
  datatype File = Missing | Unreadable | Document(doc: Doc)

  datatype Disk = Disk(join: (string, string) -> string, read: string -> File)

  /** What a load reads from: directories, lowest precedence first, the files in them and the files they
      include, as they are at that time, and the resolvers. */
  datatype Source = Source(dirs: seq<string>, disk: Disk, st: I.Store, resolver: R.Resolver)

  datatype LoadError =
    | InvalidName | UnsupportedFormat
    | ReadFailed | NotAMap | NoFile
    | IncludeFailed(cause: I.IncludeError)
    | BadShape
    | ResolveFailed(reason: R.Error)
    | BindFailed(error: Running.Error)

  /** A plain file name ending in .yaml or .yml. */
  function NameError(name: string): Option<LoadError> {
    if name == "" || '/' in name || '\\' in name || Contains(name, "..") then Some(InvalidName)
    else if !EndsIn(name, ".yaml") && !EndsIn(name, ".yml") then Some(UnsupportedFormat)
    else None
  }

  predicate EndsIn(s: string, suffix: string) {
    |suffix| <= |s| && s[|s| - |suffix|..] == suffix
  }

  /// ## The meaning of a load up to binding

  /** One directory's copy of the file, expanded; no layer if it is not there. */
  function LayerOf(disk: Disk, st: I.Store, static_: bool, dir: string, name: string): Result<Option<Tree>, LoadError> {
    var path := disk.join(dir, name);
    match disk.read(path)
    case Missing => Ok(None)
    case Unreadable => Err(ReadFailed)
    case Document(doc) =>
      match TreeOf(doc, path)
      case None => Err(ReadFailed)
      case Some(t) =>
        if !t.Map? then Err(NotAMap)
        else if static_ then Ok(Some(t))
        else
          match I.Failure(st, t, dir, [path])
          case Some(e) => Err(IncludeFailed(e))
          case None =>
            match I.Expanded(st, t, dir, [path])
            case None => Err(ReadFailed)    // never: expansion gives a tree unless it fails
            case Some(x) => if x.Map? then Ok(Some(x)) else Err(NotAMap)
  }

  /** The layers, lowest precedence first. */
  function Layers(disk: Disk, st: I.Store, static_: bool, dirs: seq<string>, name: string): Result<seq<Tree>, LoadError> {
    if dirs == [] then Ok([])
    else
      match Layers(disk, st, static_, dirs[..|dirs| - 1], name)
      case Err(e) => Err(e)
      case Ok(below) =>
        match LayerOf(disk, st, static_, dirs[|dirs| - 1], name)
        case Err(e) => Err(e)
        case Ok(None) => Ok(below)
        case Ok(Some(t)) => Ok(below + [t])
  }

  lemma {:induction false} LayersPrefix(disk: Disk, st: I.Store, static_: bool, dirs: seq<string>, name: string, i: nat)
    requires i <= |dirs| && Layers(disk, st, static_, dirs[..i], name).Err?
    ensures Layers(disk, st, static_, dirs, name) == Layers(disk, st, static_, dirs[..i], name)
    decreases |dirs| - i
  {
    if i == |dirs| {
      assert dirs[..i] == dirs;
    } else {
      assert dirs[..i + 1][..i] == dirs[..i];
      LayersPrefix(disk, st, static_, dirs, name, i + 1);
    }
  }

  /** These layers are those of the directories, in their order: each comes from a directory of its own, and every
      other directory has none. */
  ghost predicate FromDirs(disk: Disk, st: I.Store, static_: bool, dirs: seq<string>, name: string, layers: seq<Tree>,
                           at: seq<nat>) {
    && |at| == |layers|
    && (forall i, j | 0 <= i < j < |at| :: at[i] < at[j])
    && (forall i | 0 <= i < |at| ::
          at[i] < |dirs| && LayerOf(disk, st, static_, dirs[at[i]], name) == Ok(Some(layers[i])))
    && forall d: nat | d < |dirs| && d !in at :: LayerOf(disk, st, static_, dirs[d], name) == Ok(None)
  }

  /** The first directory whose file cannot be used is this one. */
  ghost predicate FirstRefused(disk: Disk, st: I.Store, static_: bool, dirs: seq<string>, name: string, d: int) {
    && 0 <= d < |dirs| && LayerOf(disk, st, static_, dirs[d], name).Err?
    && forall c | 0 <= c < d :: LayerOf(disk, st, static_, dirs[c], name).Ok?
  }

  /** The layers are read from the directories in their order, or it is the first that cannot be used that is
      reported. */
  lemma {:induction false} LayersAreFromDirs(disk: Disk, st: I.Store, static_: bool, dirs: seq<string>, name: string)
    returns (at: seq<nat>)
    ensures var r := Layers(disk, st, static_, dirs, name);
            && (r.Ok? ==> FromDirs(disk, st, static_, dirs, name, r.value, at))
            && (r.Err? ==>
                  exists d :: FirstRefused(disk, st, static_, dirs, name, d)
                              && r.error == LayerOf(disk, st, static_, dirs[d], name).error)
  {
    hide LayerOf, FromDirs;
    at := [];
    NoDirs(disk, st, static_, name);
    if dirs != [] {
      var n: nat := |dirs| - 1;
      var init, one := dirs[..n], LayerOf(disk, st, static_, dirs[n], name);
      assert dirs == init + [dirs[n]];
      at := LayersAreFromDirs(disk, st, static_, init, name);
      var below := Layers(disk, st, static_, init, name);
      if below.Err? {
        var d :| FirstRefused(disk, st, static_, init, name, d) && below.error == LayerOf(disk, st, static_, init[d], name).error;
        assert forall c | 0 <= c < n :: init[c] == dirs[c];
        assert FirstRefused(disk, st, static_, dirs, name, d);
      } else if one.Err? {
        EachRead(disk, st, static_, init, name, below.value, at);
        assert forall c | 0 <= c < n :: init[c] == dirs[c];
        assert FirstRefused(disk, st, static_, dirs, name, n);
      } else {
        OneMoreDir(disk, st, static_, init, dirs[n], name, below.value, at);
        at := if one.value.Some? then at + [n] else at;
      }
    }
  }

  /** What reading the directories gives: their layers, in their order, or the error of the first that is refused. */
  ghost predicate ReadInOrder(disk: Disk, st: I.Store, static_: bool, dirs: seq<string>, name: string,
                              r: Result<seq<Tree>, LoadError>) {
    && (r.Ok? ==> exists at :: FromDirs(disk, st, static_, dirs, name, r.value, at))
    && (r.Err? ==>
          exists d :: FirstRefused(disk, st, static_, dirs, name, d)
                      && LayerOf(disk, st, static_, dirs[d], name) == Err(r.error))
  }

  lemma LayersInOrder(disk: Disk, st: I.Store, static_: bool, dirs: seq<string>, name: string)
    ensures ReadInOrder(disk, st, static_, dirs, name, Layers(disk, st, static_, dirs, name))
  {
    hide LayerOf, Layers, FromDirs;
    var at := LayersAreFromDirs(disk, st, static_, dirs, name);
  }

  lemma NoDirs(disk: Disk, st: I.Store, static_: bool, name: string)
    ensures FromDirs(disk, st, static_, [], name, [], [])
  {}

  lemma OneMoreDir(disk: Disk, st: I.Store, static_: bool, dirs: seq<string>, dir: string, name: string, layers: seq<Tree>,
                   at: seq<nat>)
    requires FromDirs(disk, st, static_, dirs, name, layers, at)
    ensures var one := LayerOf(disk, st, static_, dir, name);
            && (one == Ok(None) ==> FromDirs(disk, st, static_, dirs + [dir], name, layers, at))
            && (one.Ok? && one.value.Some? ==>
                  FromDirs(disk, st, static_, dirs + [dir], name, layers + [one.value.value], at + [|dirs|]))
  {
    hide LayerOf;
    var more, longer := dirs + [dir], at + [|dirs|];
    assert forall d: nat | d < |dirs| :: more[d] == dirs[d];
    assert forall d | d in longer :: d in at || d == |dirs|;
    assert forall d | d in at :: d in longer;
    assert longer[|at|] in longer;
  }

  lemma EachRead(disk: Disk, st: I.Store, static_: bool, dirs: seq<string>, name: string, layers: seq<Tree>, at: seq<nat>)
    requires FromDirs(disk, st, static_, dirs, name, layers, at)
    ensures forall d | 0 <= d < |dirs| :: LayerOf(disk, st, static_, dirs[d], name).Ok?
  {
    hide LayerOf;
    forall d: nat | d < |dirs| ensures LayerOf(disk, st, static_, dirs[d], name).Ok? {
      if d in at {
        var i :| 0 <= i < |at| && at[i] == d;
      }
    }
  }

  /** The tree that is bound, or the error of an earlier stage. */
  ghost function Prepared(src: Source, name: string, t: Schema)
    : Result<Tree, LoadError>
  {
    if NameError(name).Some? then Err(NameError(name).value)
    else
      match Layers(src.disk, src.st, src.resolver.static_, src.dirs, name)
      case Err(e) => Err(e)
      case Ok(layers) =>
        if layers == [] then Err(NoFile)
        else if exists i | 0 <= i < |layers| :: !WellShaped(layers[i], t) then Err(BadShape)
        else
          match R.Failure(src.resolver, Fold(layers))
          case Some(e) => Err(ResolveFailed(e))
          case None => Ok(R.Resolved(src.resolver, Fold(layers)))
  }

  /// ## The loader

  /** The caller's struct: a variable, the memory its pointers lead to, with the first address that is free,
      and the variable with everything behind its pointers. */
  class Target {
    var value: Val
    var heap: Heap
    var next: nat
    ghost var view: Val

    constructor (value: Val, heap: Heap, next: nat, ghost view: Val)
      requires Holds(heap, value, view) && forall a | a in heap :: a < next
      ensures Valid() && this.value == value && this.heap == heap && this.view == view
    {
      this.value, this.heap, this.next := value, heap, next;
      this.view := view;
    }

    ghost predicate Valid()
      reads this
    {
      Holds(heap, value, view) && forall a | a in heap :: a < next
    }
  }

  /** The places of one memory hold the same in the other, but for some. */
  ghost predicate SameBut(h: Heap, h': Heap, some: set<nat>) {
    h.Keys <= h'.Keys && forall a | a in h && a !in some :: h'[a] == h[a]
  }

  /** What a load can see and change: the destination, the memory and what is registered. */
  datatype Scene = Scene(value: Val, heap: Heap, next: nat, view: Val, registered: map<nat, seq<Instance>>)

  /** The bind of a load: a function of what there is before it and of the order of visits. */
  ghost function Attempt(env: Env, o: Order, n: Tree, t: Schema, was: Scene): Ran
    requires t.StructT? && n.Map?
  {
    RunStruct(env, o, n, n.children, t, was.view, "", StartSels(was.registered))
  }

  /** What the rest of the load makes of it: what is behind the pointers of the copy is in memory, with each
      pointer of the load at a place that was free; the copy replaces the value, or is dropped; on an error,
      but not on a panic, the registrations are undone. */
  ghost predicate Outcome(r: Ran, was: Scene, err: Option<Running.Error>, left: Val, now: Scene) {
    && err == r.err
    && Put(was.heap, was.next, r.v, now.heap, now.next, left)
    && (err.None? ==>
          now.value == Flat(left) && now.view == left && now.registered == WithLog(was.registered, r.log))
    && (err.Some? ==>
          && now.value == was.value && now.view == Restored(was.view, left)
          && now.registered == if err.value.Panicked? then WithLog(was.registered, r.log) else was.registered)
  }

  class Loader {
    const env: Env
    const regs: map<nat, Registry>   // the registry of each family, as registryFor finds it
    ghost const registries: set<Registry>

    constructor (env: Env, regs: map<nat, Registry>)
      requires regs.Keys == env.families.Keys && FreshVariants(env) && Printable(env)
      requires forall f | f in regs :: regs[f].familyType == f && regs[f].family == env.families[f]
      ensures this.env == env && this.regs == regs && registries == regs.Values && Valid()
    {
      this.env, this.regs := env, regs;
      registries := regs.Values;
    }

    ghost predicate Valid() {
      && regs.Keys == env.families.Keys && FreshVariants(env) && Printable(env)
      && forall f | f in regs ::
           regs[f] in registries && regs[f].familyType == f && regs[f].family == env.families[f]
    }

    ghost function Registered(): map<nat, seq<Instance>>
      requires Valid()
      reads registries
    {
      HeldBy(regs, registries)
    }

    ghost function Now(dst: Target): Scene
      requires Valid()
      reads dst, registries
    {
      Scene(dst.value, dst.heap, dst.next, dst.view, Registered())
    }

    ghost predicate Distinct()
      requires Valid()
      reads registries
    {
      forall f | f in regs :: regs[f].Distinct()
    }

    /** Reads and parses the file in every directory that has it and expands its includes. */
    method ReadLayers(src: Source, name: string) returns (r: Result<seq<Node>, LoadError>, ghost nodes: set<Node>)
      ensures fresh(nodes)
      ensures r.Err? ==> Layers(src.disk, src.st, src.resolver.static_, src.dirs, name) == Err(r.error)
      ensures r.Ok? ==>
        && (forall i | 0 <= i < |r.value| :: r.value[i].Valid() && r.value[i].Repr <= nodes)
        && (forall i, j | 0 <= i < j < |r.value| :: r.value[i].Repr !! r.value[j].Repr)
        && Layers(src.disk, src.st, src.resolver.static_, src.dirs, name) == Ok(TreesOf(r.value))
      ensures ReadInOrder(src.disk, src.st, src.resolver.static_, src.dirs, name,
                          if r.Ok? then Ok(TreesOf(r.value)) else Err(r.error))
    {
      hide Node.Valid, LayerOf, ReadInOrder;
      var layers: seq<Node> := [];
      LayersInOrder(src.disk, src.st, src.resolver.static_, src.dirs, name);
      nodes := {};
      assert src.dirs[..0] == [] && TreesOf(layers) == [];
      for d := 0 to |src.dirs|
        invariant fresh(nodes)
        invariant forall i | 0 <= i < |layers| :: layers[i].Valid() && layers[i].Repr <= nodes
        invariant forall i, j | 0 <= i < j < |layers| :: layers[i].Repr !! layers[j].Repr
        invariant Layers(src.disk, src.st, src.resolver.static_, src.dirs[..d], name) == Ok(TreesOf(layers))
      {
        assert src.dirs[..d + 1][..d] == src.dirs[..d];
        ghost var was := TreesOf(layers);
        var one := ReadLayer(src, src.dirs[d], name);
        if one.Err? {
          LayersPrefix(src.disk, src.st, src.resolver.static_, src.dirs, name, d + 1);
          return Err(one.error), nodes;
        }
        if one.value == null {
          continue;
        }
        layers := layers + [one.value];
        nodes := nodes + one.value.Repr;
        assert TreesOf(layers) == was + [one.value.tree];
      }
      assert src.dirs[..|src.dirs|] == src.dirs;
      r := Ok(layers);
    }

    /** One directory; null when the file is not there. */
    method ReadLayer(src: Source, dir: string, name: string) returns (r: Result<Node?, LoadError>)
      ensures r.Err? ==> LayerOf(src.disk, src.st, src.resolver.static_, dir, name) == Err(r.error)
      ensures r.Ok? && r.value == null ==> LayerOf(src.disk, src.st, src.resolver.static_, dir, name) == Ok(None)
      ensures r.Ok? && r.value != null ==>
        && r.value.Valid() && fresh(r.value.Repr)
        && LayerOf(src.disk, src.st, src.resolver.static_, dir, name) == Ok(Some(r.value.tree))
    {
      hide Node.Sealed, TreeOf, I.Failure, I.Expanded;
      var path := src.disk.join(dir, name);
      var file := src.disk.read(path);
      if file.Missing? {
        return Ok(null);
      }
      if file.Unreadable? {
        return Err(ReadFailed);
      }
      var n := FromYaml(file.doc, path);
      if n == null {
        return Err(ReadFailed);
      }
      n.Open();
      if !n.kind.MapKind? {
        return Err(NotAMap);
      }
      if src.resolver.static_ {
        return Ok(n);
      }
      var chain := new string[1](_ => path);
      assert chain[..1] == [path];
      var e := ExpandIncludes(src.st, n, dir, chain, 1);
      if e.Err? {
        return Err(IncludeFailed(e.error));
      }
      e.value.Open();
      r := if e.value.kind.MapKind? then Ok(e.value) else Err(NotAMap);
    }

    /** Reads the file's layers, checks, merges and resolves them, and binds the result into a copy of the
        target that replaces it only on success. */
    method Load(src: Source, o: Order, name: string, dst: Target, t: Schema)
      returns (err: Option<LoadError>, ghost left: Val)
      requires Valid() && t.StructT? && dst.Valid()
      modifies dst, registries
      ensures dst.Valid()
      ensures var p := Prepared(src, name, t);
              if p.Err? then err == Some(p.error) && Now(dst) == old(Now(dst))
              else
                && p.value.Map? && (err.Some? ==> err.value.BindFailed?)
                && Outcome(Attempt(env, o, p.value, t, old(Now(dst))), old(Now(dst)), Cause(err), left, Now(dst))
                && (Plain(t) && err.Some? ==> Expected(err.value.error))
      ensures Exact(env, old(Registered())) ==> Exact(env, Registered())
      ensures old(Distinct()) ==> Distinct()
    {
      hide Prepared, Attempt, Outcome, Exact, Holds, Expected;
      left := dst.view;
      var p := Prepare(src, name, t);
      if p.Err? {
        return Some(p.error), left;
      }
      var e;
      e, left := BindTree(p.value, o, dst, t);
      err := if e.None? then None else Some(BindFailed(e.value));
    }

    /** Everything before binding. What is bound is a well-formed map that has passed the shape check. */
    method Prepare(src: Source, name: string, t: Schema) returns (r: Result<Tree, LoadError>)
      requires t.StructT?
      ensures r == Prepared(src, name, t)
      ensures r.Ok? ==> r.value.Map? && WF(r.value) && WellShaped(r.value, t)
    {
      hide Node.Valid, Node.Sealed, WellShaped, Fold, R.Failure, R.Resolved, Layers, NameError;
      if NameError(name).Some? {
        return Err(NameError(name).value);
      }
      var read, nodes := ReadLayers(src, name);
      if read.Err? {
        return Err(read.error);
      }
      var layers := read.value;
      if |layers| == 0 {
        return Err(NoFile);
      }
      var shaped := CheckLayers(layers, t);
      if !shaped {
        return Err(BadShape);
      }
      ghost var trees := TreesOf(layers);
      var tree := MergeTrees(layers, nodes);
      var failure := WalkResolve(src.resolver, tree);
      if failure.Some? {
        return Err(ResolveFailed(failure.value));
      }
      PipelineShaped(src.resolver, trees, t);
      ShapedStruct(tree.tree, t);
      TreeWF(tree);
      var merged := ToTree(tree);
      r := Ok(merged);
    }

    method CheckLayers(layers: seq<Node>, t: Schema) returns (ok: bool)
      requires forall i | 0 <= i < |layers| :: layers[i].Valid()
      ensures ok <==> forall i | 0 <= i < |layers| :: WellShaped(TreesOf(layers)[i], t)
    {
      hide Node.Sealed, Node.Valid, WellShaped;
      for i := 0 to |layers|
        invariant forall j | 0 <= j < i :: WellShaped(layers[j].tree, t)
      {
        TreeWF(layers[i]);
        var layer := ToTree(layers[i]);
        ok := ValidateShape(layer, t);
        if !ok {
          assert TreesOf(layers)[i] == layers[i].tree;
          return;
        }
      }
      ok := true;
    }

    /** Binds into a copy, which replaces the target's value on success; on failure the registrations are
        undone, unless the bind is left by a panic. What lies behind the copy's pointers is in memory. */
    method BindTree(n: Tree, o: Order, dst: Target, t: Schema) returns (err: Option<Running.Error>, ghost left: Val)
      requires Valid() && t.StructT? && n.Map? && WF(n) && WellShaped(n, t) && dst.Valid()
      modifies dst, registries
      ensures dst.Valid()
      ensures Outcome(Attempt(env, o, n, t, old(Now(dst))), old(Now(dst)), err, left, Now(dst))
      ensures Plain(t) && err.Some? ==> Expected(err.value)
      ensures Exact(env, old(Registered())) ==> Exact(env, Registered())
      ensures old(Distinct()) ==> Distinct()
    {
      hide Binding.BindStruct, RunStruct, WellShaped, ShapedFields, Plain, Expected, StartSels, Exact, OfFamily, AllBuilt,
           Binder.Valid, HeldBy, WithLog, SelsOf, Binder.Holding, Binder.Listing, Evolves, Agrees, Put, Restored, Flat,
           FreshVariants, Printable, Target.Valid, WF;
      ghost var walks, was := Binding.BindStruct(env, n, n.children, t, dst.view, "").walks, Now(dst);
      ghost var r := Attempt(env, o, n, t, was);
      var copied := Copy(dst);
      var b := new Binder(env, regs, registries);
      NothingUsed(b.start);
      StructRuns(env, o, n, n.children, t, dst.view, "", StartSels(b.start));
      ShapedStruct(n, t);
      MapWF(n);
      var v;
      err, v := b.BindStruct(o, n, n.keys, n.children, t, copied, "");
      assert err == r.err && v == r.v;
      assert b.log == r.log;
      left := PutBack(dst, v, err.None?, walks);
      if err.Some? && !err.value.Panicked? {
        b.Rollback();
        return;
      }
      b.Held();
      if Exact(env, b.start) {
        b.Kept();
      }
    }

    /** Runs loads and clears. However they go, no two instances of a family share a selector set, if its
        registries were empty to begin with. */
    method Run(ops: seq<Op>)
      requires Valid() && forall i | 0 <= i < |ops| ::
                 if ops[i].Loads? then ops[i].t.StructT? && ops[i].dst.Valid() else ops[i].family in regs
      requires GoodFamilies(env)
      requires forall f | f in regs :: regs[f].instances == []
      modifies registries, set i | 0 <= i < |ops| && ops[i].Loads? :: ops[i].dst
      ensures forall f, i, j | f in regs && 0 <= i < j < |regs[f].instances| ::
                regs[f].instances[i].selectors != regs[f].instances[j].selectors
      ensures forall i | 0 <= i < |ops| && ops[i].Loads? :: ops[i].dst.Valid()
    {
      hide Prepared, Outcome, Holds, Built, GoodFamily, EqualSelectors;
      for n := 0 to |ops|
        invariant Exact(env, Registered()) && Distinct()
        invariant forall i | 0 <= i < |ops| && ops[i].Loads? :: ops[i].dst.Valid()
      {
        match ops[n]
        case Loads(src, o, name, dst, t) =>
          var err, left := Load(src, o, name, dst, t);
        case Clears(family) =>
          regs[family].ClearInstances();
      }
      forall f, i, j | f in regs && 0 <= i < j < |regs[f].instances|
        ensures regs[f].instances[i].selectors != regs[f].instances[j].selectors
      {
        var insts := Registered()[f];
        BuiltEqual(env.families[f], insts[i].selectors, insts[j].selectors);
      }
    }
  }

  datatype Op = Loads(src: Source, order: Order, name: string, dst: Target, t: Schema) | Clears(family: nat)

  /** The error of the bind that a load reports. */
  function Cause(err: Option<LoadError>): Option<Running.Error> {
    if err.Some? && err.value.BindFailed? then Some(err.value.error) else None
  }

  lemma NothingUsed(start: map<nat, seq<Instance>>)
    ensures StartSels(start) + SelsOf([]) == StartSels(start)
  {}

  /** The temporary copy, with everything behind its pointers. */
  method Copy(dst: Target) returns (v: Val)
    requires dst.Valid()
    ensures v == dst.view
  {
    v := Follow(dst.heap, dst.value, dst.view);
  }

  /** Writes what is behind the pointers of a bound copy into memory; on success the copy replaces the value. */
  method PutBack(dst: Target, v: Val, ok: bool, ghost walks: set<nat>) returns (ghost left: Val)
    requires dst.Valid() && Evolves(dst.view, v, walks, {})
    modifies dst
    ensures dst.Valid() && Put(old(dst.heap), old(dst.next), v, dst.heap, dst.next, left)
    ensures ok ==> dst.value == Flat(left) && dst.view == left
    ensures !ok ==> dst.value == old(dst.value) && dst.view == Restored(old(dst.view), left)
  {
    hide Evolves, Backed, Becomes, Restored, SameBut, Flat, Holds, Put;
    ghost var h, next, view := dst.heap, dst.next, dst.view;
    CopySettles(h, dst.value, view, v, walks);
    var s;
    dst.heap, dst.next, s := Settle(dst.heap, dst.next, v);
    left := s;
    CopySettled(h, next, dst.value, view, v, s, walks, dst.heap, dst.next);
    if ok {
      dst.value, dst.view := Flat(s), s;
    } else {
      dst.view := Restored(view, s);
    }
  }

  /** A bound copy can be put back into memory. */
  lemma CopySettles(h: Heap, f: Val, view: Val, v: Val, walks: set<nat>)
    requires Holds(h, f, view) && Evolves(view, v, walks, {})
    ensures Apart(v) && Followed(v) && Places(v) <= h.Keys
  {
    SettledFollowed(view);
    EvolvesApart(view, v, walks);
    EvolvesPlaces(view, v, walks, {});
    BackedPlaces(h, view);
  }

  /** Afterwards memory has changed nowhere but at the places walked, and holds both the copy and the variable. */
  lemma CopySettled(h: Heap, next: nat, f: Val, view: Val, v: Val, s: Val, walks: set<nat>, h': Heap, next': nat)
    requires Holds(h, f, view) && Evolves(view, v, walks, {}) && Put(h, next, v, h', next', s) && Followed(v)
    ensures SameBut(h, h', walks) && (SameBut(h, h', {}) <==> Backed(h, v))
    ensures Holds(h', Flat(s), s) && forall a | a in h' :: a < next'
    ensures Holds(h', f, Restored(view, s)) && (SameBut(h, h', {}) ==> Restored(view, s) == view)
  {
    var added := h'.Keys - h.Keys;
    forall a | a in h && a !in walks ensures h'[a] == h[a] {
      if a in Places(v) {
        UnwalkedKept(view, v, s, walks, added, h, h', a);
      }
    }
    BackedPlaces(h, view);
    EvolvesPlaces(view, v, walks, {});
    MemoryKeptIff(view, v, s, walks, added, h, h');
    assert SameBut(h, h', {}) <==> forall a | a in Places(v) :: a in h && a in h' && h'[a] == h[a];
    EvolvesBecomes(view, v, s, walks, added);
    BecomesKeeps(v, s, added);
    RestoredHolds(view, s, walks, added, h, h', Places(v));
    if SameBut(h, h', {}) {
      HoldsOnce(h, h', f, view, Restored(view, s));
    }
  }

  /// ## All or nothing

  /** A load that is refused restores the value, and the registrations unless it panics. It changes nothing at
      all exactly if the copy, as the bind leaves it in this order of visits, holds behind each pointer what was
      there: that can be told from the tree, the destination and the order before the load. */
  lemma AllOrNothingIff(env: Env, o: Order, n: Tree, t: Schema, was: Scene, err: Option<Running.Error>, left: Val, now: Scene)
    requires t.StructT? && n.Map? && FreshVariants(env) && Holds(was.heap, was.value, was.view)
    requires Outcome(Attempt(env, o, n, t, was), was, err, left, now) && err.Some?
    ensures now.value == was.value && (!err.value.Panicked? ==> now.registered == was.registered)
    ensures now.view == was.view && SameBut(was.heap, now.heap, {}) <==> Backed(was.heap, Attempt(env, o, n, t, was).v)
  {
    MemoryAfter(env, o, n, t, was, err, left, now);
    hide Attempt, FreshVariants, Holds, Backed, Put, Restored, SameBut;
  }

  /** Memory changes at most where the bind walks. */
  lemma MemoryAfter(env: Env, o: Order, n: Tree, t: Schema, was: Scene, err: Option<Running.Error>, left: Val, now: Scene)
    requires t.StructT? && n.Map? && FreshVariants(env) && Holds(was.heap, was.value, was.view)
    requires Outcome(Attempt(env, o, n, t, was), was, err, left, now)
    ensures SameBut(was.heap, now.heap, Binding.BindStruct(env, n, n.children, t, was.view, "").walks)
    ensures SameBut(was.heap, now.heap, {}) <==> Backed(was.heap, Attempt(env, o, n, t, was).v)
    ensures SameBut(was.heap, now.heap, {}) ==> Restored(was.view, left) == was.view
  {
    var r, walks := Attempt(env, o, n, t, was), Binding.BindStruct(env, n, n.children, t, was.view, "").walks;
    StructRuns(env, o, n, n.children, t, was.view, "", StartSels(was.registered));
    hide Binding.BindStruct, RunStruct, FreshVariants, Holds, Backed, Put, Restored, SameBut, Evolves, Agrees;
    CopySettles(was.heap, was.value, was.view, r.v, walks);
    CopySettled(was.heap, was.next, was.value, was.view, r.v, left, walks, now.heap, now.next);
  }

  /** Where only the hook of the whole can refuse, the order does not matter to that. */
  lemma RefusalLeavesNothingIff(env: Env, o: Order, n: Tree, t: Schema, was: Scene, err: Option<Running.Error>, left: Val,
                                now: Scene)
    requires GoodStruct(t) && n.Map? && FreshVariants(env) && Holds(was.heap, was.value, was.view) && KeysFit(t, n.children)
    requires BindFields(env, n, n.children, t, FieldVals(env, was.view, t), |t.fields|, "").ok
    requires End(StartSels(was.registered), EventsOf(o, Binding.BindStruct(env, n, n.children, t, was.view, "").plan)).None?
    requires Outcome(Attempt(env, o, n, t, was), was, err, left, now)
    ensures var w := Struct(BindFields(env, n, n.children, t, FieldVals(env, was.view, t), |t.fields|, "").vals);
            && (err.None? <==> env.hook(t.name, w))
            && (err.Some? ==> (now.view == was.view && SameBut(was.heap, now.heap, {}) <==> Backed(was.heap, w)))
  {
    UpToTheHook(env, o, n, n.children, t, was.view, "", StartSels(was.registered));
    if err.Some? {
      AllOrNothingIff(env, o, n, t, was, err, left, now);
    }
    hide Binding.BindStruct, BindFields, RunStruct, FreshVariants, Holds, Backed, Put, Restored, SameBut, FieldVals, GoodStruct,
         KeysFit, End;
  }

  /** A load that is refused changes nothing at all, whatever the file, the order and what is registered, if no key
      leads through a pointer of the destination to a place that can be changed. */
  lemma AllOrNothing(env: Env, o: Order, n: Tree, t: Schema, was: Scene, err: Option<Running.Error>, left: Val, now: Scene)
    requires t.StructT? && n.Map? && WF(n) && WellShaped(n, t) && FreshVariants(env) && Holds(was.heap, was.value, was.view)
    requires Outcome(Attempt(env, o, n, t, was), was, err, left, now) && err.Some?
    requires Writable(env, t, was.view, "") == {}
    ensures now.value == was.value && now.view == was.view && SameBut(was.heap, now.heap, {})
    ensures !err.value.Panicked? ==> now.registered == was.registered
  {
    var code := Code(env.coerce, env.scalarHook, env.hook);
    assert With(env, code) == env;
    ValueQuiet(was.heap, env, code, o, n, t, was.view, "", StartSels(was.registered));
    AllOrNothingIff(env, o, n, t, was, err, left, now);
    hide RunStruct, Writable, FreshVariants, Holds, Backed, Put, Restored, SameBut;
  }

  /** And it is needed: if there is such a key, some tree that has passed the shape check, some user code, some order
      and some registered instances make a load into this destination fail and change memory. */
  lemma SomeLoadLeavesTraceIff(env: Env, t: Schema, was: Scene)
    requires t.StructT? && FreshVariants(env) && Holds(was.heap, was.value, was.view)
    ensures (exists code, o, n, registered | WF(n) && n.Map? && WellShaped(n, t) ::
               FailsWithTrace(With(env, code), o, n, t, was.(registered := registered)))
            <==> Writable(env, t, was.view, "") != {}
  {
    hide Writable, FreshVariants, RunStruct, Backed;
    if code, o, n, registered :| WF(n) && n.Map? && WellShaped(n, t)
                                 && FailsWithTrace(With(env, code), o, n, t, was.(registered := registered)) {
      assert Leaves(was.heap, env, code, o, n, t, was.view, "", StartSels(registered));
      TraceIff(was.heap, env, t, was.view, "");
    }
    if Writable(env, t, was.view, "") != {} {
      var a :| a in Writable(env, t, was.view, "");
      var code, o, n := TraceWitness(was.heap, env, t, was.view, "", a);
      assert StartSels(map[]) == {};
      ValueIsStruct(With(env, code), o, n, t, was.view, "", {});
      assert FailsWithTrace(With(env, code), o, n, t, was.(registered := map[]));
    }
  }

  ghost predicate FailsWithTrace(env: Env, o: Order, n: Tree, t: Schema, was: Scene)
    requires t.StructT? && n.Map?
  {
    Attempt(env, o, n, t, was).err.Some? && !Backed(was.heap, Attempt(env, o, n, t, was).v)
  }

  lemma ValueIsStruct(env: Env, o: Order, n: Tree, t: Schema, v: Val, path: string, used: set<Sel>)
    requires t.StructT? && n.Map?
    ensures RunValue(env, o, n, t, v, path, used) == RunStruct(env, o, n, n.children, t, v, path, used)
  {
    hide RunStruct;
  }

  /// ## Panics

  /** A load that fails undoes its registrations, whatever the file, the order and what is registered, if the type
      leads to no variant that can panic. */
  lemma RegistrationsUndone(env: Env, o: Order, n: Tree, t: Schema, was: Scene, err: Option<Running.Error>, left: Val, now: Scene)
    requires t.StructT? && n.Map? && WF(n) && FreshVariants(env) && !Panicky(env, t)
    requires Outcome(Attempt(env, o, n, t, was), was, err, left, now) && err.Some?
    ensures !err.value.Panicked? && now.registered == was.registered
  {
    hide RunStruct, FreshVariants, Panicky, Put, Restored, Flat, WithLog, StartSels, WF;
    NeverPanics(env, o, n, t, was.view, "", StartSels(was.registered));
    ValueIsStruct(env, o, n, t, was.view, "", StartSels(was.registered));
  }

  /** And only then: otherwise some tree that has passed the shape check, some user code, some order and some
      registered instances make a load into this destination end in a panic. */
  lemma SomeLoadPanicsIff(env: Env, t: Schema, was: Scene)
    requires t.StructT? && FreshVariants(env)
    ensures (exists code, o, n, registered | WF(n) && n.Map? && WellShaped(n, t) ::
               Panicking(With(env, code), o, n, t, was.(registered := registered)))
            <==> Panicky(env, t)
  {
    hide RunStruct, FreshVariants, Panicky, WF, WellShaped;
    PanicsIff(env, t, was.view, "");
    if code, o, n, registered :| WF(n) && n.Map? && WellShaped(n, t)
                                 && Panicking(With(env, code), o, n, t, was.(registered := registered)) {
      ValueIsStruct(With(env, code), o, n, t, was.view, "", StartSels(registered));
      assert RunValue(With(env, code), o, n, t, was.view, "", StartSels(registered)).err == Some(Panicked);
    }
    if Panicky(env, t) {
      var f, name, depth := SomePanicky(env, t);
      var code, o, n := PanicWitness(env, t, was.view, "", f, name, depth);
      ShapedStruct(n, t);
      assert StartSels(map[]) == {};
      ValueIsStruct(With(env, code), o, n, t, was.view, "", {});
      assert Panicking(With(env, code), o, n, t, was.(registered := map[]));
    }
  }

  ghost predicate Panicking(env: Env, o: Order, n: Tree, t: Schema, was: Scene)
    requires t.StructT? && n.Map?
  {
    Attempt(env, o, n, t, was).err == Some(Panicked)
  }

  lemma SomePanicky(env: Env, t: Schema) returns (f: nat, name: string, depth: nat)
    requires Panicky(env, t)
    ensures LeadsTo(env, t, f, depth) && CanPanic(env, f, name)
  {
    f, name, depth :| LeadsTo(env, t, f, depth) && CanPanic(env, f, name);
  }

  /** All or nothing: where the type can do neither, a load that fails leaves everything as it was. */
  lemma FailureLeavesNothing(env: Env, o: Order, n: Tree, t: Schema, was: Scene, err: Option<Running.Error>, left: Val,
                             now: Scene)
    requires t.StructT? && n.Map? && WF(n) && WellShaped(n, t) && FreshVariants(env) && Holds(was.heap, was.value, was.view)
    requires Outcome(Attempt(env, o, n, t, was), was, err, left, now) && err.Some?
    requires Writable(env, t, was.view, "") == {} && !Panicky(env, t)
    ensures now.value == was.value && now.view == was.view && SameBut(was.heap, now.heap, {}) && now.registered == was.registered
  {
    hide Outcome, Writable, Panicky, FreshVariants, Holds, WF, WellShaped, SameBut;
    AllOrNothing(env, o, n, t, was, err, left, now);
    RegistrationsUndone(env, o, n, t, was, err, left, now);
  }

  /// ## The order of visits

  /** The order of visits decides whether a load succeeds exactly if some order succeeds and two sets that it
      registers in different fields of one struct clash one way. */
  lemma LoadDecidesIff(env: Env, n: Tree, t: Schema, was: Scene)
    requires t.StructT? && n.Map? && WF(n) && FreshVariants(env)
    ensures (exists o :: Attempt(env, o, n, t, was).err.None?) && (exists o :: Attempt(env, o, n, t, was).err.Some?)
            <==> var b := Binding.BindStruct(env, n, n.children, t, was.view, "");
                 b.ok && OrderDecides(StartSels(was.registered), b.plan)
  {
    hide Binding.BindStruct, RunStruct, OrderDecides, FreshVariants, StartSels;
    var used := StartSels(was.registered);
    MapWF(n);
    StructDecidesIff(env, n, n.children, t, was.view, "", used);
    if o, q :| Attempt(env, o, n, t, was).err.None? && Attempt(env, q, n, t, was).err.Some? {
      assert RunStruct(env, o, n, n.children, t, was.view, "", used).err.None?;
      assert RunStruct(env, q, n, n.children, t, was.view, "", used).err.Some?;
    }
    if o, q :| RunStruct(env, o, n, n.children, t, was.view, "", used).err.None?
               && RunStruct(env, q, n, n.children, t, was.view, "", used).err.Some? {
      assert Attempt(env, o, n, t, was).err.None? && Attempt(env, q, n, t, was).err.Some?;
    }
  }

  /** When some order of visits makes a load succeed, and when some order makes it fail. */
  lemma LoadSucceedsIff(env: Env, n: Tree, t: Schema, was: Scene)
    requires t.StructT? && n.Map? && WF(n) && FreshVariants(env)
    ensures (exists o :: Attempt(env, o, n, t, was).err.None?) <==>
              var b := Binding.BindStruct(env, n, n.children, t, was.view, "");
              b.ok && Arrangeable(StartSels(was.registered), b.plan)
    ensures (exists o :: Attempt(env, o, n, t, was).err.Some?) <==>
              var b := Binding.BindStruct(env, n, n.children, t, was.view, "");
              !b.ok || !Arrangeable(StartSels(was.registered), b.plan) || FreeToClash(b.plan)
  {
    hide Binding.BindStruct, RunStruct, Arrangeable, FreeToClash, FreshVariants, StartSels;
    var used, b := StartSels(was.registered), Binding.BindStruct(env, n, n.children, t, was.view, "");
    MapWF(n);
    StructSucceedsIff(env, n, n.children, t, was.view, "", used);
    StructFailsIff(env, n, n.children, t, was.view, "", used);
    if o :| Attempt(env, o, n, t, was).err.None? {
      assert RunStruct(env, o, n, n.children, t, was.view, "", used).err.None?;
    }
    if o :| RunStruct(env, o, n, n.children, t, was.view, "", used).err.None? {
      assert Attempt(env, o, n, t, was).err.None?;
    }
    if o :| Attempt(env, o, n, t, was).err.Some? {
      assert RunStruct(env, o, n, n.children, t, was.view, "", used).err.Some?;
    }
    if o :| RunStruct(env, o, n, n.children, t, was.view, "", used).err.Some? {
      assert Attempt(env, o, n, t, was).err.Some?;
    }
  }

  /** Two loads from one scene in different orders of visits: they succeed or fail together unless the order
      decides, and if both succeed the destinations differ at most in the places of what the load allocated. */
  lemma LoadsAgree(env: Env, o: Order, q: Order, n: Tree, t: Schema, was: Scene, err: Option<Running.Error>, left: Val,
                   now: Scene, err2: Option<Running.Error>, left2: Val, now2: Scene)
    requires t.StructT? && n.Map? && WF(n) && FreshVariants(env)
    requires Outcome(Attempt(env, o, n, t, was), was, err, left, now)
    requires Outcome(Attempt(env, q, n, t, was), was, err2, left2, now2)
    ensures !OrderDecides(StartSels(was.registered), Binding.BindStruct(env, n, n.children, t, was.view, "").plan) ==>
              (err.None? <==> err2.None?)
    ensures err.None? && err2.None? ==>
              var bound := Attempt(env, o, n, t, was).v;
              && multiset(Attempt(env, o, n, t, was).log) == multiset(Attempt(env, q, n, t, was).log)
              && Becomes(bound, now.view, now.heap.Keys - was.heap.Keys)
              && Becomes(bound, now2.view, now2.heap.Keys - was.heap.Keys)
  {
    var used := StartSels(was.registered);
    LoadDecidesIff(env, n, t, was);
    if err.None? && err2.None? {
      StructSameResult(env, o, q, n, n.children, t, was.view, "", used);
    }
    hide Binding.BindStruct, RunStruct, OrderDecides, FreshVariants, StartSels, Restored, Flat, Becomes, Backed;
    assert Put(was.heap, was.next, Attempt(env, o, n, t, was).v, now.heap, now.next, left);
    assert Put(was.heap, was.next, Attempt(env, q, n, t, was).v, now2.heap, now2.next, left2);
    assert err.None? <==> Attempt(env, o, n, t, was).err.None?;
    assert err2.None? <==> Attempt(env, q, n, t, was).err.None?;
  }
}
