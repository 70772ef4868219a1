/** What a load makes of its directories: which of them decides what is bound at a path, which error is reported, and
    what is never read. */
module Layering {
  import opened Text
  import opened Trees
  import opened Yaml
  import opened Merge
  import opened Schema
  import opened Loader
  import R = Resolve
  import I = Include

  /** One directory's layer. */
  function LayerAt(src: Source, name: string, d: nat): Result<Option<Tree>, LoadError>
    requires d < |src.dirs|
  {
    LayerOf(src.disk, src.st, src.resolver.static_, src.dirs[d], name)
  }

  /** The directory has the file, and the file says something about the path. */
  predicate Speaks(src: Source, name: string, d: nat, path: seq<string>)
    requires d < |src.dirs|
  {
    var layer := LayerAt(src, name, d);
    layer.Ok? && layer.value.Some? && !Silent(layer.value.value, path)
  }

  /** What is prepared is the fold of the directories' layers, resolved. */
  lemma PreparedIsFold(src: Source, name: string, t: Schema) returns (layers: seq<Tree>, at: seq<nat>)
    requires Prepared(src, name, t).Ok?
    ensures layers != [] && Prepared(src, name, t).value == R.Resolved(src.resolver, Fold(layers))
    ensures R.Failure(src.resolver, Fold(layers)).None?
    ensures FromDirs(src.disk, src.st, src.resolver.static_, src.dirs, name, layers, at)
  {
    hide Layers, LayerOf, FromDirs, WellShaped, R.Failure, R.Resolved, NameError;
    at := LayersAreFromDirs(src.disk, src.st, src.resolver.static_, src.dirs, name);
    layers := Layers(src.disk, src.st, src.resolver.static_, src.dirs, name).value;
  }

  /** The last directory whose file says anything about a path decides what is bound there, unless it has a map
      there: it is what that file has, resolved. */
  lemma LastDirectoryDecides(src: Source, name: string, t: Schema, path: seq<string>, d: nat)
    requires Prepared(src, name, t).Ok?
    requires d < |src.dirs| && Speaks(src, name, d, path) && !MapAt(LayerAt(src, name, d).value.value, path)
    requires forall c | d < c < |src.dirs| :: !Speaks(src, name, c, path)
    ensures At(Prepared(src, name, t).value, path)
         == match At(LayerAt(src, name, d).value.value, path) case None => None case Some(x) => Some(R.Resolved(src.resolver, x))
  {
    hide Prepared, LayerOf, Silent, R.Resolved;
    var layers, at := PreparedIsFold(src, name, t);
    var i :| 0 <= i < |at| && at[i] == d;
    forall j | i < j < |layers| ensures Silent(layers[j], path) {
      assert !Speaks(src, name, at[j], path);
    }
    LastToSpeakDecides(layers, path, i);
    R.ResolvedAt(src.resolver, Fold(layers), path);
  }

  /** Where no file says anything, nothing is bound. */
  lemma NothingSaid(src: Source, name: string, t: Schema, path: seq<string>)
    requires Prepared(src, name, t).Ok?
    requires forall c | 0 <= c < |src.dirs| :: !Speaks(src, name, c, path)
    ensures At(Prepared(src, name, t).value, path).None?
  {
    hide Prepared, LayerOf, Silent, R.Resolved;
    var layers, at := PreparedIsFold(src, name, t);
    forall j | 0 <= j < |layers| ensures Silent(layers[j], path) {
      assert !Speaks(src, name, at[j], path);
    }
    NobodySpeaks(layers, path);
    R.ResolvedAt(src.resolver, Fold(layers), path);
  }

  lemma LayerWF(src: Source, name: string, d: nat)
    requires d < |src.dirs|
    ensures var layer := LayerAt(src, name, d); layer.Ok? && layer.value.Some? ==> WF(layer.value.value)
  {
    hide TreeOf, I.Failure, I.Expanded, WF;
    var dir := src.dirs[d];
    var path := src.disk.join(dir, name);
    if src.disk.read(path).Document? && TreeOf(src.disk.read(path).doc, path).Some? {
      TreeOfWF(src.disk.read(path).doc, path);
      var t := TreeOf(src.disk.read(path).doc, path).value;
      if I.Expanded(src.st, t, dir, [path]).Some? {
        I.ExpandedWF(src.st, t, dir, [path]);
      }
    }
  }

  /** What is prepared is a well-formed map of the shape of its type. */
  lemma PreparedIsShaped(src: Source, name: string, t: Schema)
    requires Prepared(src, name, t).Ok? && t.StructT?
    ensures var n := Prepared(src, name, t).value; n.Map? && WF(n) && WellShaped(n, t)
  {
    var layers, at := PreparedIsFold(src, name, t);
    assert forall i | 0 <= i < |layers| :: WellShaped(layers[i], t) by {
      LayersAreShaped(src, name, t, layers, at);
    }
    PipelineShaped(src.resolver, layers, t);
    hide LayerOf, WellShaped, R.Resolved, Prepared;
    forall i | 0 <= i < |layers| ensures WF(layers[i]) {
      LayerWF(src, name, at[i]);
    }
    FoldWF(layers);
    R.ResolvedSkeleton(src.resolver, Fold(layers));
    R.SkeletonWF(Fold(layers), R.Resolved(src.resolver, Fold(layers)));
    ShapedIsMap(R.Resolved(src.resolver, Fold(layers)), t);
  }

  lemma {:induction false} AllScalarsAt(t: Tree, path: seq<string>, p: Tree -> bool)
    requires AllScalars(t, p) && At(t, path).Some?
    ensures AllScalars(At(t, path).value, p)
    decreases |path|
  {
    if path != [] {
      AllScalarsAt(t.children[path[0]], path[1..], p);
    }
  }

  /** Each scalar of what the last directory decides was resolved. */
  lemma DecidedResolves(src: Source, name: string, t: Schema, path: seq<string>, d: nat)
    requires Prepared(src, name, t).Ok?
    requires d < |src.dirs| && Speaks(src, name, d, path) && !MapAt(LayerAt(src, name, d).value.value, path)
    requires forall c | d < c < |src.dirs| :: !Speaks(src, name, c, path)
    requires At(LayerAt(src, name, d).value.value, path).Some?
    ensures AllScalars(At(LayerAt(src, name, d).value.value, path).value, s => R.Resolves(src.resolver, s))
  {
    hide Prepared, LayerOf, Silent, R.Resolved, WF;
    var layers, at := PreparedIsFold(src, name, t);
    var i :| 0 <= i < |at| && at[i] == d;
    forall j | i < j < |layers| ensures Silent(layers[j], path) {
      assert !Speaks(src, name, at[j], path);
    }
    LastToSpeakDecides(layers, path, i);
    forall j | 0 <= j < |layers| ensures WF(layers[j]) {
      LayerWF(src, name, at[j]);
    }
    FoldWF(layers);
    R.FailureNone(src.resolver, Fold(layers));
    AllScalarsAt(Fold(layers), path, s => R.Resolves(src.resolver, s));
  }

  lemma LayersAreShaped(src: Source, name: string, t: Schema, layers: seq<Tree>, at: seq<nat>)
    requires Prepared(src, name, t).Ok?
    requires FromDirs(src.disk, src.st, src.resolver.static_, src.dirs, name, layers, at)
    ensures forall i | 0 <= i < |layers| :: WellShaped(layers[i], t)
  {
    hide LayerOf, WellShaped, Prepared;
    ErrorsInOrder(src, name, t);
    LayersAndDirs(src, name, t, layers, at);
  }

  lemma ShapedIsMap(n: Tree, t: Schema)
    requires t.StructT? && WellShaped(n, t)
    ensures n.Map?
  {}

  /** Which error a load up to binding reports: that of the name; else that of the first directory whose file cannot
      be used; else that no directory has the file, or that some layer has the wrong shape; else that of a token. */
  lemma ErrorsInOrder(src: Source, name: string, t: Schema)
    ensures var p := Prepared(src, name, t);
            if NameError(name).Some? then p == Err(NameError(name).value)
            else if exists d: nat :: d < |src.dirs| && LayerAt(src, name, d).Err? then
              exists d: nat :: d < |src.dirs| && LayerAt(src, name, d).Err? && p == Err(LayerAt(src, name, d).error)
                               && forall c: nat | c < d :: LayerAt(src, name, c).Ok?
            else if forall d: nat | d < |src.dirs| :: LayerAt(src, name, d) == Ok(None) then p == Err(NoFile)
            else if exists d: nat, x :: d < |src.dirs| && LayerAt(src, name, d) == Ok(Some(x)) && !WellShaped(x, t) then
              p == Err(BadShape)
            else p.Ok? || p.error.ResolveFailed?
  {
    hide Layers, LayerOf, WellShaped, R.Failure, R.Resolved, NameError, FromDirs;
    var at := LayersAreFromDirs(src.disk, src.st, src.resolver.static_, src.dirs, name);
    var read := Layers(src.disk, src.st, src.resolver.static_, src.dirs, name);
    if read.Err? {
      var d :| FirstRefused(src.disk, src.st, src.resolver.static_, src.dirs, name, d)
               && read.error == LayerOf(src.disk, src.st, src.resolver.static_, src.dirs[d], name).error;
      assert LayerAt(src, name, d).Err?;
      assert forall c: nat | c < d :: LayerAt(src, name, c).Ok?;
    } else {
      LayersAndDirs(src, name, t, read.value, at);
    }
  }

  lemma LayersAndDirs(src: Source, name: string, t: Schema, layers: seq<Tree>, at: seq<nat>)
    requires FromDirs(src.disk, src.st, src.resolver.static_, src.dirs, name, layers, at)
    ensures forall d: nat | d < |src.dirs| :: LayerAt(src, name, d).Ok?
    ensures layers == [] <==> forall d: nat | d < |src.dirs| :: LayerAt(src, name, d) == Ok(None)
    ensures (exists i | 0 <= i < |layers| :: !WellShaped(layers[i], t)) <==>
            exists d: nat, x :: d < |src.dirs| && LayerAt(src, name, d) == Ok(Some(x)) && !WellShaped(x, t)
  {
    hide LayerOf, WellShaped;
    EachRead(src.disk, src.st, src.resolver.static_, src.dirs, name, layers, at);
    if layers != [] {
      assert LayerAt(src, name, at[0]) == Ok(Some(layers[0]));
    }
    if i :| 0 <= i < |layers| && !WellShaped(layers[i], t) {
      assert LayerAt(src, name, at[i]) == Ok(Some(layers[i]));
    }
    if d: nat, x :| d < |src.dirs| && LayerAt(src, name, d) == Ok(Some(x)) && !WellShaped(x, t) {
      assert d in at;
      var i :| 0 <= i < |at| && at[i] == d;
      assert layers[i] == x;
    }
  }

  /// ## What is read

  /** A directory has no layer exactly if it does not have the file. */
  lemma NoLayerIff(disk: Disk, st: I.Store, static_: bool, dir: string, name: string)
    ensures LayerOf(disk, st, static_, dir, name) == Ok(None) <==> disk.read(disk.join(dir, name)).Missing?
  {
    hide TreeOf, I.Failure, I.Expanded;
  }

  /** What makes a file unusable, and which error that is: it cannot be read or has a key twice; it does not read as a
      map; an include in it fails, unless the loader has no resolvers. */
  lemma LayerRefused(disk: Disk, st: I.Store, static_: bool, dir: string, name: string, t: Tree)
    ensures var path := disk.join(dir, name);
            var layer := LayerOf(disk, st, static_, dir, name);
            match disk.read(path)
            case Missing => true
            case Unreadable => layer == Err(ReadFailed)
            case Document(doc) =>
              && (RepeatsKey(doc) ==> layer == Err(ReadFailed))
              && (TreeOf(doc, path) == Some(t) ==>
                    && (!t.Map? ==> layer == Err(NotAMap))
                    && (t.Map? && static_ ==> layer == Ok(Some(t)))
                    && (t.Map? && !static_ && I.Failure(st, t, dir, [path]).Some? ==>
                          layer == Err(IncludeFailed(I.Failure(st, t, dir, [path]).value))))
  {
    var path := disk.join(dir, name);
    if disk.read(path).Document? {
      TreeOfReads(disk.read(path).doc, path);
    }
    hide TreeOf, RepeatsKey, I.Failure, I.Expanded;
  }

  /** The layer is the parsed file, which must be a map: as it is for a loader without resolvers, and otherwise
      exactly what naive inlining gives within fifteen levels, if the includes find the file as the load does. */
  lemma LayerIsInlined(disk: Disk, st: I.Store, static_: bool, dir: string, name: string, x: Tree)
    requires var path := disk.join(dir, name);
             disk.read(path).Document? && st.document(path) == Some(disk.read(path).doc)
    ensures var path := disk.join(dir, name);
            LayerOf(disk, st, static_, dir, name) == Ok(Some(x)) <==>
              && st.Read(path).Some? && st.Read(path).value.Map? && x.Map?
              && (if static_ then x == st.Read(path).value else I.Inlined(st, st.Read(path).value, dir, 15) == Some(x))
  {
    hide TreeOf, I.Failure, I.Expanded, I.Inlined;
    var path := disk.join(dir, name);
    if st.Read(path).Some? {
      I.ReadWF(st, path);
      I.FailureNone(st, st.Read(path).value, dir, [path]);
      I.ExpansionIsInlining(st, path, st.Read(path).value, dir);
    }
  }

  /** Nothing outside the directories is read by way of an include: with any other documents there, the load is the
      same. */
  lemma OutsideIsNotRead(src: Source, name: string, t: Schema, document: string -> Option<Doc>)
    requires forall d | 0 <= d < |src.dirs| :: I.SameInside(src.st, src.dirs[d], document)
    ensures Prepared(src.(st := I.WithDocuments(src.st, document)), name, t) == Prepared(src, name, t)
  {
    hide Layers, LayerOf, WellShaped, R.Failure, R.Resolved, NameError, I.SameInside, I.WithDocuments;
    LayersSame(src, src.dirs, name, document);
  }

  lemma {:induction false} LayersSame(src: Source, dirs: seq<string>, name: string, document: string -> Option<Doc>)
    requires forall d | 0 <= d < |dirs| :: I.SameInside(src.st, dirs[d], document)
    ensures Layers(src.disk, I.WithDocuments(src.st, document), src.resolver.static_, dirs, name)
         == Layers(src.disk, src.st, src.resolver.static_, dirs, name)
  {
    hide LayerOf, I.SameInside, I.WithDocuments;
    if dirs != [] {
      var n := |dirs| - 1;
      assert forall d | 0 <= d < n :: dirs[..n][d] == dirs[d];
      LayersSame(src, dirs[..n], name, document);
      LayerSame(src, dirs[n], name, document);
    }
  }

  lemma LayerSame(src: Source, dir: string, name: string, document: string -> Option<Doc>)
    requires I.SameInside(src.st, dir, document)
    ensures LayerOf(src.disk, I.WithDocuments(src.st, document), src.resolver.static_, dir, name)
         == LayerOf(src.disk, src.st, src.resolver.static_, dir, name)
  {
    hide TreeOf, I.Failure, I.Expanded, I.SameInside, I.WithDocuments;
    var path := src.disk.join(dir, name);
    if src.disk.read(path).Document? && TreeOf(src.disk.read(path).doc, path).Some? {
      I.OutsideIsNotRead(src.st, document, TreeOf(src.disk.read(path).doc, path).value, dir, [path]);
    }
  }

  /// ## Names

  /** A name is accepted exactly if it is a stem and one of the two extensions, without separators and without two
      dots in a row: a single path segment that leads to no other directory. */
  lemma PlainNameIff(name: string)
    ensures NameError(name).None? <==>
            && (exists stem :: name == stem + ".yaml" || name == stem + ".yml")
            && forall i | 0 <= i < |name| ::
                 name[i] != '/' && name[i] != '\\' && (i + 1 < |name| ==> !(name[i] == '.' && name[i + 1] == '.'))
  {
    ContainsPair(name, '.');
    EndsInIff(name, ".yaml");
    EndsInIff(name, ".yml");
    hide Contains, EndsIn;
    assert ".." == ['.', '.'];
    if NameError(name).None? {
      assert exists stem :: name == stem + ".yaml" || name == stem + ".yml";
    }
  }

  lemma EndsInIff(s: string, suffix: string)
    ensures EndsIn(s, suffix) <==> exists stem :: s == stem + suffix
  {
    if EndsIn(s, suffix) {
      assert s == s[..|s| - |suffix|] + suffix;
    }
  }

  lemma {:induction false} ContainsPair(s: string, c: char)
    ensures Contains(s, [c, c]) <==> exists i :: 0 <= i < |s| - 1 && s[i] == c && s[i + 1] == c
  {
    if s != "" {
      ContainsPair(s[1..], c);
      assert forall i | 1 <= i < |s| :: s[i] == s[1..][i - 1];
      if i :| 0 <= i < |s| - 1 && s[i] == c && s[i + 1] == c {
        if i == 0 {
          assert [c, c] <= s;
        } else {
          assert s[1..][i - 1] == c && s[1..][i - 1 + 1] == c;
        }
      }
      if [c, c] <= s {
        assert s[0] == c && s[0 + 1] == c;
      }
      if i :| 0 <= i < |s[1..]| - 1 && s[1..][i] == c && s[1..][i + 1] == c {
        assert s[i + 1] == c && s[i + 1 + 1] == c;
      }
    }
  }
}
