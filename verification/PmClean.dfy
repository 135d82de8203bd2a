/** What a build from an empty cache produces: the packages a stage depends on, its snapshot and
    its archive, as functions of the world alone. */
module PmClean {
  import opened Common
  import opened Graphs
  import opened PmEntry
  import opened PmWorld

  // ----- the packages a snapshot covers ---------------------------------------------------

  /** The packages whose source stage a stage needs, found within `n` levels. */
  ghost function KeysAt(w: World, st: Stage, n: nat): set<Package>
    decreases n, 0
  {
    if n == 0 then {} else
      AllKeysAt(w, Depends(w, st), n - 1) + if st.kind.Source? then {st.package} else {}
  }

  ghost function AllKeysAt(w: World, stages: seq<Stage>, n: nat): set<Package>
    decreases n, 1
  {
    set d, p | d in stages && p in KeysAt(w, d, n) :: p
  }

  ghost predicate Agree(w1: World, w2: World, keys: set<Package>) {
    forall p :: p in keys ==> p in w1 && p in w2 && w1[p] == w2[p]
  }

  /** Every stage needs the source stage of its own package. */
  lemma {:induction false} OwnPackage(w: World, st: Stage, n: nat)
    requires Depth(w, st, n)
    ensures st.package in KeysAt(w, st, n)
    decreases n
  {
    if !st.kind.Source? {
      var ds := Depends(w, st);
      var d := ds[|ds| - 1];
      assert d in ds && d.package == st.package;
      OwnPackage(w, d, n - 1);
    }
  }

  lemma WellFormedLocal(w1: World, w2: World, st: Stage)
    requires WellFormed(w1, st) && st.package in w2 && w1[st.package] == w2[st.package]
    ensures WellFormed(w2, st) && IndexOf(w1, st.package) == IndexOf(w2, st.package)
    ensures Depends(w1, st) == Depends(w2, st)
  {
  }

  /** A stage looks at nothing but the packages its snapshot covers: a world that agrees on them
      has the same stage, whatever room is left for either. */
  lemma {:induction false} KeysLocal(w1: World, w2: World, st: Stage, n: nat, m: nat)
    requires Depth(w1, st, n) && n <= m
    requires Agree(w1, w2, KeysAt(w1, st, n))
    ensures Depth(w2, st, m) && KeysAt(w2, st, m) == KeysAt(w1, st, n)
    decreases n
  {
    hide IndexOf, DependsOf, WellFormed;
    OwnPackage(w1, st, n);
    WellFormedLocal(w1, w2, st);
    var ds := Depends(w1, st);
    forall d | d in ds
      ensures Depth(w2, d, m - 1) && KeysAt(w2, d, m - 1) == KeysAt(w1, d, n - 1)
    {
      assert KeysAt(w1, d, n - 1) <= AllKeysAt(w1, ds, n - 1);
      KeysLocal(w1, w2, d, n - 1, m - 1);
    }
    assert AllKeysAt(w2, ds, m - 1) == AllKeysAt(w1, ds, n - 1);
  }

  ghost function Height(w: World, st: Stage): (n: nat)
    requires Sound(w, st)
    ensures Depth(w, st, n)
  {
    var n: nat :| Depth(w, st, n); n
  }

  /** The packages whose source stage a stage needs. */
  ghost function Keys(w: World, st: Stage): set<Package> {
    if Sound(w, st) then KeysAt(w, st, Height(w, st)) else {}
  }

  ghost function Restrict(w: World, keys: set<Package>): Snapshot {
    map p | p in keys && p in w :: w[p]
  }

  /** The snapshot of a stage: the checksums of every package it covers. */
  ghost function SnapshotOf(w: World, st: Stage): Snapshot {
    Restrict(w, Keys(w, st))
  }

  lemma {:induction false} KeysInWorld(w: World, st: Stage, n: nat)
    requires Depth(w, st, n)
    ensures KeysAt(w, st, n) <= w.Keys
    decreases n
  {
    var ds := Depends(w, st);
    forall d | d in ds
      ensures KeysAt(w, d, n - 1) <= w.Keys
    {
      KeysInWorld(w, d, n - 1);
    }
    assert AllKeysAt(w, ds, n - 1) <= w.Keys;
  }

  lemma KeysAnyRoom(w: World, st: Stage, n: nat)
    requires Depth(w, st, n)
    ensures Sound(w, st) && KeysAt(w, st, n) == Keys(w, st) && Keys(w, st) <= w.Keys
  {
    var k := Height(w, st);
    KeysInWorld(w, st, n);
    KeysInWorld(w, st, k);
    if n <= k {
      KeysLocal(w, w, st, n, k);
    } else {
      KeysLocal(w, w, st, k, n);
    }
  }

  /** The keys gathered from a list of stages. */
  ghost function KeysOfAll(w: World, stages: seq<Stage>): set<Package> {
    set d, p | d in stages && p in Keys(w, d) :: p
  }

  /** A stage covers what its dependencies cover, and its own package if it is a source stage. */
  lemma KeysStep(w: World, st: Stage)
    requires Sound(w, st)
    ensures Keys(w, st) == KeysOfAll(w, Depends(w, st)) + if st.kind.Source? then {st.package} else {}
    ensures st.package in Keys(w, st) && Keys(w, st) <= w.Keys
  {
    SoundParts(w, st);
    var n := Height(w, st);
    OwnPackage(w, st, n);
    KeysInWorld(w, st, n);
    var ds := Depends(w, st);
    assert AllDepth(w, ds, n - 1);
    forall d | d in ds
      ensures KeysAt(w, d, n - 1) == Keys(w, d)
    {
      KeysAnyRoom(w, d, n - 1);
    }
    assert AllKeysAt(w, ds, n - 1) == KeysOfAll(w, ds);
  }

  /** Two worlds that agree on the packages a stage covers in one of them have the same stage. */
  lemma StageLocal(w1: World, w2: World, st: Stage)
    requires Sound(w1, st) && Agree(w1, w2, Keys(w1, st))
    ensures Sound(w2, st) && Keys(w2, st) == Keys(w1, st)
    ensures SnapshotOf(w2, st) == SnapshotOf(w1, st)
    ensures IndexOf(w2, st.package) == IndexOf(w1, st.package) && Depends(w2, st) == Depends(w1, st)
  {
    var n := Height(w1, st);
    KeysLocal(w1, w2, st, n, n);
    KeysAnyRoom(w2, st, n);
    KeysStep(w1, st);
    SoundParts(w1, st);
    WellFormedLocal(w1, w2, st);
  }

  /** A package is in the snapshot exactly when its source stage is reachable, with the checksums
      the world gives it. */
  lemma SnapshotCoversReachableSources(w: World, st: Stage, p: Package)
    requires Sound(w, st)
    ensures p in SnapshotOf(w, st) <==> Reachable(Next(w), st, Stage(p, Source))
    ensures p in SnapshotOf(w, st) ==> SnapshotOf(w, st)[p] == w[p]
  {
    KeysStep(w, st);
    if p in Keys(w, st) {
      KeysAreReachable(w, st, p, Height(w, st));
    }
    if Reachable(Next(w), st, Stage(p, Source)) {
      var path :| IsPathFromTo(Next(w), path, st, Stage(p, Source));
      ReachableAreKeys(w, path);
    }
  }

  lemma {:induction false} KeysAreReachable(w: World, st: Stage, p: Package, n: nat)
    requires p in KeysAt(w, st, n)
    ensures Reachable(Next(w), st, Stage(p, Source))
    decreases n
  {
    hide IndexOf, DependsOf, WellFormed, Reachable;
    if st == Stage(p, Source) {
      ReachSelf(Next(w), st);
    } else {
      assert p in AllKeysAt(w, Depends(w, st), n - 1);
      hide KeysAt;
      var d :| d in Depends(w, st) && p in KeysAt(w, d, n - 1);
      KeysAreReachable(w, d, p, n - 1);
      StepReach(Next(w), st, d, Stage(p, Source));
    }
  }

  lemma {:induction false} ReachableAreKeys(w: World, path: seq<Stage>)
    requires IsPath(Next(w), path) && Sound(w, path[0]) && path[|path| - 1].kind.Source?
    ensures path[|path| - 1].package in Keys(w, path[0])
  {
    KeysStep(w, path[0]);
    if |path| > 1 {
      SoundParts(w, path[0]);
      var rest := path[1..];
      assert path[0 + 1] in Next(w)(path[0]);
      forall i | 0 <= i < |rest| - 1
        ensures rest[i + 1] in Next(w)(rest[i])
      {
        assert path[i + 1 + 1] in Next(w)(path[i + 1]);
      }
      ReachableAreKeys(w, rest);
    }
  }

  // ----- directory trees ------------------------------------------------------------------

  /** Directory contents: an empty directory, an unpacked source archive, what the builder
      installs from a source directory, or an overlay of trees. */
  datatype Tree = Empty | Unpacked(file: File) | Compiled(source: seq<Merge>) | Overlaid(merges: seq<Merge>)

  /** `merge_directories(tree, path)`. */
  datatype Merge = Merge(path: Path, tree: Tree)

  const NO_FILE := File("", None)

  /** The source archive a checksum file promises. */
  ghost function Promised(c: Checksums, source: string): File {
    if source in c then c[source].file else NO_FILE
  }

  ghost function ChecksumsOf(w: World, p: Package): Checksums {
    if p in w then w[p] else map[]
  }

  /** Extracting a package's own sources. */
  ghost function SelfMerges(c: Checksums, imports: seq<LocalImport>, dest: Path): seq<Merge> {
    if imports == [] then [] else
      var i := imports[|imports| - 1];
      SelfMerges(c, imports[..|imports| - 1], dest) + [Merge(dest + i.path, Unpacked(Promised(c, i.source)))]
  }

  /** The order in which a directory is filled. */
  ghost function Layers(base: seq<Merge>, self: seq<Merge>, sources: seq<Merge>, packages: seq<Merge>): seq<Merge> {
    base + self + sources + packages
  }

  /** The source directory of `p`: its own sources, then imported sources, then imported
      installations. */
  ghost function SourceDirAt(w: World, p: Package, dest: Path, n: nat): seq<Merge>
    decreases n, 0, 0
  {
    if n == 0 then [] else
      var source := IndexOf(w, p).source;
      Layers([],
        SelfMerges(ChecksumsOf(w, p), source.self, dest),
        SourceImportsAt(w, source.importSource, dest, n - 1),
        PackageImportsAt(w, source.importPackage, dest, n - 1))
  }

  ghost function SourceImportsAt(w: World, imports: seq<TreeImport>, dest: Path, n: nat): seq<Merge>
    decreases n, 1, |imports|
  {
    if imports == [] then [] else
      var i := imports[|imports| - 1];
      SourceImportsAt(w, imports[..|imports| - 1], dest, n) + SourceDirAt(w, i.package, dest + i.path, n)
  }

  ghost function PackageImportsAt(w: World, imports: seq<TreeImport>, dest: Path, n: nat): seq<Merge>
    decreases n, 1, |imports|
  {
    if imports == [] then [] else
      var i := imports[|imports| - 1];
      PackageImportsAt(w, imports[..|imports| - 1], dest, n) +
      [Merge(dest + i.path, InstallTreeAt(w, i.package, n))]
  }

  ghost function BuildTreeAt(w: World, p: Package, n: nat): Tree
    decreases n, 0, 0
  {
    if n == 0 || BuildKind(IndexOf(w, p)).BuildEmpty? then Empty
    else Compiled(SourceDirAt(w, p, [], n - 1))
  }

  ghost function InstallTreeAt(w: World, p: Package, n: nat): Tree
    decreases n, 0, 0
  {
    if n == 0 then Empty else
      var package := IndexOf(w, p).package;
      Overlaid(Layers([Merge([], BuildTreeAt(w, p, n - 1))],
        SelfMerges(ChecksumsOf(w, p), package.self, []),
        SourceImportsAt(w, package.importSource, [], n - 1),
        PackageImportsAt(w, package.importPackage, [], n - 1)))
  }

  // ----- trees depend on the covered packages only ----------------------------------------

  /** `st` fits below `n` levels, and `w2` agrees with `w1` on what it covers. */
  ghost predicate Shared(w1: World, w2: World, st: Stage, n: nat) {
    Depth(w1, st, n) && Agree(w1, w2, KeysAt(w1, st, n))
  }

  lemma SharedParts(w1: World, w2: World, st: Stage, n: nat)
    requires Shared(w1, w2, st, n)
    ensures forall d :: d in Depends(w1, st) ==> Shared(w1, w2, d, n - 1)
    ensures st.package in w1 && st.package in w2 && w1[st.package] == w2[st.package]
    ensures IndexOf(w1, st.package) == IndexOf(w2, st.package)
  {
    OwnPackage(w1, st, n);
    var ds := Depends(w1, st);
    forall d | d in ds
      ensures Shared(w1, w2, d, n - 1)
    {
      assert AllDepth(w1, ds, n - 1);
      assert KeysAt(w1, d, n - 1) <= AllKeysAt(w1, ds, n - 1);
    }
  }

  lemma SharedSource(w1: World, w2: World, p: Package, n: nat)
    requires Shared(w1, w2, Stage(p, Source), n)
    ensures n > 0 && ChecksumsOf(w1, p) == ChecksumsOf(w2, p)
    ensures IndexOf(w1, p).source == IndexOf(w2, p).source
    ensures forall i :: i in IndexOf(w1, p).source.importSource ==> Shared(w1, w2, Stage(i.package, Source), n - 1)
    ensures forall i :: i in IndexOf(w1, p).source.importPackage ==>
        Shared(w1, w2, Stage(i.package, Installation), n - 1)
  {
    SharedParts(w1, w2, Stage(p, Source), n);
    ImportsAreDepends(w1, p);
  }

  lemma SharedInstallation(w1: World, w2: World, p: Package, n: nat)
    requires Shared(w1, w2, Stage(p, Installation), n)
    ensures n > 0 && ChecksumsOf(w1, p) == ChecksumsOf(w2, p)
    ensures IndexOf(w1, p) == IndexOf(w2, p)
    ensures forall i :: i in IndexOf(w1, p).package.importSource ==> Shared(w1, w2, Stage(i.package, Source), n - 1)
    ensures forall i :: i in IndexOf(w1, p).package.importPackage ==>
        Shared(w1, w2, Stage(i.package, Installation), n - 1)
    ensures Shared(w1, w2, Stage(p, BuildKind(IndexOf(w1, p))), n - 1)
  {
    SharedParts(w1, w2, Stage(p, Installation), n);
    ImportsAreDepends(w1, p);
  }

  lemma SharedBuild(w1: World, w2: World, p: Package, n: nat)
    requires Shared(w1, w2, Stage(p, BuildKind(IndexOf(w1, p))), n)
    ensures n > 0 && IndexOf(w1, p) == IndexOf(w2, p) && Shared(w1, w2, Stage(p, Source), n - 1)
  {
    SharedParts(w1, w2, Stage(p, BuildKind(IndexOf(w1, p))), n);
    ImportsAreDepends(w1, p);
  }

  lemma ImportsAreDepends(w: World, p: Package)
    ensures var index := IndexOf(w, p);
            (forall i :: i in index.source.importSource ==> Stage(i.package, Source) in Depends(w, Stage(p, Source))) &&
            (forall i :: i in index.source.importPackage ==>
                Stage(i.package, Installation) in Depends(w, Stage(p, Source))) &&
            (forall i :: i in index.package.importSource ==>
                Stage(i.package, Source) in Depends(w, Stage(p, Installation))) &&
            (forall i :: i in index.package.importPackage ==>
                Stage(i.package, Installation) in Depends(w, Stage(p, Installation)))
    ensures Stage(p, BuildKind(IndexOf(w, p))) in Depends(w, Stage(p, Installation))
    ensures Stage(p, Source) in Depends(w, Stage(p, Build)) && Stage(p, Source) in Depends(w, Stage(p, BuildEmpty))
  {
    var index := IndexOf(w, p);
    StagesOfMembers(index.source.importSource, Source);
    StagesOfMembers(index.source.importPackage, Installation);
    StagesOfMembers(index.package.importSource, Source);
    StagesOfMembers(index.package.importPackage, Installation);
  }

  lemma {:induction false} SourceDirLocal(w1: World, w2: World, p: Package, dest: Path, n: nat, m: nat)
    requires Shared(w1, w2, Stage(p, Source), n) && n <= m
    ensures SourceDirAt(w1, p, dest, n) == SourceDirAt(w2, p, dest, m)
    decreases n, 0, 0
  {
    hide Shared, Depth, KeysAt, IndexOf, Layers;
    SharedSource(w1, w2, p, n);
    var source := IndexOf(w1, p).source;
    SourceImportsLocal(w1, w2, source.importSource, dest, n - 1, m - 1);
    PackageImportsLocal(w1, w2, source.importPackage, dest, n - 1, m - 1);
  }

  lemma {:induction false} SourceImportsLocal(
      w1: World, w2: World, imports: seq<TreeImport>, dest: Path, n: nat, m: nat)
    requires forall i :: i in imports ==> Shared(w1, w2, Stage(i.package, Source), n)
    requires n <= m
    ensures SourceImportsAt(w1, imports, dest, n) == SourceImportsAt(w2, imports, dest, m)
    decreases n, 1, |imports|
  {
    if imports != [] {
      var i := imports[|imports| - 1];
      SourceImportsLocal(w1, w2, imports[..|imports| - 1], dest, n, m);
      SourceDirLocal(w1, w2, i.package, dest + i.path, n, m);
    }
  }

  lemma {:induction false} PackageImportsLocal(
      w1: World, w2: World, imports: seq<TreeImport>, dest: Path, n: nat, m: nat)
    requires forall i :: i in imports ==> Shared(w1, w2, Stage(i.package, Installation), n)
    requires n <= m
    ensures PackageImportsAt(w1, imports, dest, n) == PackageImportsAt(w2, imports, dest, m)
    decreases n, 1, |imports|
  {
    if imports != [] {
      var i := imports[|imports| - 1];
      PackageImportsLocal(w1, w2, imports[..|imports| - 1], dest, n, m);
      InstallTreeLocal(w1, w2, i.package, n, m);
    }
  }

  lemma {:induction false} BuildTreeLocal(w1: World, w2: World, p: Package, n: nat, m: nat)
    requires Shared(w1, w2, Stage(p, BuildKind(IndexOf(w1, p))), n) && n <= m
    ensures BuildTreeAt(w1, p, n) == BuildTreeAt(w2, p, m)
    decreases n, 0, 0
  {
    SharedBuild(w1, w2, p, n);
    SourceDirLocal(w1, w2, p, [], n - 1, m - 1);
  }

  lemma {:induction false} InstallTreeLocal(w1: World, w2: World, p: Package, n: nat, m: nat)
    requires Shared(w1, w2, Stage(p, Installation), n) && n <= m
    ensures InstallTreeAt(w1, p, n) == InstallTreeAt(w2, p, m)
    decreases n, 0, 0
  {
    hide Shared, Depth, KeysAt, IndexOf, Layers;
    SharedInstallation(w1, w2, p, n);
    var package := IndexOf(w1, p).package;
    BuildTreeLocal(w1, w2, p, n - 1, m - 1);
    SourceImportsLocal(w1, w2, package.importSource, [], n - 1, m - 1);
    PackageImportsLocal(w1, w2, package.importPackage, [], n - 1, m - 1);
  }

  // ----- the same without a bound on the depth --------------------------------------------

  ghost function SourceDir(w: World, p: Package, dest: Path): seq<Merge> {
    if Sound(w, Stage(p, Source)) then SourceDirAt(w, p, dest, Height(w, Stage(p, Source))) else []
  }

  /** The archive a clean build of `p` leaves. */
  ghost function BuildTree(w: World, p: Package): Tree {
    var st := Stage(p, BuildKind(IndexOf(w, p)));
    if Sound(w, st) then BuildTreeAt(w, p, Height(w, st)) else Empty
  }

  /** The archive a clean installation of `p` leaves. */
  ghost function InstallTree(w: World, p: Package): Tree {
    if Sound(w, Stage(p, Installation)) then InstallTreeAt(w, p, Height(w, Stage(p, Installation))) else Empty
  }

  ghost function SourceImports(w: World, imports: seq<TreeImport>, dest: Path): seq<Merge> {
    if imports == [] then [] else
      var i := imports[|imports| - 1];
      SourceImports(w, imports[..|imports| - 1], dest) + SourceDir(w, i.package, dest + i.path)
  }

  ghost function PackageImports(w: World, imports: seq<TreeImport>, dest: Path): seq<Merge> {
    if imports == [] then [] else
      var i := imports[|imports| - 1];
      PackageImports(w, imports[..|imports| - 1], dest) + [Merge(dest + i.path, InstallTree(w, i.package))]
  }

  lemma SourceDirAnyRoom(w: World, p: Package, dest: Path, n: nat)
    requires Depth(w, Stage(p, Source), n)
    ensures SourceDirAt(w, p, dest, n) == SourceDir(w, p, dest)
  {
    var st := Stage(p, Source);
    var k := Height(w, st);
    KeysInWorld(w, st, n);
    KeysInWorld(w, st, k);
    if n <= k { SourceDirLocal(w, w, p, dest, n, k); } else { SourceDirLocal(w, w, p, dest, k, n); }
  }

  lemma BuildTreeAnyRoom(w: World, p: Package, n: nat)
    requires Depth(w, Stage(p, BuildKind(IndexOf(w, p))), n)
    ensures BuildTreeAt(w, p, n) == BuildTree(w, p)
  {
    var st := Stage(p, BuildKind(IndexOf(w, p)));
    var k := Height(w, st);
    KeysInWorld(w, st, n);
    KeysInWorld(w, st, k);
    if n <= k { BuildTreeLocal(w, w, p, n, k); } else { BuildTreeLocal(w, w, p, k, n); }
  }

  lemma InstallTreeAnyRoom(w: World, p: Package, n: nat)
    requires Depth(w, Stage(p, Installation), n)
    ensures InstallTreeAt(w, p, n) == InstallTree(w, p)
  {
    var st := Stage(p, Installation);
    var k := Height(w, st);
    KeysInWorld(w, st, n);
    KeysInWorld(w, st, k);
    if n <= k { InstallTreeLocal(w, w, p, n, k); } else { InstallTreeLocal(w, w, p, k, n); }
  }

  lemma {:induction false} SourceImportsAnyRoom(w: World, imports: seq<TreeImport>, dest: Path, n: nat)
    requires forall i :: i in imports ==> Depth(w, Stage(i.package, Source), n)
    ensures SourceImportsAt(w, imports, dest, n) == SourceImports(w, imports, dest)
    decreases |imports|
  {
    if imports != [] {
      var i := imports[|imports| - 1];
      SourceImportsAnyRoom(w, imports[..|imports| - 1], dest, n);
      SourceDirAnyRoom(w, i.package, dest + i.path, n);
    }
  }

  lemma {:induction false} PackageImportsAnyRoom(w: World, imports: seq<TreeImport>, dest: Path, n: nat)
    requires forall i :: i in imports ==> Depth(w, Stage(i.package, Installation), n)
    ensures PackageImportsAt(w, imports, dest, n) == PackageImports(w, imports, dest)
    decreases |imports|
  {
    if imports != [] {
      var i := imports[|imports| - 1];
      PackageImportsAnyRoom(w, imports[..|imports| - 1], dest, n);
      InstallTreeAnyRoom(w, i.package, n);
    }
  }

  lemma DepthOfImports(w: World, st: Stage, n: nat)
    requires Depth(w, st, n)
    ensures Shared(w, w, st, n)
  {
    KeysInWorld(w, st, n);
  }

  /** What a clean source directory is made of. */
  lemma SourceDirStep(w: World, p: Package, dest: Path)
    requires Sound(w, Stage(p, Source))
    ensures var source := IndexOf(w, p).source;
            SourceDir(w, p, dest) ==
              Layers([],
                SelfMerges(ChecksumsOf(w, p), source.self, dest),
                SourceImports(w, source.importSource, dest),
                PackageImports(w, source.importPackage, dest))
  {
    var n := Height(w, Stage(p, Source));
    DepthOfImports(w, Stage(p, Source), n);
    SharedSource(w, w, p, n);
    var source := IndexOf(w, p).source;
    SourceImportsAnyRoom(w, source.importSource, dest, n - 1);
    PackageImportsAnyRoom(w, source.importPackage, dest, n - 1);
  }

  lemma BuildTreeStep(w: World, p: Package)
    requires Sound(w, Stage(p, BuildKind(IndexOf(w, p))))
    ensures BuildTree(w, p) ==
              if BuildKind(IndexOf(w, p)).BuildEmpty? then Empty else Compiled(SourceDir(w, p, []))
  {
    var st := Stage(p, BuildKind(IndexOf(w, p)));
    var n := Height(w, st);
    DepthOfImports(w, st, n);
    SharedBuild(w, w, p, n);
    SourceDirAnyRoom(w, p, [], n - 1);
  }

  lemma InstallTreeStep(w: World, p: Package)
    requires Sound(w, Stage(p, Installation))
    ensures var package := IndexOf(w, p).package;
            InstallTree(w, p) ==
              Overlaid(Layers([Merge([], BuildTree(w, p))],
                SelfMerges(ChecksumsOf(w, p), package.self, []),
                SourceImports(w, package.importSource, []),
                PackageImports(w, package.importPackage, [])))
  {
    var st := Stage(p, Installation);
    var n := Height(w, st);
    DepthOfImports(w, st, n);
    SharedInstallation(w, w, p, n);
    var package := IndexOf(w, p).package;
    BuildTreeAnyRoom(w, p, n - 1);
    SourceImportsAnyRoom(w, package.importSource, [], n - 1);
    PackageImportsAnyRoom(w, package.importPackage, [], n - 1);
  }

  // ----- a snapshot determines content ----------------------------------------------------

  /** Worlds that agree on what a stage covers give it the same archive. */
  lemma TreesLocal(w1: World, w2: World, st: Stage)
    requires Sound(w1, st) && Agree(w1, w2, Keys(w1, st))
    ensures st.kind.Installation? ==> InstallTree(w1, st.package) == InstallTree(w2, st.package)
    ensures st.kind.Build? || st.kind.BuildEmpty? ==> BuildTree(w1, st.package) == BuildTree(w2, st.package)
    ensures st.kind.Source? ==> forall dest :: SourceDir(w1, st.package, dest) == SourceDir(w2, st.package, dest)
  {
    var n := Height(w1, st);
    KeysLocal(w1, w2, st, n, n);
    StageLocal(w1, w2, st);
    match st.kind {
      case Installation =>
        InstallTreeLocal(w1, w2, st.package, n, n);
        InstallTreeAnyRoom(w2, st.package, n);
      case Source =>
        forall dest
          ensures SourceDir(w1, st.package, dest) == SourceDir(w2, st.package, dest)
        {
          SourceDirLocal(w1, w2, st.package, dest, n, n);
          SourceDirAnyRoom(w2, st.package, dest, n);
        }
      case _ =>
        SoundParts(w1, st);
        BuildTreeLocal(w1, w2, st.package, n, n);
        BuildTreeAnyRoom(w2, st.package, n);
    }
  }

  /** If a stage has the same snapshot in two worlds, then every stage below it is the same in
      both: the stage graph, the indexes, the snapshots and the archives. */
  lemma SnapshotDeterminesContent(w1: World, w2: World, st: Stage, t: Stage)
    requires Sound(w1, st) && Sound(w2, st) && SnapshotOf(w1, st) == SnapshotOf(w2, st)
    requires Reachable(Next(w1), st, t)
    ensures Reachable(Next(w2), st, t)
    ensures Sound(w2, t) && SnapshotOf(w1, t) == SnapshotOf(w2, t)
    ensures IndexOf(w1, t.package) == IndexOf(w2, t.package) && Depends(w1, t) == Depends(w2, t)
    ensures t.kind.Installation? ==> InstallTree(w1, t.package) == InstallTree(w2, t.package)
    ensures t.kind.Build? || t.kind.BuildEmpty? ==> BuildTree(w1, t.package) == BuildTree(w2, t.package)
  {
    KeysStep(w1, st);
    KeysStep(w2, st);
    assert Keys(w1, st) == SnapshotOf(w1, st).Keys;
    forall p | p in Keys(w1, st)
      ensures p in w1 && p in w2 && w1[p] == w2[p]
    {
      assert p in SnapshotOf(w2, st);
    }
    var path :| IsPathFromTo(Next(w1), path, st, t);
    SharedAlong(w1, w2, path);
    assert IsPathFromTo(Next(w2), path, st, t);
    StageLocal(w1, w2, t);
    TreesLocal(w1, w2, t);
  }

  lemma {:induction false} SharedAlong(w1: World, w2: World, path: seq<Stage>)
    requires IsPath(Next(w1), path) && Sound(w1, path[0]) && Agree(w1, w2, Keys(w1, path[0]))
    ensures IsPath(Next(w2), path)
    ensures Sound(w1, path[|path| - 1]) && Agree(w1, w2, Keys(w1, path[|path| - 1]))
  {
    if |path| > 1 {
      LastEdge(Next(w1), path);
      LastEdge(Next(w2), path);
      hide Sound, Keys, Agree, Next, IsPath;
      SharedAlong(w1, w2, path[..|path| - 1]);
      SharedStep(w1, w2, path[|path| - 2], path[|path| - 1]);
    }
  }

  lemma SharedStep(w1: World, w2: World, st: Stage, t: Stage)
    requires Sound(w1, st) && Agree(w1, w2, Keys(w1, st)) && t in Next(w1)(st)
    ensures t in Next(w2)(st) && Sound(w1, t) && Agree(w1, w2, Keys(w1, t))
  {
    SoundParts(w1, st);
    KeysStep(w1, st);
    StageLocal(w1, w2, st);
    assert Keys(w1, t) <= KeysOfAll(w1, Depends(w1, st));
  }

  /** A snapshot is itself a world, and it gives its stage the same content. */
  lemma SnapshotIsWorld(w: World, st: Stage)
    requires Sound(w, st)
    ensures var s := SnapshotOf(w, st);
            Sound(s, st) && SnapshotOf(s, st) == s && IndexOf(s, st.package) == IndexOf(w, st.package) &&
            (st.kind.Installation? ==> InstallTree(s, st.package) == InstallTree(w, st.package)) &&
            (st.kind.Build? || st.kind.BuildEmpty? ==> BuildTree(s, st.package) == BuildTree(w, st.package))
  {
    var s := SnapshotOf(w, st);
    KeysStep(w, st);
    assert Agree(w, s, Keys(w, st));
    StageLocal(w, s, st);
    TreesLocal(w, s, st);
  }
}
