/** Where a clean build puts every file, and when there is anything to build: said of the index file
    of a package and of its checksum file, without the functions that compute it. */
module PmLayout {
  import opened Common
  import opened Splitting
  import opened PmEntry
  import opened PmWorld
  import opened PmClean

  const NOTHING := PackageStage([], [], [])

  // ----- when the builder runs ------------------------------------------------------------

  /** The builder runs for a package exactly when its index names anything for the source stage;
      so it never misses a file. */
  lemma BuiltUnlessNothing(w: World, p: Package)
    requires Sound(w, Stage(p, BuildKind(IndexOf(w, p))))
    ensures BuildTree(w, p) ==
              if IndexOf(w, p).source == NOTHING then Empty else Compiled(SourceDir(w, p, []))
    ensures SourceDir(w, p, []) != [] ==> BuildTree(w, p) == Compiled(SourceDir(w, p, []))
  {
    BuildTreeStep(w, p);
    SoundParts(w, Stage(p, BuildKind(IndexOf(w, p))));
    ImportsAreDepends(w, p);
    assert Stage(p, Source) in Depends(w, Stage(p, BuildKind(IndexOf(w, p))));
    if IndexOf(w, p).source == NOTHING {
      SourceDirStep(w, p, []);
    }
  }

  // ----- moving a directory ---------------------------------------------------------------

  /** The same directory, further down. */
  function Below(dest: Path, dir: seq<Merge>): (moved: seq<Merge>)
    ensures |moved| == |dir|
  {
    seq(|dir|, k requires 0 <= k < |dir| => Merge(dest + dir[k].path, dir[k].tree))
  }

  lemma BelowAppend(dest: Path, a: seq<Merge>, b: seq<Merge>)
    ensures Below(dest, a + b) == Below(dest, a) + Below(dest, b)
  {
  }

  lemma {:induction false} SelfMoves(c: Checksums, imports: seq<LocalImport>, dest: Path, sub: Path)
    ensures SelfMerges(c, imports, dest + sub) == Below(dest, SelfMerges(c, imports, sub))
  {
    if imports != [] {
      var init, i := imports[..|imports| - 1], imports[|imports| - 1];
      SelfMoves(c, init, dest, sub);
      Associate(dest, sub, i.path);
    }
  }

  lemma {:induction false} PackagesMove(w: World, imports: seq<TreeImport>, dest: Path, sub: Path)
    ensures PackageImports(w, imports, dest + sub) == Below(dest, PackageImports(w, imports, sub))
  {
    hide InstallTree;
    if imports != [] {
      var init, i := imports[..|imports| - 1], imports[|imports| - 1];
      PackagesMove(w, init, dest, sub);
      Associate(dest, sub, i.path);
    }
  }

  lemma {:induction false} SourcesMove(w: World, imports: seq<TreeImport>, dest: Path, sub: Path, n: nat)
    requires forall i :: i in imports ==> Depth(w, Stage(i.package, Source), n)
    ensures SourceImports(w, imports, dest + sub) == Below(dest, SourceImports(w, imports, sub))
    decreases n, 1, |imports|
  {
    hide SourceDir, Depth;
    if imports != [] {
      var init, i := imports[..|imports| - 1], imports[|imports| - 1];
      SourcesMove(w, init, dest, sub, n);
      Associate(dest, sub, i.path);
      MovesWithin(w, i.package, dest, sub + i.path, n);
      BelowAppend(dest, SourceImports(w, init, sub), SourceDir(w, i.package, sub + i.path));
    }
  }

  lemma {:induction false} MovesWithin(w: World, p: Package, dest: Path, sub: Path, n: nat)
    requires Depth(w, Stage(p, Source), n)
    ensures SourceDir(w, p, dest + sub) == Below(dest, SourceDir(w, p, sub))
    decreases n, 0, 0
  {
    var source, c := IndexOf(w, p).source, ChecksumsOf(w, p);
    assert Sound(w, Stage(p, Source));
    SourceDirStep(w, p, dest + sub);
    SourceDirStep(w, p, sub);
    ImportsAreDepends(w, p);
    assert AllDepth(w, Depends(w, Stage(p, Source)), n - 1);
    hide *;
    SelfMoves(c, source.self, dest, sub);
    SourcesMove(w, source.importSource, dest, sub, n - 1);
    PackagesMove(w, source.importPackage, dest, sub);
    LayersMove(dest, SelfMerges(c, source.self, sub), SourceImports(w, source.importSource, sub),
               PackageImports(w, source.importPackage, sub));
  }

  lemma LayersMove(dest: Path, self: seq<Merge>, sources: seq<Merge>, packages: seq<Merge>)
    ensures Below(dest, Layers([], self, sources, packages)) ==
              Layers([], Below(dest, self), Below(dest, sources), Below(dest, packages))
  {
  }

  /** A source directory unpacked at `dest` is the one unpacked at the top, moved there. */
  lemma SourceDirMoves(w: World, p: Package, dest: Path)
    ensures SourceDir(w, p, dest) == Below(dest, SourceDir(w, p, []))
  {
    if Sound(w, Stage(p, Source)) {
      MovesWithin(w, p, dest, [], Height(w, Stage(p, Source)));
      assert dest + [] == dest;
    }
  }

  // ----- what is in a directory, and where ------------------------------------------------

  /** A source of the package itself lies below its path, with the contents its checksum promises. */
  ghost predicate OwnFile(w: World, p: Package, imports: seq<LocalImport>, dest: Path, m: Merge) {
    exists i :: i in imports && p in w && i.source in w[p] && m == Merge(dest + i.path, Unpacked(w[p][i.source].file))
  }

  /** Whatever the source directory of an imported package holds lies below the path of the import. */
  ghost predicate ImportedFile(w: World, imports: seq<TreeImport>, dest: Path, m: Merge) {
    exists i, n :: i in imports && n in SourceDir(w, i.package, []) && m == Merge(dest + i.path + n.path, n.tree)
  }

  /** The installation of an imported package lies below the path of the import. */
  ghost predicate ImportedInstallation(w: World, imports: seq<TreeImport>, dest: Path, m: Merge) {
    exists i :: i in imports && m == Merge(dest + i.path, InstallTree(w, i.package))
  }

  /** The package's own sources, each below its path. */
  ghost predicate OwnInOrder(w: World, p: Package, imports: seq<LocalImport>, dest: Path, dir: seq<Merge>) {
    p in w && |dir| == |imports| &&
    forall k :: 0 <= k < |imports| ==>
      imports[k].source in w[p] && dir[k] == Merge(dest + imports[k].path, Unpacked(w[p][imports[k].source].file))
  }

  /** The imported installations, each below the path of its import. */
  ghost predicate InstallationsInOrder(w: World, imports: seq<TreeImport>, dest: Path, dir: seq<Merge>) {
    |dir| == |imports| &&
    forall k :: 0 <= k < |imports| ==>
      dir[k] == Merge(dest + imports[k].path, InstallTree(w, imports[k].package))
  }

  /** Each of the three lists of a stage is laid out in its order: own sources, imported sources,
      imported installations. */
  ghost predicate LaidOut(w: World, p: Package, stage: PackageStage, dest: Path, dir: seq<Merge>) {
    var a, c := |stage.self|, |dir| - |stage.importPackage|;
    a <= c && OwnInOrder(w, p, stage.self, dest, dir[..a]) && dir[a..c] == Gathered(w, stage.importSource, dest) &&
    InstallationsInOrder(w, stage.importPackage, dest, dir[c..])
  }

  /** The source directories of imported packages, one after the other. */
  ghost function Gathered(w: World, imports: seq<TreeImport>, dest: Path): seq<Merge> {
    if imports == [] then []
    else Below(dest + imports[0].path, SourceDir(w, imports[0].package, [])) + Gathered(w, imports[1..], dest)
  }

  lemma {:induction false} SelfAt(w: World, p: Package, imports: seq<LocalImport>, dest: Path)
    requires p in w && forall i :: i in imports ==> i.source in w[p]
    ensures OwnInOrder(w, p, imports, dest, SelfMerges(ChecksumsOf(w, p), imports, dest))
  {
    if imports != [] {
      SelfAt(w, p, imports[..|imports| - 1], dest);
      assert imports[|imports| - 1] in imports;
    }
  }

  lemma {:induction false} PackagesAt(w: World, imports: seq<TreeImport>, dest: Path)
    ensures InstallationsInOrder(w, imports, dest, PackageImports(w, imports, dest))
  {
    hide InstallTree;
    if imports != [] {
      PackagesAt(w, imports[..|imports| - 1], dest);
    }
  }

  lemma {:induction false} GatheredAppend(w: World, a: seq<TreeImport>, i: TreeImport, dest: Path)
    ensures Gathered(w, a + [i], dest) == Gathered(w, a, dest) + Below(dest + i.path, SourceDir(w, i.package, []))
  {
    hide SourceDir, Below;
    if a == [] {
      assert [i][1..] == [] && [] + [i] == [i];
    } else {
      assert (a + [i])[1..] == a[1..] + [i];
      GatheredAppend(w, a[1..], i, dest);
    }
  }

  lemma {:induction false} SourcesAreGathered(w: World, imports: seq<TreeImport>, dest: Path)
    ensures SourceImports(w, imports, dest) == Gathered(w, imports, dest)
  {
    hide SourceDir, Below;
    if imports != [] {
      var init, i := imports[..|imports| - 1], imports[|imports| - 1];
      SourcesAreGathered(w, init, dest);
      SourceDirMoves(w, i.package, dest + i.path);
      GatheredAppend(w, init, i, dest);
      assert init + [i] == imports;
    }
  }

  /** Where everything in a source directory lies, and in which order it is put there. */
  lemma SourceLayout(w: World, p: Package, dest: Path)
    requires Sound(w, Stage(p, Source))
    ensures LaidOut(w, p, IndexOf(w, p).source, dest, SourceDir(w, p, dest))
  {
    SoundParts(w, Stage(p, Source));
    SourceDirStep(w, p, dest);
    StageLayout(w, p, IndexOf(w, p).source, dest);
  }

  /** The same for an installation: it starts from the build, and the rest goes over it. */
  lemma InstallationLayout(w: World, p: Package)
    requires Sound(w, Stage(p, Installation))
    ensures var tree := InstallTree(w, p);
            tree.Overlaid? && tree.merges != [] && tree.merges[0] == Merge([], BuildTree(w, p)) &&
            LaidOut(w, p, IndexOf(w, p).package, [], tree.merges[1..])
  {
    OwnSourcesListed(w, p);
    InstallTreeStep(w, p);
    var package := IndexOf(w, p).package;
    StageLayout(w, p, package, []);
    hide LaidOut, SelfMerges, SourceImports, PackageImports, InstallTree, BuildTree, Sound, IndexOf, ChecksumsOf;
    LayersOver(Merge([], BuildTree(w, p)), SelfMerges(ChecksumsOf(w, p), package.self, []),
               SourceImports(w, package.importSource, []), PackageImports(w, package.importPackage, []));
  }

  lemma LayersOver(base: Merge, self: seq<Merge>, sources: seq<Merge>, packages: seq<Merge>)
    ensures Layers([base], self, sources, packages) == [base] + Layers([], self, sources, packages)
  {
  }

  /** The sources of a package are listed as soon as it can be installed. */
  lemma OwnSourcesListed(w: World, p: Package)
    requires Sound(w, Stage(p, Installation))
    ensures p in w && forall i :: i in IndexOf(w, p).package.self ==> i.source in w[p]
  {
    SoundParts(w, Stage(p, Installation));
    ImportsAreDepends(w, p);
    var st := Stage(p, BuildKind(IndexOf(w, p)));
    SoundParts(w, st);
    assert Stage(p, Source) in Depends(w, st);
    SoundParts(w, Stage(p, Source));
  }

  lemma StageLayout(w: World, p: Package, stage: PackageStage, dest: Path)
    requires p in w && forall i :: i in stage.self ==> i.source in w[p]
    ensures LaidOut(w, p, stage, dest,
              Layers([], SelfMerges(ChecksumsOf(w, p), stage.self, dest), SourceImports(w, stage.importSource, dest),
                PackageImports(w, stage.importPackage, dest)))
  {
    var self := SelfMerges(ChecksumsOf(w, p), stage.self, dest);
    var sources := SourceImports(w, stage.importSource, dest);
    var packages := PackageImports(w, stage.importPackage, dest);
    SelfAt(w, p, stage.self, dest);
    SourcesAreGathered(w, stage.importSource, dest);
    PackagesAt(w, stage.importPackage, dest);
    FromParts(w, p, stage, dest, self, sources, packages);
    hide *;
  }

  lemma FromParts(w: World, p: Package, stage: PackageStage, dest: Path,
                  self: seq<Merge>, sources: seq<Merge>, packages: seq<Merge>)
    requires OwnInOrder(w, p, stage.self, dest, self) && sources == Gathered(w, stage.importSource, dest)
    requires InstallationsInOrder(w, stage.importPackage, dest, packages)
    ensures LaidOut(w, p, stage, dest, Layers([], self, sources, packages))
  {
    assert |self| == |stage.self| && |packages| == |stage.importPackage|;
    LayersParts(self, sources, packages);
    hide OwnInOrder, InstallationsInOrder, Gathered, Layers;
  }

  lemma LayersParts(self: seq<Merge>, sources: seq<Merge>, packages: seq<Merge>)
    ensures var dir, a := Layers([], self, sources, packages), |self|;
            var c := |dir| - |packages|;
            a <= c && dir[..a] == self && dir[a..c] == sources && dir[c..] == packages
  {
  }

  lemma {:induction false} GatheredMembers(w: World, imports: seq<TreeImport>, dest: Path, m: Merge)
    ensures m in Gathered(w, imports, dest) <==> ImportedFile(w, imports, dest, m)
  {
    hide SourceDir;
    if imports != [] {
      var i, rest := imports[0], imports[1..];
      assert imports == [i] + rest;
      GatheredMembers(w, rest, dest, m);
      BelowMembers(dest + i.path, SourceDir(w, i.package, []), m);
      hide Below;
      if ImportedFile(w, imports, dest, m) && !ImportedFile(w, rest, dest, m) {
        var j, n :| j in imports && n in SourceDir(w, j.package, []) && m == Merge(dest + j.path + n.path, n.tree);
        assert j !in rest;
      } else if ImportedFile(w, rest, dest, m) {
        var j, n :| j in rest && n in SourceDir(w, j.package, []) && m == Merge(dest + j.path + n.path, n.tree);
        assert j in imports;
      }
    }
  }

  lemma BelowMembers(dest: Path, dir: seq<Merge>, m: Merge)
    ensures m in Below(dest, dir) <==> exists n :: n in dir && m == Merge(dest + n.path, n.tree)
  {
    if m in Below(dest, dir) {
      var k :| 0 <= k < |dir| && Below(dest, dir)[k] == m;
      assert dir[k] in dir;
    }
    forall n | n in dir && m == Merge(dest + n.path, n.tree)
      ensures m in Below(dest, dir)
    {
      var k :| 0 <= k < |dir| && dir[k] == n;
      assert Below(dest, dir)[k] == m;
    }
  }

  lemma OwnMembers(w: World, p: Package, imports: seq<LocalImport>, dest: Path, dir: seq<Merge>, m: Merge)
    requires OwnInOrder(w, p, imports, dest, dir)
    ensures m in dir <==> OwnFile(w, p, imports, dest, m)
  {
    if OwnFile(w, p, imports, dest, m) {
      var i :| i in imports && i.source in w[p] && m == Merge(dest + i.path, Unpacked(w[p][i.source].file));
      var k :| 0 <= k < |imports| && imports[k] == i;
      assert dir[k] == m;
    }
    if m in dir {
      var k :| 0 <= k < |dir| && dir[k] == m;
      assert imports[k] in imports;
    }
  }

  lemma InstallationMembers(w: World, imports: seq<TreeImport>, dest: Path, dir: seq<Merge>, m: Merge)
    requires InstallationsInOrder(w, imports, dest, dir)
    ensures m in dir <==> ImportedInstallation(w, imports, dest, m)
  {
    hide InstallTree;
    if ImportedInstallation(w, imports, dest, m) {
      var i :| i in imports && m == Merge(dest + i.path, InstallTree(w, i.package));
      var k :| 0 <= k < |imports| && imports[k] == i;
      assert dir[k] == m;
    }
    if m in dir {
      var k :| 0 <= k < |dir| && dir[k] == m;
      assert imports[k] in imports;
    }
  }

  lemma LaidOutMembers(w: World, p: Package, stage: PackageStage, dest: Path, dir: seq<Merge>, m: Merge)
    requires LaidOut(w, p, stage, dest, dir)
    ensures m in dir <==> OwnFile(w, p, stage.self, dest, m) || ImportedFile(w, stage.importSource, dest, m) ||
                          ImportedInstallation(w, stage.importPackage, dest, m)
  {
    var a, c := |stage.self|, |dir| - |stage.importPackage|;
    OwnMembers(w, p, stage.self, dest, dir[..a], m);
    GatheredMembers(w, stage.importSource, dest, m);
    InstallationMembers(w, stage.importPackage, dest, dir[c..], m);
    assert dir[a..c] == Gathered(w, stage.importSource, dest);
    hide *;
    InParts(dir, a, c, m);
  }

  /** A source directory holds the package's own sources, what the imported source directories hold
      and the imported installations, each below the path of its import, and nothing else. */
  lemma SourceHolds(w: World, p: Package, dest: Path, m: Merge)
    requires Sound(w, Stage(p, Source))
    ensures var source := IndexOf(w, p).source;
            m in SourceDir(w, p, dest) <==>
              OwnFile(w, p, source.self, dest, m) || ImportedFile(w, source.importSource, dest, m) ||
              ImportedInstallation(w, source.importPackage, dest, m)
  {
    SourceLayout(w, p, dest);
    LaidOutMembers(w, p, IndexOf(w, p).source, dest, SourceDir(w, p, dest), m);
  }

  /** An installation holds the build, and over it the same three for the package stage. */
  lemma InstallationHolds(w: World, p: Package, m: Merge)
    requires Sound(w, Stage(p, Installation))
    ensures var package := IndexOf(w, p).package;
            InstallTree(w, p).Overlaid? &&
            (m in InstallTree(w, p).merges <==>
               m == Merge([], BuildTree(w, p)) || OwnFile(w, p, package.self, [], m) ||
               ImportedFile(w, package.importSource, [], m) || ImportedInstallation(w, package.importPackage, [], m))
  {
    InstallationLayout(w, p);
    var merges := InstallTree(w, p).merges;
    assert merges == [merges[0]] + merges[1..];
    LaidOutMembers(w, p, IndexOf(w, p).package, [], merges[1..], m);
  }
}
