/** Packages as the package manager sees them, and what a build from scratch makes of them.

    A checksum file lists a digest for every file of a package, the index included. Digests are
    free constructors (equal digests, equal files), so a table of checksum files fixes every
    index and every source archive it lists: such a table is called a world, and it is the same
    thing as a snapshot. Compiling, packing and overlaying directories build free terms, so two
    equal trees are equal whatever the outside programs do. */
module PmWorld {
  import opened Common
  import opened Graphs
  import opened PmEntry

  type Path = seq<string>

  /** A package: an entry, whose components were checked when it was read from a name. */
  type Package = e: Location | ValidLocation(e) witness []

  /** `entry::absolute`. */
  function AbsoluteName(e: Package, root: Package): Package {
    AbsoluteIsFixedPoint(e, root, []);
    Absolute(e, root)
  }

  /** Writing a package's name and reading it again, as a snapshot keyed by `package.name()` does. */
  function Rekey(e: Package): (r: Package)
    ensures r == e
  {
    ParseOfName(e);
    if e == [] then e else Parse(Name(e).value).value
  }

  datatype TreeImport = TreeImport(path: Path, package: Package)
  datatype LocalImport = LocalImport(path: Path, source: string)

  datatype PackageStage = PackageStage(
    importSource: seq<TreeImport>, importPackage: seq<TreeImport>, self: seq<LocalImport>)
  {
    predicate Empty() {
      self == [] && importPackage == [] && importSource == []
    }

    function Absolute(root: Package): PackageStage {
      PackageStage(AbsoluteImports(importSource, root), AbsoluteImports(importPackage, root), self)
    }
  }

  function AbsoluteImports(imports: seq<TreeImport>, root: Package): seq<TreeImport> {
    seq(|imports|, i requires 0 <= i < |imports| =>
      imports[i].(package := AbsoluteName(imports[i].package, root)))
  }

  datatype Index = Index(source: PackageStage, package: PackageStage) {
    function Absolute(root: Package): Index {
      Index(source.Absolute(root), package.Absolute(root))
    }

    /** `index::all`: every package imported by either stage. */
    function All(): set<Package> {
      Packages(source.importPackage) + Packages(source.importSource) +
      Packages(package.importPackage) + Packages(package.importSource)
    }

    /** `index::sources`: every source archive the package itself needs. */
    function Sources(): set<string> {
      (set i | i in source.self :: i.source) + (set i | i in package.self :: i.source)
    }
  }

  function Packages(imports: seq<TreeImport>): set<Package> {
    set i | i in imports :: i.package
  }

  /** A file's contents, together with the index they parse to, if any. */
  datatype File = File(bytes: string, parsed: Option<Index>)

  datatype Digest = Digest(file: File)

  type Checksums = map<string, Digest>

  /** bunsan::pm::snapshot. */
  type Snapshot = map<Package, Checksums>

  type World = Snapshot

  /** The name of the index file, `format_config::get_index`. */
  const INDEX := "index"

  // ----- stages and their dependencies ----------------------------------------------------

  datatype Kind = Installation | Build | BuildEmpty | Source

  datatype Stage = Stage(package: Package, kind: Kind)

  /** The index of `p` can be read: the package has a name, its checksum file lists the index,
      and the index parses. */
  ghost predicate Readable(w: World, p: Package) {
    p != [] && p in w && INDEX in w[p] && w[p][INDEX].file.parsed.Some?
  }

  /** What `cache::read_index` returns; an empty index where it throws. */
  ghost function IndexOf(w: World, p: Package): Index {
    if Readable(w, p) then w[p][INDEX].file.parsed.value.Absolute(p) else NO_INDEX
  }

  const NO_INDEX := Index(PackageStage([], [], []), PackageStage([], [], []))

  function StagesOf(imports: seq<TreeImport>, kind: Kind): seq<Stage> {
    seq(|imports|, i requires 0 <= i < |imports| => Stage(imports[i].package, kind))
  }

  function BuildKind(index: Index): Kind {
    if index.source.Empty() then BuildEmpty else Build
  }

  /** The stages `update_package_depends` brings up to date before `kind` of `p`, in order. */
  function DependsOf(index: Index, p: Package, kind: Kind): seq<Stage> {
    match kind
    case Installation =>
      StagesOf(index.package.importPackage, Installation) +
      StagesOf(index.package.importSource, Source) + [Stage(p, BuildKind(index))]
    case Build => [Stage(p, Source)]
    case BuildEmpty => [Stage(p, Source)]
    case Source =>
      StagesOf(index.source.importPackage, Installation) +
      StagesOf(index.source.importSource, Source)
  }

  ghost function Depends(w: World, st: Stage): seq<Stage> {
    DependsOf(IndexOf(w, st.package), st.package, st.kind)
  }

  ghost function Next(w: World): Stage -> set<Stage> {
    (st: Stage) => set t | t in Depends(w, st)
  }

  /** Every source archive the package needs is listed in its checksum file, under a plain name. */
  ghost predicate SourcesListed(w: World, p: Package) {
    p in w && IndexOf(w, p).Sources() <= w[p].Keys && forall s :: s in IndexOf(w, p).Sources() ==> IsFileName(s)
  }

  /** A source names one file; an index may hold any string. */
  predicate IsFileName(source: string) {
    '/' !in source
  }

  /** What a stage asks of its own package. */
  ghost predicate WellFormed(w: World, st: Stage) {
    Readable(w, st.package) &&
    (st.kind.Source? ==> SourcesListed(w, st.package)) &&
    (st.kind.Build? || st.kind.BuildEmpty? ==> st.kind == BuildKind(IndexOf(w, st.package)))
  }

  lemma StagesOfMembers(imports: seq<TreeImport>, kind: Kind)
    ensures forall i :: i in imports ==> Stage(i.package, kind) in StagesOf(imports, kind)
    ensures forall st :: st in StagesOf(imports, kind) ==>
              st.kind == kind && st.package in Packages(imports)
  {
    forall i | i in imports
      ensures Stage(i.package, kind) in StagesOf(imports, kind)
    {
      var k :| 0 <= k < |imports| && imports[k] == i;
      assert StagesOf(imports, kind)[k] == Stage(i.package, kind);
    }
    forall st | st in StagesOf(imports, kind)
      ensures st.kind == kind && st.package in Packages(imports)
    {
      var k :| 0 <= k < |imports| && StagesOf(imports, kind)[k] == st;
      assert imports[k] in imports;
    }
  }

  /** Stages depend on imported packages, and on earlier stages of their own package. */
  lemma DependsMembers(index: Index, p: Package, kind: Kind)
    ensures forall d :: d in DependsOf(index, p, kind) ==>
              (d.package == p && (d.kind.Source? || d.kind == BuildKind(index))) ||
              (d.package in index.All() && (d.kind.Source? || d.kind.Installation?))
  {
    hide BuildKind;
    StagesOfMembers(index.source.importSource, Source);
    StagesOfMembers(index.source.importPackage, Installation);
    StagesOfMembers(index.package.importSource, Source);
    StagesOfMembers(index.package.importPackage, Installation);
    hide StagesOf, Packages;
  }

  // ----- stages a build from scratch gets through -----------------------------------------

  /** `st` can be built from scratch with at most `n` stages on top of each other. */
  ghost predicate Depth(w: World, st: Stage, n: nat)
    decreases n, 0
  {
    n > 0 && WellFormed(w, st) && AllDepth(w, Depends(w, st), n - 1)
  }

  ghost predicate AllDepth(w: World, stages: seq<Stage>, n: nat)
    decreases n, 1
  {
    forall d :: d in stages ==> Depth(w, d, n)
  }

  /** `st` can be built from scratch. */
  ghost predicate Sound(w: World, st: Stage) {
    exists n :: Depth(w, st, n)
  }

  lemma {:induction false} DepthMonotone(w: World, st: Stage, n: nat, m: nat)
    requires Depth(w, st, n) && n <= m
    ensures Depth(w, st, m)
    decreases n
  {
    forall d | d in Depends(w, st)
      ensures Depth(w, d, m - 1)
    {
      DepthMonotone(w, d, n - 1, m - 1);
    }
  }

  lemma {:induction false} DepthOfAll(w: World, stages: seq<Stage>) returns (n: nat)
    requires forall d :: d in stages ==> Sound(w, d)
    ensures AllDepth(w, stages, n)
  {
    if stages == [] {
      n := 0;
    } else {
      var m := DepthOfAll(w, stages[1..]);
      assert Sound(w, stages[0]);
      var k: nat :| Depth(w, stages[0], k);
      n := m + k;
      forall d | d in stages
        ensures Depth(w, d, n)
      {
        DepthMonotone(w, d, if d == stages[0] then k else m, n);
      }
    }
  }

  /** A stage is sound as soon as it is well formed and everything it depends on is sound. */
  lemma SoundStep(w: World, st: Stage)
    requires WellFormed(w, st)
    requires forall d :: d in Depends(w, st) ==> Sound(w, d)
    ensures Sound(w, st)
  {
    var n := DepthOfAll(w, Depends(w, st));
    assert Depth(w, st, n + 1);
  }

  lemma SoundParts(w: World, st: Stage)
    requires Sound(w, st)
    ensures WellFormed(w, st)
    ensures forall d :: d in Depends(w, st) ==> Sound(w, d)
  {
    var n: nat :| Depth(w, st, n);
    forall d | d in Depends(w, st)
      ensures Sound(w, d)
    {
      assert AllDepth(w, Depends(w, st), n - 1);
    }
  }

  /** A sound stage reaches no cycle. */
  lemma SoundHasNoCycle(w: World, st: Stage)
    requires Sound(w, st)
    ensures !CycleReachable(Next(w), st)
  {
    if CycleReachable(Next(w), st) {
      var cycle :| IsCycle(Next(w), cycle) && Reachable(Next(w), st, cycle[0]);
      SoundReaches(w, st, cycle[0]);
      var n: nat :| Depth(w, cycle[0], n);
      CycleSinks(w, cycle, n);
    }
  }

  lemma SoundReaches(w: World, a: Stage, b: Stage)
    requires Sound(w, a) && Reachable(Next(w), a, b)
    ensures Sound(w, b)
  {
    var path :| IsPathFromTo(Next(w), path, a, b);
    SoundAlong(w, path);
  }

  lemma {:induction false} SoundAlong(w: World, path: seq<Stage>)
    requires IsPath(Next(w), path) && Sound(w, path[0])
    ensures Sound(w, path[|path| - 1])
  {
    if |path| > 1 {
      LastEdge(Next(w), path);
      hide Sound, IsPath, Depends;
      SoundAlong(w, path[..|path| - 1]);
      SoundParts(w, path[|path| - 2]);
    }
  }

  lemma {:induction false} SinkAlong(w: World, path: seq<Stage>, n: nat)
    requires IsPath(Next(w), path) && Depth(w, path[0], n)
    ensures |path| <= n && Depth(w, path[|path| - 1], n - |path| + 1)
    decreases |path|
  {
    if |path| > 1 {
      LastEdge(Next(w), path);
      hide IsPath, Depends, WellFormed;
      SinkAlong(w, path[..|path| - 1], n);
      assert Depth(w, path[|path| - 2], n - |path| + 2);
    }
  }

  /** Going round a cycle would leave less and less room below. */
  lemma {:induction false} CycleSinks(w: World, cycle: seq<Stage>, n: nat)
    requires IsCycle(Next(w), cycle)
    ensures !Depth(w, cycle[0], n)
    decreases n
  {
    if Depth(w, cycle[0], n) {
      SinkAlong(w, cycle, n);
      CycleSinks(w, cycle, n - |cycle| + 1);
    }
  }

  // ----- what an index file says ----------------------------------------------------------

  /** The imports as the index file of `r/x` writes them, and what they stand for: a name that
      starts with `..` is resolved beside the package, one that starts with `.` below it, and any
      other from the top. */
  ghost predicate ResolvedFrom(written: seq<TreeImport>, resolved: seq<TreeImport>, r: Location, x: string) {
    |resolved| == |written| &&
    forall k :: 0 <= k < |written| ==>
      resolved[k].path == written[k].path && IsPlain(resolved[k].package) &&
      forall q: Location :: IsPlain(q) ==>
        (written[k].package == [PARENT] + q ==> resolved[k].package == r + q) &&
        (written[k].package == [THIS] + q ==> resolved[k].package == r + [x] + q) &&
        (written[k].package == q ==> resolved[k].package == q)
  }

  lemma ImportsResolve(imports: seq<TreeImport>, r: Location, x: string)
    requires ValidLocation(r + [x]) && IsPlain(r + [x])
    ensures ResolvedFrom(imports, AbsoluteImports(imports, r + [x]), r, x)
  {
    forall k | 0 <= k < |imports|
      ensures IsPlain(AbsoluteImports(imports, r + [x])[k].package)
    {
      AbsoluteIsFixedPoint(imports[k].package, r + [x], []);
    }
    forall q: Location | IsPlain(q)
      ensures Absolute([PARENT] + q, r + [x]) == r + q
      ensures Absolute([THIS] + q, r + [x]) == r + [x] + q
      ensures Absolute(q, r + [x]) == q
    {
      AbsoluteOfRelative(q, r, x);
    }
  }

  /** Reading the index of a package resolves all four lists of imports against it, and leaves the
      sources of the package alone. */
  lemma IndexIsResolved(w: World, r: Location, x: string)
    requires ValidLocation(r + [x]) && IsPlain(r + [x]) && Readable(w, r + [x])
    ensures var written, index := w[r + [x]][INDEX].file.parsed.value, IndexOf(w, r + [x]);
            ResolvedFrom(written.source.importSource, index.source.importSource, r, x) &&
            ResolvedFrom(written.source.importPackage, index.source.importPackage, r, x) &&
            ResolvedFrom(written.package.importSource, index.package.importSource, r, x) &&
            ResolvedFrom(written.package.importPackage, index.package.importPackage, r, x) &&
            index.source.self == written.source.self && index.package.self == written.package.self
  {
    var written := w[r + [x]][INDEX].file.parsed.value;
    ImportsResolve(written.source.importSource, r, x);
    ImportsResolve(written.source.importPackage, r, x);
    ImportsResolve(written.package.importSource, r, x);
    ImportsResolve(written.package.importPackage, r, x);
    hide ResolvedFrom, AbsoluteImports;
  }

  /** A package is imported exactly when one of the four lists names it. */
  lemma AllImports(index: Index, q: Package)
    ensures q in index.All() <==>
              exists i: TreeImport :: i.package == q &&
                (i in index.source.importPackage || i in index.source.importSource ||
                 i in index.package.importPackage || i in index.package.importSource)
  {
  }

  /** A source is needed exactly when one of the two stages names it. */
  lemma AllSources(index: Index, s: string)
    ensures s in index.Sources() <==>
              exists i: LocalImport :: i.source == s && (i in index.source.self || i in index.package.self)
  {
  }

  /** Every import stands for a plain name, whatever package it was read from. */
  lemma ImportsArePlain(w: World, p: Package, q: Package)
    requires q in IndexOf(w, p).All()
    ensures IsPlain(q)
  {
    AllImports(IndexOf(w, p), q);
    forall e: Location
      ensures IsPlain(Absolute(e, p))
    {
      AbsoluteIsFixedPoint(e, p, []);
    }
  }

  /** The stages below a stage, and no others. */
  lemma DependsExactly(w: World, p: Package, d: Stage)
    ensures var index := IndexOf(w, p);
            (d in Depends(w, Stage(p, Source)) <==>
               (exists i :: i in index.source.importPackage && d == Stage(i.package, Installation)) ||
               (exists i :: i in index.source.importSource && d == Stage(i.package, Source))) &&
            (d in Depends(w, Stage(p, Installation)) <==>
               (exists i :: i in index.package.importPackage && d == Stage(i.package, Installation)) ||
               (exists i :: i in index.package.importSource && d == Stage(i.package, Source)) ||
               d == Stage(p, if index.source == PackageStage([], [], []) then BuildEmpty else Build)) &&
            (d in Depends(w, Stage(p, Build)) <==> d == Stage(p, Source)) &&
            (d in Depends(w, Stage(p, BuildEmpty)) <==> d == Stage(p, Source))
  {
    var index := IndexOf(w, p);
    StageIn(index.source.importSource, Source, d);
    StageIn(index.source.importPackage, Installation, d);
    StageIn(index.package.importSource, Source, d);
    StageIn(index.package.importPackage, Installation, d);
    hide StagesOf, IndexOf;
  }

  lemma StageIn(imports: seq<TreeImport>, kind: Kind, d: Stage)
    ensures d in StagesOf(imports, kind) <==> exists i :: i in imports && d == Stage(i.package, kind)
  {
    StagesOfMembers(imports, kind);
    if d in StagesOf(imports, kind) {
      var k :| 0 <= k < |imports| && StagesOf(imports, kind)[k] == d;
      assert imports[k] in imports;
    }
  }
}
