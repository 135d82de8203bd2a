/** The cache directory, the remote repository, and when what they hold is right. */
module PmCache {
  import opened Common
  import opened Graphs
  import opened PmEntry
  import opened PmWorld
  import opened PmClean

  /** What the server offers for one package. */
  datatype RemotePackage = RemotePackage(checksum: Checksums, index: Option<File>, sources: map<string, File>)

  type Remote = map<Package, RemotePackage>

  /** The world of a run: every checksum file the server offers. */
  ghost function WorldOf(remote: Remote): World {
    map p | p in remote :: remote[p].checksum
  }

  datatype Error =
    | NoName
    | NoPackage(package: Package)
    | NoChecksum(package: Package, file: string)
    | InvalidFileName(package: Package, file: string)
    | FetchFailed(package: Package, file: string)
    | InconsistentChecksum(package: Package, file: string)
    | UnreadableIndex(package: Package)
    | CircularDependencies(package: Package)
    | BuildFailed(package: Package)

  /** The files kept in the cache directory. */
  datatype Cache = Cache(
    checksums: map<Package, Checksums>,
    indexes: map<Package, File>,
    sources: map<(Package, string), File>,
    builds: map<Package, Tree>,
    buildSnapshots: map<Package, Snapshot>,
    installations: map<Package, Tree>,
    installationSnapshots: map<Package, Snapshot>)

  const EMPTY_CACHE := Cache(map[], map[], map[], map[], map[], map[], map[])

  // ----- archives that fit their snapshots ------------------------------------------------

  ghost function BuildStage(w: World, p: Package): Stage {
    Stage(p, BuildKind(IndexOf(w, p)))
  }

  /** The archive is what a clean build makes of the files listed in the snapshot. */
  ghost predicate HonestBuild(p: Package, tree: Tree, s: Snapshot) {
    Sound(s, BuildStage(s, p)) && SnapshotOf(s, BuildStage(s, p)) == s && tree == BuildTree(s, p)
  }

  ghost predicate HonestInstallation(p: Package, tree: Tree, s: Snapshot) {
    Sound(s, Stage(p, Installation)) && SnapshotOf(s, Stage(p, Installation)) == s && tree == InstallTree(s, p)
  }

  /** Every archive stored with a snapshot fits it. Nothing is said of the fetched files. */
  ghost predicate Honest(c: Cache) {
    (forall p :: p in c.builds && p in c.buildSnapshots ==>
       HonestBuild(p, c.builds[p], c.buildSnapshots[p])) &&
    (forall p :: p in c.installations && p in c.installationSnapshots ==>
       HonestInstallation(p, c.installations[p], c.installationSnapshots[p]))
  }

  // ----- metadata of the current run ------------------------------------------------------

  /** The checksum file of `p` is the server's, and the index is the one it lists. */
  ghost predicate Refreshed(c: Cache, w: World, p: Package) {
    Readable(w, p) && p in c.checksums && c.checksums[p] == w[p] &&
    p in c.indexes && c.indexes[p] == w[p][INDEX].file
  }

  /** `packages` are refreshed and import one another only. */
  ghost predicate Ready(c: Cache, w: World, packages: set<Package>) {
    forall p :: p in packages ==> Refreshed(c, w, p) && IndexOf(w, p).All() <= packages
  }

  lemma ReadyDepends(c: Cache, w: World, packages: set<Package>, st: Stage)
    requires Ready(c, w, packages) && st.package in packages
    ensures forall d :: d in Depends(w, st) ==>
              d.package in packages && BuildKindFits(w, d)
  {
    DependsMembers(IndexOf(w, st.package), st.package, st.kind);
    hide DependsOf, IndexOf, Refreshed;
  }

  ghost predicate BuildKindFits(w: World, st: Stage) {
    st.kind == BuildKind(IndexOf(w, st.package)) || (st.kind != Build && st.kind != BuildEmpty)
  }

  // ----- stages that are up to date -------------------------------------------------------

  /** What the cache holds for a stage is what a clean build in `w` would leave. */
  ghost predicate UpToDate(c: Cache, w: World, st: Stage) {
    var p := st.package;
    match st.kind
    case Installation =>
      p in c.installations && c.installations[p] == InstallTree(w, p) &&
      p in c.installationSnapshots && c.installationSnapshots[p] == SnapshotOf(w, st)
    case Source =>
      forall s :: s in IndexOf(w, p).Sources() ==>
        (p, s) in c.sources && c.sources[(p, s)] == Promised(ChecksumsOf(w, p), s)
    case _ =>
      p in c.builds && c.builds[p] == BuildTree(w, p) &&
      p in c.buildSnapshots && c.buildSnapshots[p] == SnapshotOf(w, st)
  }

  /** The archive or the snapshot of a stage is missing, or the snapshot is not the current one. */
  ghost predicate Stale(c: Cache, w: World, st: Stage) {
    var p := st.package;
    match st.kind
    case Installation =>
      p !in c.installations || p !in c.installationSnapshots || c.installationSnapshots[p] != SnapshotOf(w, st)
    case Source => false
    case _ =>
      p !in c.builds || p !in c.buildSnapshots || c.buildSnapshots[p] != SnapshotOf(w, st)
  }

  /** Stages that were up to date still are, and only `st` may have become fresh or stale. */
  ghost predicate Kept(c: Cache, c': Cache, w: World, st: Stage) {
    (forall t :: Sound(w, t) && UpToDate(c, w, t) ==> UpToDate(c', w, t)) &&
    (forall t :: Sound(w, t) && t != st ==> (Stale(c', w, t) <==> Stale(c, w, t))) &&
    (forall k: (Package, string) :: Stage(k.0, Source) != st ==> SameSource(c.sources, c'.sources, k))
  }

  ghost predicate SameSource(a: map<(Package, string), File>, b: map<(Package, string), File>, k: (Package, string)) {
    (k in a <==> k in b) && (k in a ==> a[k] == b[k])
  }

  /** Two caches hold the same of a package, of all that is ever kept of one. */
  ghost predicate SamePackage(c: Cache, c': Cache, q: Package) {
    SameAt(c.checksums, c'.checksums, q) && SameAt(c.indexes, c'.indexes, q) && SameAt(c.builds, c'.builds, q) &&
    SameAt(c.buildSnapshots, c'.buildSnapshots, q) && SameAt(c.installations, c'.installations, q) &&
    SameAt(c.installationSnapshots, c'.installationSnapshots, q) &&
    forall s :: SameSource(c.sources, c'.sources, (q, s))
  }

  ghost predicate SameAt<T(!new)>(a: map<Package, T>, b: map<Package, T>, q: Package) {
    (q in a <==> q in b) && (q in a ==> a[q] == b[q])
  }

  /** Nothing has changed but for these packages. */
  ghost predicate Untouched(c: Cache, c': Cache, packages: set<Package>) {
    forall q :: q !in packages ==> SamePackage(c, c', q)
  }

  lemma UntouchedItself(c: Cache, packages: set<Package>)
    ensures Untouched(c, c, packages)
  {
  }

  lemma UntouchedOnwards(c: Cache, c': Cache, c'': Cache, packages: set<Package>)
    requires Untouched(c, c', packages) && Untouched(c', c'', packages)
    ensures Untouched(c, c'', packages)
  {
    forall q | q !in packages
      ensures SamePackage(c, c'', q)
    {
      assert SamePackage(c, c', q) && SamePackage(c', c'', q);
      forall s
        ensures SameSource(c.sources, c''.sources, (q, s))
      {
        assert SameSource(c.sources, c'.sources, (q, s)) && SameSource(c'.sources, c''.sources, (q, s));
      }
    }
  }

  lemma KeptUnchanged(c: Cache, w: World, st: Stage)
    ensures Kept(c, c, w, st)
  {
  }

  ghost predicate Finished(c: Cache, c': Cache, w: World, st: Stage, below: bool, upd: bool) {
    UpToDate(c', w, st) && Kept(c, c', w, st) && (upd <==> below || Stale(c, w, st))
  }

  /** In an honest cache, the archive behind a current snapshot is the right one. */
  lemma CurrentSnapshotSuffices(c: Cache, w: World, st: Stage)
    requires Honest(c) && Sound(w, st) && !st.kind.Source? && !Stale(c, w, st)
    ensures UpToDate(c, w, st)
  {
    SnapshotIsWorld(w, st);
    SoundParts(w, st);
  }

  /** Storing the right archive with the right snapshot touches no other stage. */
  lemma BuildKept(c: Cache, w: World, p: Package, t: Stage)
    requires Sound(w, t)
    ensures var st := BuildStage(w, p);
            var c' := c.(builds := c.builds[p := BuildTree(w, p)],
                         buildSnapshots := c.buildSnapshots[p := SnapshotOf(w, st)]);
            (UpToDate(c, w, t) ==> UpToDate(c', w, t)) && (t != st ==> (Stale(c', w, t) <==> Stale(c, w, t)))
  {
    SoundParts(w, t);
    hide Sound, Keys, IndexOf, InstallTree, BuildTree, SnapshotOf, Promised, Readable, SourcesListed;
  }

  lemma InstallationKept(c: Cache, w: World, p: Package, t: Stage)
    ensures var st := Stage(p, Installation);
            var c' := c.(installations := c.installations[p := InstallTree(w, p)],
                         installationSnapshots := c.installationSnapshots[p := SnapshotOf(w, st)]);
            (UpToDate(c, w, t) ==> UpToDate(c', w, t)) && (t != st ==> (Stale(c', w, t) <==> Stale(c, w, t)))
  {
    hide Sound, Keys, IndexOf, InstallTree, BuildTree, SnapshotOf, Promised;
  }

  lemma BuildFits(w: World, p: Package)
    requires Sound(w, BuildStage(w, p))
    ensures HonestBuild(p, BuildTree(w, p), SnapshotOf(w, BuildStage(w, p)))
  {
    SnapshotIsWorld(w, BuildStage(w, p));
    hide Sound, Keys, IndexOf, BuildTree, SnapshotOf;
  }

  lemma InstallationFits(w: World, p: Package)
    requires Sound(w, Stage(p, Installation))
    ensures HonestInstallation(p, InstallTree(w, p), SnapshotOf(w, Stage(p, Installation)))
  {
    SnapshotIsWorld(w, Stage(p, Installation));
    hide Sound, Keys, IndexOf, InstallTree, SnapshotOf;
  }

  /** A build stored with the right snapshot keeps the cache honest and other stages current. */
  lemma StoreBuild(c: Cache, w: World, p: Package)
    requires Honest(c) && Sound(w, BuildStage(w, p))
    ensures var st := BuildStage(w, p);
            var c' := c.(builds := c.builds[p := BuildTree(w, p)],
                         buildSnapshots := c.buildSnapshots[p := SnapshotOf(w, st)]);
            Honest(c') && UpToDate(c', w, st) && Kept(c, c', w, st)
  {
    BuildFits(w, p);
    hide Sound, Keys, IndexOf, InstallTree, BuildTree, SnapshotOf, HonestInstallation, HonestBuild;
    var c' := c.(builds := c.builds[p := BuildTree(w, p)],
                 buildSnapshots := c.buildSnapshots[p := SnapshotOf(w, BuildStage(w, p))]);
    assert UpToDate(c', w, BuildStage(w, p));
    hide UpToDate, Stale;
    forall t | Sound(w, t)
      ensures UpToDate(c, w, t) ==> UpToDate(c', w, t)
      ensures t != BuildStage(w, p) ==> (Stale(c', w, t) <==> Stale(c, w, t))
    {
      BuildKept(c, w, p, t);
    }
  }

  lemma StoreInstallation(c: Cache, w: World, p: Package)
    requires Honest(c) && Sound(w, Stage(p, Installation))
    ensures var st := Stage(p, Installation);
            var c' := c.(installations := c.installations[p := InstallTree(w, p)],
                         installationSnapshots := c.installationSnapshots[p := SnapshotOf(w, st)]);
            Honest(c') && UpToDate(c', w, st) && Kept(c, c', w, st)
  {
    InstallationFits(w, p);
    hide Sound, Keys, IndexOf, InstallTree, BuildTree, SnapshotOf, HonestInstallation, HonestBuild;
    var c' := c.(installations := c.installations[p := InstallTree(w, p)],
                 installationSnapshots := c.installationSnapshots[p := SnapshotOf(w, Stage(p, Installation))]);
    assert UpToDate(c', w, Stage(p, Installation));
    hide UpToDate, Stale;
    forall t | Sound(w, t)
      ensures UpToDate(c, w, t) ==> UpToDate(c', w, t)
      ensures t != Stage(p, Installation) ==> (Stale(c', w, t) <==> Stale(c, w, t))
    {
      InstallationKept(c, w, p, t);
    }
  }

  // ----- what an update has to do ---------------------------------------------------------

  /** Something below `st`, or `st` itself, is stale. */
  ghost predicate NeedsUpdate(c: Cache, w: World, st: Stage) {
    exists t :: Reachable(Next(w), st, t) && Stale(c, w, t)
  }

  lemma NeedsUpdateStep(c: Cache, w: World, st: Stage)
    ensures NeedsUpdate(c, w, st) <==> Stale(c, w, st) || exists d :: d in Depends(w, st) && NeedsUpdate(c, w, d)
  {
    if NeedsUpdate(c, w, st) && !Stale(c, w, st) {
      var t :| Reachable(Next(w), st, t) && Stale(c, w, t);
      var path :| IsPathFromTo(Next(w), path, st, t);
      assert path[0 + 1] in Next(w)(path[0]);
      var rest := path[1..];
      forall i | 0 <= i < |rest| - 1
        ensures rest[i + 1] in Next(w)(rest[i])
      {
        assert path[i + 1 + 1] in Next(w)(path[i + 1]);
      }
      assert IsPathFromTo(Next(w), rest, path[1], t);
      assert NeedsUpdate(c, w, path[1]);
    }
    if Stale(c, w, st) {
      ReachSelf(Next(w), st);
    }
    forall d | d in Depends(w, st) && NeedsUpdate(c, w, d)
      ensures NeedsUpdate(c, w, st)
    {
      var t :| Reachable(Next(w), d, t) && Stale(c, w, t);
      StepReach(Next(w), st, d, t);
    }
  }

  /** Every stage below `st` holds what a clean build would leave. */
  ghost predicate AllUpToDate(c: Cache, w: World, st: Stage) {
    forall t :: Reachable(Next(w), st, t) ==> UpToDate(c, w, t)
  }

  // ----- why an update may fail -----------------------------------------------------------

  /** The index of `p` is listed and parses, and it is either served or already cached. */
  ghost predicate MetaAvailable(remote: Remote, indexes: map<Package, File>, p: Package) {
    Readable(WorldOf(remote), p) &&
    var file := remote[p].checksum[INDEX].file;
    remote[p].index == Some(file) || (p in indexes && indexes[p] == file)
  }

  /** The expected source is served, or it is already cached. */
  ghost predicate SourceAvailable(served: map<string, File>, cached: map<(Package, string), File>,
                                  p: Package, s: string, expected: File) {
    (s in served && served[s] == expected) || ((p, s) in cached && cached[(p, s)] == expected)
  }

  /** Every source of `p` is listed under a plain file name, and each is served or already cached. */
  ghost predicate SourcesAvailable(remote: Remote, c: Cache, p: Package) {
    var w := WorldOf(remote);
    SourcesListed(w, p) &&
    forall s :: s in IndexOf(w, p).Sources() ==>
      SourceAvailable(remote[p].sources, c.sources, p, s, remote[p].checksum[s].file)
  }

  /** An update starting from cache `c` can be stopped at `st`: a source archive cannot be had, or
      a tree that has to be built makes a utility throw. */
  ghost predicate Blocked(remote: Remote, broken: Tree -> bool, c: Cache, st: Stage) {
    var w := WorldOf(remote);
    match st.kind
    case Installation => broken(InstallTree(w, st.package)) && NeedsUpdate(c, w, st)
    case Source => !SourcesAvailable(remote, c, st.package)
    case _ => broken(BuildTree(w, st.package)) && NeedsUpdate(c, w, st)
  }

  ghost predicate BlockedBelow(remote: Remote, broken: Tree -> bool, c: Cache, st: Stage) {
    exists t :: Reachable(Next(WorldOf(remote)), st, t) && Blocked(remote, broken, c, t)
  }

  /** The import graph between packages. */
  ghost function Imports(w: World): Package -> set<Package> {
    (p: Package) => IndexOf(w, p).All()
  }

  /** Nothing has changed but for what `p` imports, directly or not. */
  ghost predicate UntouchedBeyond(c: Cache, c': Cache, w: World, p: Package) {
    forall q :: !Reachable(Imports(w), p, q) ==> SamePackage(c, c', q)
  }

  lemma BeyondOnwards(c: Cache, c': Cache, c'': Cache, w: World, p: Package)
    requires UntouchedBeyond(c, c', w, p) && UntouchedBeyond(c', c'', w, p)
    ensures UntouchedBeyond(c, c'', w, p)
  {
    forall q | !Reachable(Imports(w), p, q)
      ensures SamePackage(c, c'', q)
    {
      hide Reachable, Imports;
      assert SamePackage(c, c', q) && SamePackage(c', c'', q);
      forall s
        ensures SameSource(c.sources, c''.sources, (q, s))
      {
        assert SameSource(c.sources, c'.sources, (q, s)) && SameSource(c'.sources, c''.sources, (q, s));
      }
    }
  }

  lemma BeyondItself(c: Cache, w: World, p: Package)
    ensures UntouchedBeyond(c, c, w, p)
  {
  }

  /** What is beyond a package is beyond each of its imports. */
  lemma BeyondImport(c: Cache, c': Cache, w: World, p: Package, i: Package)
    requires i in Imports(w)(p) && UntouchedBeyond(c, c', w, i)
    ensures UntouchedBeyond(c, c', w, p)
  {
    forall q | !Reachable(Imports(w), p, q)
      ensures !Reachable(Imports(w), i, q)
    {
      if Reachable(Imports(w), i, q) {
        StepReach(Imports(w), p, i, q);
      }
    }
    hide Reachable, Imports, SamePackage;
  }

  /** Refreshing one package touches no other. */
  lemma MetaBeyond(c: Cache, c': Cache, w: World, p: Package)
    requires c' == c.(checksums := c'.checksums, indexes := c'.indexes)
    requires forall q :: q != p ==> SameAt(c.checksums, c'.checksums, q) && SameAt(c.indexes, c'.indexes, q)
    ensures UntouchedBeyond(c, c', w, p)
  {
    ReachSelf(Imports(w), p);
    hide Reachable, Imports;
  }

  lemma BeyondClosure(c: Cache, c': Cache, w: World, p: Package, packages: set<Package>)
    requires Untouched(c, c', packages) && forall q :: q in packages ==> Reachable(Imports(w), p, q)
    ensures UntouchedBeyond(c, c', w, p)
  {
    hide Reachable, Imports, SamePackage;
  }

  ghost predicate MetaBlocked(remote: Remote, indexes: map<Package, File>, p: Package) {
    exists q :: Reachable(Imports(WorldOf(remote)), p, q) && !MetaAvailable(remote, indexes, q)
  }

  /** Whatever an index file writes in one of its four lists is imported under the name it stands for. */
  lemma WrittenIsImported(w: World, r: Location, x: string, i: TreeImport, q: Location)
    requires ValidLocation(r + [x]) && IsPlain(r + [x]) && Readable(w, r + [x]) && IsPlain(q) && ValidLocation(q)
    requires var written := w[r + [x]][INDEX].file.parsed.value;
             i in written.source.importSource || i in written.source.importPackage ||
             i in written.package.importSource || i in written.package.importPackage
    ensures i.package == [PARENT] + q ==> r + q in Imports(w)(r + [x])
    ensures i.package == [THIS] + q ==> r + [x] + q in Imports(w)(r + [x])
    ensures i.package == q ==> q in Imports(w)(r + [x])
  {
    IndexIsResolved(w, r, x);
    var written, index := w[r + [x]][INDEX].file.parsed.value, IndexOf(w, r + [x]);
    hide IndexOf;
    InResolved(written.source.importSource, index.source.importSource, r, x, i, q);
    InResolved(written.source.importPackage, index.source.importPackage, r, x, i, q);
    InResolved(written.package.importSource, index.package.importSource, r, x, i, q);
    InResolved(written.package.importPackage, index.package.importPackage, r, x, i, q);
  }

  lemma InResolved(written: seq<TreeImport>, resolved: seq<TreeImport>, r: Location, x: string, i: TreeImport,
                   q: Location)
    requires ResolvedFrom(written, resolved, r, x) && IsPlain(q) && ValidLocation(q) && ValidLocation(r + [x])
    ensures i in written && i.package == [PARENT] + q ==> r + q in Packages(resolved)
    ensures i in written && i.package == [THIS] + q ==> r + [x] + q in Packages(resolved)
    ensures i in written && i.package == q ==> q in Packages(resolved)
  {
    if i in written {
      var k :| 0 <= k < |written| && written[k] == i;
      assert resolved[k] in resolved;
    }
  }

  /** Every package but the first that an update visits has a plain name. */
  lemma ReachedIsPlain(w: World, p: Package, q: Package)
    requires Reachable(Imports(w), p, q)
    ensures q == p || IsPlain(q)
  {
    var path :| IsPathFromTo(Imports(w), path, p, q);
    if |path| > 1 {
      LastEdge(Imports(w), path);
      ImportsArePlain(w, path[|path| - 2], q);
    }
  }
}
