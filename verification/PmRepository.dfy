/** bunsan::pm::repository: fetching metadata and sources, building, and the incremental update. */
module PmRepository {
  import opened Common
  import opened Graphs
  import opened PmEntry
  import opened PmWorld
  import opened PmClean
  import opened PmCache

  /** `merge_maps`: adds the second map to the first. The assertion of the source, that the maps
      never contradict each other, is the precondition. */
  method MergeMaps(a: Snapshot, b: Snapshot) returns (r: Snapshot)
    requires forall p :: p in a && p in b ==> a[p] == b[p]
    ensures r == a + b
  {
    r := a;
    var todo := b.Keys;
    while todo != {}
      invariant todo <= b.Keys
      invariant r.Keys == a.Keys + (b.Keys - todo)
      invariant forall p :: p in r ==> r[p] == if p in b then b[p] else a[p]
    {
      var p :| p in todo;
      if p in r {
        assert r[p] == b[p];
      } else {
        r := r[p := b[p]];
      }
      todo := todo - {p};
    }
  }

  /** Snapshots computed on the way to `w`'s. */
  ghost predicate Submap(s: Snapshot, w: World) {
    forall p :: p in s ==> p in w && s[p] == w[p]
  }

  lemma SubmapIsSnapshot(s: Snapshot, w: World, st: Stage)
    requires Submap(s, w) && s.Keys == Keys(w, st)
    ensures s == SnapshotOf(w, st)
  {
    hide Keys;
    SubmapIsRestrict(s, w);
  }

  lemma SubmapIsRestrict(s: Snapshot, w: World)
    requires Submap(s, w)
    ensures s == Restrict(w, s.Keys)
  {
  }

  /** Submaps of one world never contradict each other, so the assertion of `merge_maps` holds. */
  lemma MergedSubmaps(a: Snapshot, b: Snapshot, w: World)
    requires Submap(a, w) && Submap(b, w)
    ensures forall p :: p in a && p in b ==> a[p] == b[p]
    ensures Submap(a + b, w) && (a + b).Keys == a.Keys + b.Keys
  {
  }

  lemma NothingMerged(w: World)
    ensures Submap(map[], w)
  {
  }

  /** What one run of `update_package_depends` remembers. */
  class Run {
    var updated: map<Stage, bool>
    var inProgress: set<Stage>
    var snapshots: map<Stage, Snapshot>
    ghost var built: multiset<Stage>

    constructor ()
      ensures updated == map[] && inProgress == {} && snapshots == map[] && built == multiset{}
    {
      updated, inProgress, snapshots, built := map[], {}, map[], multiset{};
    }

    ghost function Now(): Progress
      reads this
    {
      Progress(updated, inProgress, snapshots, built)
    }

    /** A stage is done: it is no longer in progress, and its outcome is remembered. */
    method Finish(st: Stage, upd: bool, snapshot: Snapshot)
      modifies this
      ensures Now() == Progress(old(updated)[st := upd], old(inProgress) - {st}, old(snapshots)[st := snapshot],
                                old(built))
      ensures updated.Keys == old(updated).Keys + {st}
    {
      inProgress := inProgress - {st};
      snapshots := snapshots[st := snapshot];
      updated := updated[st := upd];
    }
  }

  datatype Progress = Progress(
    updated: map<Stage, bool>, inProgress: set<Stage>, snapshots: map<Stage, Snapshot>, built: multiset<Stage>)

  /** `stages` are up to date together with everything below them. */
  ghost predicate Complete(c: Cache, w: World, packages: set<Package>, stages: set<Stage>) {
    Ready(c, w, packages) &&
    forall t :: t in stages ==>
      t.package in packages && Sound(w, t) && UpToDate(c, w, t) &&
      forall d :: d in Depends(w, t) ==> d in stages
  }

  /** The keys gathered from one list of imports. */
  ghost function KeysOfImports(w: World, imports: seq<TreeImport>, kind: Kind): set<Package> {
    set i, p | i in imports && p in Keys(w, Stage(i.package, kind)) :: p
  }

  lemma KeysOfImportsStep(w: World, imports: seq<TreeImport>, kind: Kind, k: nat)
    requires k < |imports|
    ensures KeysOfImports(w, imports[..k + 1], kind) ==
              KeysOfImports(w, imports[..k], kind) + Keys(w, Stage(imports[k].package, kind))
  {
    hide Keys;
    assert imports[..k + 1] == imports[..k] + [imports[k]];
  }

  lemma NoKeys(w: World, kind: Kind)
    ensures KeysOfImports(w, [], kind) == {}
  {
  }

  lemma KeysOfStages(w: World, imports: seq<TreeImport>, kind: Kind)
    ensures KeysOfAll(w, StagesOf(imports, kind)) == KeysOfImports(w, imports, kind)
  {
    StagesOfMembers(imports, kind);
    forall i | i in imports
      ensures Stage(i.package, kind) in StagesOf(imports, kind)
    {
    }
    hide Keys, StagesOf;
  }

  lemma KeysOfAllAppend(w: World, a: seq<Stage>, b: seq<Stage>)
    ensures KeysOfAll(w, a + b) == KeysOfAll(w, a) + KeysOfAll(w, b)
  {
    hide Keys;
  }

  /** The order in which the builder meets the packages does not matter: it meets those the
      snapshot covers. */
  lemma SourceKeys(w: World, p: Package)
    requires Sound(w, Stage(p, Source))
    ensures Keys(w, Stage(p, Source)) ==
              {p} + KeysOfImports(w, IndexOf(w, p).source.importSource, Source)
                  + KeysOfImports(w, IndexOf(w, p).source.importPackage, Installation)
  {
    var source := IndexOf(w, p).source;
    KeysStep(w, Stage(p, Source));
    KeysOfAllAppend(w, StagesOf(source.importPackage, Installation), StagesOf(source.importSource, Source));
    KeysOfStages(w, source.importSource, Source);
    KeysOfStages(w, source.importPackage, Installation);
  }

  lemma BuildKeys(w: World, p: Package)
    requires Sound(w, BuildStage(w, p))
    ensures Keys(w, BuildStage(w, p)) == Keys(w, Stage(p, Source))
    ensures BuildKind(IndexOf(w, p)).BuildEmpty? ==> Keys(w, BuildStage(w, p)) == {p}
  {
    var st := BuildStage(w, p);
    KeysStep(w, st);
    SoundParts(w, st);
    assert Depends(w, st) == [Stage(p, Source)];
    assert Stage(p, Source) in Depends(w, st);
    assert KeysOfAll(w, [Stage(p, Source)]) == Keys(w, Stage(p, Source));
    SourceKeys(w, p);
  }

  lemma InstallationKeys(w: World, p: Package)
    requires Sound(w, Stage(p, Installation))
    ensures Keys(w, Stage(p, Installation)) ==
              Keys(w, BuildStage(w, p))
              + KeysOfImports(w, IndexOf(w, p).package.importSource, Source)
              + KeysOfImports(w, IndexOf(w, p).package.importPackage, Installation)
  {
    var package := IndexOf(w, p).package;
    var a := StagesOf(package.importPackage, Installation);
    var b := StagesOf(package.importSource, Source);
    var c := [BuildStage(w, p)];
    KeysStep(w, Stage(p, Installation));
    assert Depends(w, Stage(p, Installation)) == a + b + c;
    hide Depends, Keys, IndexOf, KeysOfAll, StagesOf, Sound;
    KeysOfAllAppend(w, a + b, c);
    KeysOfAllAppend(w, a, b);
    KeysOfStages(w, package.importSource, Source);
    KeysOfStages(w, package.importPackage, Installation);
    KeysOfOne(w, BuildStage(w, p));
  }

  lemma KeysOfOne(w: World, st: Stage)
    ensures KeysOfAll(w, [st]) == Keys(w, st)
  {
    hide Keys;
  }

  /** Visited packages are refreshed; those no call is still busy with import visited ones only.
      The other index files are those of the start. */
  ghost predicate MetaInv(c: Cache, remote: Remote, visited: set<Package>, open: set<Package>,
                          start: map<Package, File>) {
    var w := WorldOf(remote);
    open <= visited <= remote.Keys &&
    (forall q :: q in visited ==> Refreshed(c, w, q) && MetaAvailable(remote, start, q)) &&
    (forall q :: q in visited && q !in open ==> Imports(w)(q) <= visited) &&
    (forall q :: q !in visited ==>
       (q in c.indexes <==> q in start) && (q in start ==> c.indexes[q] == start[q]))
  }

  /** Refreshing one more package, whose imports are still to be visited. */
  lemma MetaInvVisit(c: Cache, c': Cache, remote: Remote, visited: set<Package>, open: set<Package>,
                     start: map<Package, File>, p: Package)
    requires MetaInv(c, remote, visited, open, start) && p in remote && p !in visited
    requires Refreshed(c', WorldOf(remote), p) && MetaAvailable(remote, start, p)
    requires c'.checksums == c.checksums[p := c'.checksums[p]] && c'.indexes == c.indexes[p := c'.indexes[p]]
    ensures MetaInv(c', remote, visited + {p}, open + {p}, start)
    ensures multiset(visited + {p}) == multiset(visited) + multiset{p}
  {
    hide Readable, Imports, MetaAvailable;
  }

  /** Once the metadata of `p` are the server's and its index can be read, its imports may be visited. */
  lemma MetaVisited(c: Cache, c': Cache, remote: Remote, visited: set<Package>, open: set<Package>,
                    start: map<Package, File>, p: Package)
    requires MetaInv(c, remote, visited, open, start) && p !in visited
    requires p != [] && p in remote && INDEX in remote[p].checksum
    requires c'.checksums == c.checksums[p := remote[p].checksum]
    requires c'.indexes == c.indexes[p := remote[p].checksum[INDEX].file] && c'.indexes[p].parsed.Some?
    requires var file := remote[p].checksum[INDEX].file;
             remote[p].index == Some(file) || (p in c.indexes && c.indexes[p] == file)
    ensures MetaInv(c', remote, visited + {p}, open + {p}, start) && p !in open
    ensures c'.indexes[p].parsed.value.Absolute(p).All() == Imports(WorldOf(remote))(p)
    ensures multiset(visited + {p}) == multiset(visited) + multiset{p}
  {
    var w := WorldOf(remote);
    NotYetVisited(c, remote, visited, open, start, p);
    assert Readable(w, p) && Refreshed(c', w, p) && MetaAvailable(remote, c.indexes, p);
    assert c'.indexes[p].parsed.value.Absolute(p) == IndexOf(w, p);
    hide MetaInv, Refreshed, MetaAvailable, IndexOf, Readable;
    MetaInvVisit(c, c', remote, visited, open, start, p);
  }

  /** Nothing has happened yet to the index of a package that was not visited. */
  lemma NotYetVisited(c: Cache, remote: Remote, visited: set<Package>, open: set<Package>,
                      start: map<Package, File>, p: Package)
    requires MetaInv(c, remote, visited, open, start) && p !in visited
    ensures MetaAvailable(remote, c.indexes, p) <==> MetaAvailable(remote, start, p)
    ensures p !in open
  {
    hide Imports, Refreshed, Readable;
  }

  class Repository {
    /** `repository::version()` of the running program, and the one recorded in the cache. */
    const version: string
    var storedVersion: Option<string>

    /** The trees on which an outside program (builder, archiver, copying) throws. */
    const broken: Tree -> bool

    var checksums: map<Package, Checksums>
    var indexes: map<Package, File>
    var sources: map<(Package, string), File>
    var builds: map<Package, Tree>
    var buildSnapshots: map<Package, Snapshot>
    var installations: map<Package, Tree>
    var installationSnapshots: map<Package, Snapshot>

    ghost function Contents(): Cache
      reads this
    {
      Cache(checksums, indexes, sources, builds, buildSnapshots, installations, installationSnapshots)
    }

    /** What every run, finished or not, leaves behind. */
    ghost predicate Valid()
      reads this
    {
      Honest(Contents())
    }

    /** A cache directory that was never used. */
    constructor (version: string, broken: Tree -> bool)
      ensures Valid() && Contents() == EMPTY_CACHE
      ensures this.version == version && this.broken == broken
    {
      this.version, this.broken := version, broken;
      storedVersion := None;
      checksums, indexes, sources := map[], map[], map[];
      builds, buildSnapshots, installations, installationSnapshots := map[], map[], map[], map[];
    }

    /** `cache::clean_` and `cache::verify_and_repair`: a cache written by another version, or
        without a readable record of its version, is emptied. */
    method VerifyAndRepair()
      requires Valid()
      modifies this
      ensures Valid() && storedVersion == Some(version)
      ensures Contents() == if old(storedVersion) == Some(version) then old(Contents())
                            else EMPTY_CACHE
    {
      if storedVersion != Some(version) {
        checksums, indexes, sources := map[], map[], map[];
        builds, buildSnapshots, installations, installationSnapshots := map[], map[], map[], map[];
        storedVersion := Some(version);
      }
    }

    // ----- cache reads --------------------------------------------------------------------

    function ReadIndex(p: Package): Outcome<Index, Error>
      reads this
    {
      if p in indexes && indexes[p].parsed.Some? then Done(indexes[p].parsed.value.Absolute(p))
      else Failed(UnreadableIndex(p))
    }

    predicate BuildOutdated(p: Package, snapshot: Snapshot)
      reads this
    {
      p !in buildSnapshots || p !in builds || snapshot != buildSnapshots[p]
    }

    predicate InstallationOutdated(p: Package, snapshot: Snapshot)
      reads this
    {
      p !in installationSnapshots || p !in installations || snapshot != installationSnapshots[p]
    }

    // ----- distributor --------------------------------------------------------------------

    /** `distributor::update_file`: fetches a file whose digest is not the expected one.
        Returns what is then stored, and whether it is the expected file. */
    static method UpdateFile(p: Package, name: string, cached: Option<File>, served: Option<File>, checksum: Digest)
      returns (stored: Option<File>, r: Outcome<(), Error>)
      ensures stored == if cached == Some(checksum.file) || served.None? then cached else served
      ensures r.Done? ==> stored == Some(checksum.file)
      ensures cached == Some(checksum.file) ==> r.Done?
      ensures served == Some(checksum.file) ==> r.Done?
      ensures r.Done? ==> cached == Some(checksum.file) || served == Some(checksum.file)
      ensures r.Failed? ==> !r.error.CircularDependencies?
    {
      stored := cached;
      if cached.None? || Digest(cached.value) != checksum {
        if served.None? {
          return stored, Failed(FetchFailed(p, name));
        }
        stored := served;
        if Digest(stored.value) != checksum {
          return stored, Failed(InconsistentChecksum(p, name));
        }
      }
      r := Done(());
    }

    /** `distributor::update_meta`. */
    method UpdateMeta(remote: Remote, p: Package) returns (r: Outcome<(), Error>)
      modifies this`checksums, this`indexes
      ensures r.Done? ==>
                p != [] && p in remote && INDEX in remote[p].checksum &&
                checksums == old(checksums)[p := remote[p].checksum] &&
                indexes == old(indexes)[p := remote[p].checksum[INDEX].file]
      ensures r.Done? ==>
                var file := remote[p].checksum[INDEX].file;
                remote[p].index == Some(file) || (p in old(indexes) && old(indexes)[p] == file)
      ensures MetaAvailable(remote, old(indexes), p) ==> r.Done?
      ensures checksums == if p != [] && p in remote then old(checksums)[p := remote[p].checksum] else old(checksums)
      ensures forall q :: q != p ==>
                (q in indexes <==> q in old(indexes)) && (q in indexes ==> indexes[q] == old(indexes)[q])
      ensures r.Failed? ==> !r.error.CircularDependencies?
    {
      if p == [] {
        return Failed(NoName);
      }
      if p !in remote {
        return Failed(NoPackage(p));
      }
      checksums := checksums[p := remote[p].checksum];
      if INDEX !in checksums[p] {
        return Failed(NoChecksum(p, INDEX));
      }
      var stored;
      stored, r := UpdateFile(p, INDEX, if p in indexes then Some(indexes[p]) else None, remote[p].index,
                              checksums[p][INDEX]);
      if stored.Some? {
        indexes := indexes[p := stored.value];
      }
    }

    /** `distributor::update_sources`. */
    method UpdateSources(remote: Remote, p: Package) returns (r: Outcome<(), Error>)
      requires p in remote && Refreshed(Contents(), WorldOf(remote), p)
      modifies this`sources
      ensures r.Done? ==> SourcesListed(WorldOf(remote), p) && UpToDate(Contents(), WorldOf(remote), Stage(p, Source))
      ensures forall k: (Package, string) :: k.0 != p ==> SameSource(old(sources), sources, k)
      ensures r.Done? <==> SourcesAvailable(remote, old(Contents()), p)
      ensures r.Failed? ==> !r.error.CircularDependencies?
    {
      r := FetchSources(p, ReadIndex(p).value.Sources(), checksums[p], remote[p].sources);
    }

    /** The loop of `update_sources`, over the names of the sources. `cache::source_path` refuses
        what is not the name of a file. */
    method FetchSources(p: Package, names: set<string>, listed: Checksums, served: map<string, File>)
      returns (r: Outcome<(), Error>)
      modifies this`sources
      ensures r.Done? ==> forall s :: s in names ==>
          '/' !in s && s in listed && (p, s) in sources && sources[(p, s)] == listed[s].file
      ensures forall k: (Package, string) :: k.0 != p ==> SameSource(old(sources), sources, k)
      ensures r.Done? <==> forall s :: s in names ==>
                             '/' !in s && s in listed &&
                             SourceAvailable(served, old(sources), p, s, listed[s].file)
      ensures r.Failed? ==> !r.error.CircularDependencies?
    {
      var todo := names;
      while todo != {}
        invariant todo <= names
        invariant forall s :: s in names - todo ==>
            '/' !in s && s in listed && (p, s) in sources && sources[(p, s)] == listed[s].file
        invariant forall s :: s in names - todo ==> SourceAvailable(served, old(sources), p, s, listed[s].file)
        invariant forall k: (Package, string) :: k.0 != p || k.1 in todo ==> SameSource(old(sources), sources, k)
      {
        var s :| s in todo;
        assert SameSource(old(sources), sources, (p, s));
        if !IsFileName(s) {
          return Failed(InvalidFileName(p, s));
        }
        if s !in listed {
          return Failed(NoChecksum(p, s));
        }
        var stored;
        stored, r := UpdateFile(p, s, if (p, s) in sources then Some(sources[(p, s)]) else None,
                                if s in served then Some(served[s]) else None, listed[s]);
        if stored.Some? {
          sources := sources[(p, s) := stored.value];
        }
        if r.Failed? {
          return;
        }
        todo := todo - {s};
      }
      r := Done(());
    }

    // ----- metadata of everything reachable -----------------------------------------------

    /** The recursive closure inside `update_meta_tree`. `open` holds the packages whose imports
        are being visited further up the call stack. */
    method UpdateMetaFrom(remote: Remote, p: Package, visited: set<Package>, ghost refreshed: multiset<Package>,
                          ghost open: set<Package>, ghost start: map<Package, File>)
      returns (r: Outcome<(), Error>, visited': set<Package>, ghost refreshed': multiset<Package>)
      requires MetaInv(Contents(), remote, visited, open, start) && refreshed == multiset(visited)
      modifies this`checksums, this`indexes
      ensures r.Done? ==> MetaInv(Contents(), remote, visited', open, start) && visited + {p} <= visited'
      ensures r.Done? ==> forall q :: q in visited' - visited ==> Reachable(Imports(WorldOf(remote)), p, q)
      ensures r.Done? ==> refreshed' == multiset(visited')
      ensures r.Failed? ==> MetaBlocked(remote, start, p) && !r.error.CircularDependencies?
      ensures UntouchedBeyond(old(Contents()), Contents(), WorldOf(remote), p)
      decreases remote.Keys - visited, 1
    {
      hide MetaInv, UntouchedBeyond, Reachable, Refreshed, IndexOf, Imports;
      visited', refreshed' := visited, refreshed;
      BeyondItself(Contents(), WorldOf(remote), p);
      if p in visited {
        return Done(()), visited', refreshed';
      }
      ghost var w := WorldOf(remote);
      ReachSelf(Imports(w), p);
      NotYetVisited(Contents(), remote, visited, open, start, p);
      r := UpdateMeta(remote, p);
      MetaBeyond(old(Contents()), Contents(), w, p);
      if r.Failed? {
        return;
      }
      visited', refreshed' := visited' + {p}, refreshed' + multiset{p};
      var deps := ReadIndex(p);
      if deps.Failed? {
        return Failed(deps.error), visited', refreshed';
      }
      MetaVisited(old(Contents()), Contents(), remote, visited, open, start, p);
      hide MetaAvailable;
      ghost var c := Contents();
      r, visited', refreshed' := UpdateMetaOfAll(remote, p, deps.value.All(), visited', refreshed', open, start);
      BeyondOnwards(old(Contents()), c, Contents(), w, p);
    }

    /** The loop over the imports of `p`. */
    method UpdateMetaOfAll(remote: Remote, ghost p: Package, imports: set<Package>, visited: set<Package>,
                           ghost refreshed: multiset<Package>, ghost open: set<Package>,
                           ghost start: map<Package, File>)
      returns (r: Outcome<(), Error>, visited': set<Package>, ghost refreshed': multiset<Package>)
      requires p in visited && imports == Imports(WorldOf(remote))(p)
      requires MetaInv(Contents(), remote, visited, open + {p}, start) && p !in open && refreshed == multiset(visited)
      modifies this`checksums, this`indexes
      ensures r.Done? ==> MetaInv(Contents(), remote, visited', open, start) && visited <= visited'
      ensures r.Done? ==> forall q :: q in visited' - visited ==> Reachable(Imports(WorldOf(remote)), p, q)
      ensures r.Done? ==> refreshed' == multiset(visited')
      ensures r.Failed? ==> MetaBlocked(remote, start, p) && !r.error.CircularDependencies?
      ensures UntouchedBeyond(old(Contents()), Contents(), WorldOf(remote), p)
      decreases remote.Keys - visited, 2
    {
      hide Refreshed, IndexOf, Reachable, MetaAvailable, UntouchedBeyond;
      ghost var w := WorldOf(remote);
      BeyondItself(Contents(), w, p);
      visited', refreshed' := visited, refreshed;
      var todo := imports;
      while todo != {}
        invariant todo <= imports && imports - todo <= visited' && visited <= visited'
        invariant MetaInv(Contents(), remote, visited', open + {p}, start) && refreshed' == multiset(visited')
        invariant forall q :: q in visited' - visited ==> Reachable(Imports(w), p, q)
        invariant UntouchedBeyond(old(Contents()), Contents(), w, p)
      {
        var i :| i in todo;
        todo := todo - {i};
        ghost var before, c := visited', Contents();
        r, visited', refreshed' := UpdateMetaFrom(remote, i, visited', refreshed', open + {p}, start);
        BeyondImport(c, Contents(), w, p, i);
        BeyondOnwards(old(Contents()), c, Contents(), w, p);
        if r.Failed? {
          ghost var q :| Reachable(Imports(w), i, q) && !MetaAvailable(remote, start, q);
          StepReach(Imports(w), p, i, q);
          return;
        }
        forall q | q in visited' - before
          ensures Reachable(Imports(w), p, q)
        {
          StepReach(Imports(w), p, i, q);
        }
      }
      r := Done(());
    }

    /** `repository::update_meta_tree`: refreshes exactly the packages reachable by imports, each
        once, cyclic or not. */
    method UpdateMetaTree(remote: Remote, p: Package)
      returns (r: Outcome<(), Error>, ghost visited: set<Package>, ghost refreshed: multiset<Package>)
      modifies this`checksums, this`indexes
      ensures r.Done? ==> p in visited && Ready(Contents(), WorldOf(remote), visited)
      ensures r.Done? ==> forall q :: q in visited <==> Reachable(Imports(WorldOf(remote)), p, q)
      ensures r.Done? ==> forall q :: q in visited ==> q == p || IsPlain(q)
      ensures r.Done? ==> refreshed == multiset(visited)
      ensures r.Done? ==> !MetaBlocked(remote, old(indexes), p)
      ensures r.Failed? ==> MetaBlocked(remote, old(indexes), p) && !r.error.CircularDependencies?
      ensures UntouchedBeyond(old(Contents()), Contents(), WorldOf(remote), p)
    {
      hide UntouchedBeyond;
      var seen: set<Package> := {};
      r, seen, refreshed := UpdateMetaFrom(remote, p, seen, multiset{}, {}, indexes);
      visited := seen;
      if r.Done? {
        ghost var w := WorldOf(remote);
        forall q | Reachable(Imports(w), p, q)
          ensures q in visited
        {
          ClosedContainsReachable(Imports(w), visited, p, q);
        }
        forall q | q in visited
          ensures q == p || IsPlain(q)
        {
          ReachedIsPlain(w, p, q);
        }
      }
    }

    // ----- builder ------------------------------------------------------------------------

    /** Extracting a package's own sources below `destination`: the merges made, in order. */
    method UnpackSelf(p: Package, imports: seq<LocalImport>, destination: Path, ghost w: World)
      returns (dir: seq<Merge>)
      requires UpToDate(Contents(), w, Stage(p, Source))
      requires forall i :: i in imports ==> i.source in IndexOf(w, p).Sources()
      ensures dir == SelfMerges(ChecksumsOf(w, p), imports, destination)
      ensures |dir| == |imports| && forall k :: 0 <= k < |imports| ==>
                (p, imports[k].source) in sources &&
                dir[k] == Merge(destination + imports[k].path, Unpacked(sources[(p, imports[k].source)]))
    {
      hide IndexOf;
      ghost var c := ChecksumsOf(w, p);
      dir := [];
      var k := 0;
      while k < |imports|
        invariant 0 <= k <= |imports|
        invariant dir == SelfMerges(c, imports[..k], destination)
        invariant |dir| == k && forall j :: 0 <= j < k ==>
                    (p, imports[j].source) in sources &&
                    dir[j] == Merge(destination + imports[j].path, Unpacked(sources[(p, imports[j].source)]))
      {
        var i := imports[k];
        assert imports[..k + 1][..k] == imports[..k];
        dir := dir + [Merge(destination + i.path, Unpacked(sources[(p, i.source)]))];
        k := k + 1;
      }
      assert imports[..k] == imports;
    }

    /** The loop over imported installations, as in `unpack_source` and `build_installation`. */
    method ExtractInstallations(imports: seq<TreeImport>, destination: Path, snapshot: Snapshot,
                                ghost w: World, ghost packages: set<Package>, ghost done: set<Stage>)
      returns (dir: seq<Merge>, snapshot': Snapshot)
      requires Complete(Contents(), w, packages, done) && Submap(snapshot, w)
      requires forall i :: i in imports ==> Stage(i.package, Installation) in done
      ensures dir == PackageImports(w, imports, destination)
      ensures Submap(snapshot', w) && snapshot'.Keys == snapshot.Keys + KeysOfImports(w, imports, Installation)
    {
      hide Complete, Keys, InstallTree, Submap, KeysOfImports;
      dir, snapshot' := [], snapshot;
      assert KeysOfImports(w, [], Installation) == {} by {
        NoKeys(w, Installation);
      }
      var k := 0;
      while k < |imports|
        invariant 0 <= k <= |imports|
        invariant dir == PackageImports(w, imports[..k], destination)
        invariant Submap(snapshot', w)
        invariant snapshot'.Keys == snapshot.Keys + KeysOfImports(w, imports[..k], Installation)
      {
        var i := imports[k];
        assert imports[..k + 1][..k] == imports[..k];
        KeysOfImportsStep(w, imports, Installation, k);
        InstallationDone(Contents(), w, packages, done, i.package);
        dir := dir + [Merge(destination + i.path, installations[i.package])];
        MergedSubmaps(snapshot', installationSnapshots[i.package], w);
        snapshot' := MergeMaps(snapshot', installationSnapshots[i.package]);
        k := k + 1;
      }
      assert imports[..k] == imports;
    }

    /** The loop over imported sources. */
    method UnpackSources(imports: seq<TreeImport>, destination: Path, snapshot: Snapshot,
                         ghost w: World, ghost packages: set<Package>, ghost done: set<Stage>, ghost n: nat)
      returns (dir: seq<Merge>, snapshot': Snapshot)
      requires Complete(Contents(), w, packages, done) && Submap(snapshot, w)
      requires forall i :: i in imports ==> Stage(i.package, Source) in done && Depth(w, Stage(i.package, Source), n)
      ensures dir == SourceImports(w, imports, destination)
      ensures Submap(snapshot', w) && snapshot'.Keys == snapshot.Keys + KeysOfImports(w, imports, Source)
      decreases n, 1
    {
      hide Complete, Keys, SourceDir, Depth, Submap;
      dir, snapshot' := [], snapshot;
      var k := 0;
      while k < |imports|
        invariant 0 <= k <= |imports|
        invariant dir == SourceImports(w, imports[..k], destination)
        invariant Submap(snapshot', w)
        invariant snapshot'.Keys == snapshot.Keys + KeysOfImports(w, imports[..k], Source)
      {
        var i := imports[k];
        assert imports[..k + 1][..k] == imports[..k];
        KeysOfImportsStep(w, imports, Source, k);
        assert i in imports;
        var added;
        added, snapshot' := UnpackSource(i.package, destination + i.path, snapshot', w, packages, done, n);
        dir := dir + added;
        k := k + 1;
      }
      assert imports[..k] == imports;
    }

    /** Adds the package's own checksums, under the name written out and read back. The assertion
        of the source is that an entry already there is the same. */
    method DumpChecksum(p: Package, snapshot: Snapshot, ghost w: World) returns (snapshot': Snapshot)
      requires Submap(snapshot, w) && p in w && p in checksums && checksums[p] == w[p]
      ensures Submap(snapshot', w) && snapshot'.Keys == snapshot.Keys + {p}
    {
      snapshot' := snapshot;
      if p in snapshot' {
        assert snapshot'[p] == checksums[p];
      } else {
        snapshot' := snapshot'[Rekey(p) := checksums[p]];
      }
    }

    /** `builder::unpack_source`: recursive, with no check for cycles of its own. It ends because
        it is called below source stages that are complete. Returns the merges it makes. */
    method UnpackSource(p: Package, destination: Path, snapshot: Snapshot,
                        ghost w: World, ghost packages: set<Package>, ghost done: set<Stage>, ghost n: nat)
      returns (dir: seq<Merge>, snapshot': Snapshot)
      requires Complete(Contents(), w, packages, done) && Submap(snapshot, w)
      requires Stage(p, Source) in done && Depth(w, Stage(p, Source), n)
      ensures dir == SourceDir(w, p, destination)
      ensures Submap(snapshot', w) && snapshot'.Keys == snapshot.Keys + Keys(w, Stage(p, Source))
      decreases n, 0
    {
      hide IndexOf, Sound, Keys, Depth, SourceDir, Complete, UpToDate, Refreshed, KeysOfImports, Submap, Layers;
      SourceDone(Contents(), w, packages, done, p, n);
      SourceContents(w, p, destination);
      var deps := ReadIndex(p).value;
      var self := UnpackSelf(p, deps.source.self, destination, w);
      snapshot' := DumpChecksum(p, snapshot, w);
      var imported, installed;
      imported, snapshot' := UnpackSources(deps.source.importSource, destination, snapshot', w, packages, done, n - 1);
      installed, snapshot' := ExtractInstallations(deps.source.importPackage, destination, snapshot', w, packages,
          done);
      dir := self + imported + installed;
    }

    /** `builder::build_empty`: nothing to build, only the package's own checksums to record. */
    method BuildEmptyPackage(p: Package, ghost w: World) returns (r: Outcome<(), Error>)
      requires p in w && p in checksums && checksums[p] == w[p]
      requires Sound(w, BuildStage(w, p)) && BuildKind(IndexOf(w, p)).BuildEmpty?
      modifies this`builds, this`buildSnapshots
      ensures r.Done? ==> builds == old(builds)[p := BuildTree(w, p)]
      ensures r.Done? ==> buildSnapshots == old(buildSnapshots)[p := SnapshotOf(w, BuildStage(w, p))]
      ensures r.Failed? ==> builds == old(builds) && buildSnapshots == old(buildSnapshots) && r.error.BuildFailed?
      ensures r.Failed? <==> broken(BuildTree(w, p))
    {
      BuildTreeStep(w, p);
      BuildKeys(w, p);
      hide Sound, Keys, BuildTree;
      assert SnapshotOf(w, BuildStage(w, p)) == map[p := w[p]];
      if broken(Empty) {
        return Failed(BuildFailed(p));
      }
      builds := builds[p := Empty];
      buildSnapshots := buildSnapshots[p := map[p := checksums[p]]];
      r := Done(());
    }

    /** `builder::build`. */
    method BuildPackage(p: Package, ghost w: World, ghost packages: set<Package>, ghost done: set<Stage>)
      returns (r: Outcome<(), Error>)
      requires Complete(Contents(), w, packages, done) && Stage(p, Source) in done
      requires Sound(w, BuildStage(w, p)) && BuildKind(IndexOf(w, p)).Build?
      modifies this`builds, this`buildSnapshots
      ensures r.Done? ==> builds == old(builds)[p := BuildTree(w, p)]
      ensures r.Done? ==> buildSnapshots == old(buildSnapshots)[p := SnapshotOf(w, BuildStage(w, p))]
      ensures r.Failed? ==> builds == old(builds) && buildSnapshots == old(buildSnapshots) && r.error.BuildFailed?
      ensures r.Failed? <==> broken(BuildTree(w, p))
    {
      hide Sound, Keys, BuildTree, Complete, SourceDir, IndexOf, Restrict, Depth;
      BuildContents(w, p);
      var dir, snapshot := UnpackSource(p, [], map[], w, packages, done, Height(w, Stage(p, Source)));
      SubmapIsRestrict(snapshot, w);
      assert snapshot.Keys == Keys(w, BuildStage(w, p));
      var tree := Compiled(dir);
      if broken(tree) {
        return Failed(BuildFailed(p));
      }
      builds := builds[p := tree];
      buildSnapshots := buildSnapshots[p := snapshot];
      r := Done(());
    }

    /** `builder::build_installation`. */
    method BuildInstallation(p: Package, ghost w: World, ghost packages: set<Package>, ghost done: set<Stage>)
      returns (r: Outcome<(), Error>)
      requires Complete(Contents(), w, packages, done) && p in packages
      requires Sound(w, Stage(p, Installation)) && forall d :: d in Depends(w, Stage(p, Installation)) ==> d in done
      modifies this`installations, this`installationSnapshots
      ensures r.Done? ==> installations == old(installations)[p := InstallTree(w, p)]
      ensures r.Done? ==>
                installationSnapshots == old(installationSnapshots)[p := SnapshotOf(w, Stage(p, Installation))]
      ensures r.Failed? ==> installations == old(installations) && installationSnapshots == old(installationSnapshots)
      ensures r.Failed? ==> r.error.BuildFailed?
      ensures r.Failed? <==> broken(InstallTree(w, p))
    {
      hide Depends, IndexOf, Sound, Keys, Depth, SourceDir, Complete, UpToDate, KeysOfImports, Layers, BuildTree,
          InstallTree, Restrict, SnapshotOf, Submap, SelfMerges, PackageImports, SourceImports;
      InstallationPlan(Contents(), w, packages, done, p);
      InstallationContents(w, p);
      var snapshot := buildSnapshots[p];
      var deps := ReadIndex(p).value;
      var self := UnpackSelf(p, deps.package.self, [], w);
      var imported, installed;
      imported, snapshot := UnpackSources(deps.package.importSource, [], snapshot, w, packages, done,
                                          Height(w, Stage(p, Installation)) - 1);
      installed, snapshot := ExtractInstallations(deps.package.importPackage, [], snapshot, w, packages, done);
      SubmapIsSnapshot(snapshot, w, Stage(p, Installation));
      var tree := Overlaid([Merge([], builds[p])] + self + imported + installed);
      if broken(tree) {
        return Failed(BuildFailed(p));
      }
      installations := installations[p := tree];
      installationSnapshots := installationSnapshots[p := snapshot];
      r := Done(());
    }

    // ----- one stage, once everything below it is complete --------------------------------

    /** The end of the `installation` case: rebuild if something below was rebuilt, or if the
        stored snapshot is not the computed one. */
    method FinishInstallation(p: Package, below: bool, snapshot: Snapshot, ghost w: World,
                              ghost packages: set<Package>, ghost done: set<Stage>)
      returns (r: Outcome<bool, Error>)
      requires Valid() && Complete(Contents(), w, packages, done) && p in packages
      requires Sound(w, Stage(p, Installation)) && forall d :: d in Depends(w, Stage(p, Installation)) ==> d in done
      requires snapshot == SnapshotOf(w, Stage(p, Installation))
      modifies this`installations, this`installationSnapshots
      ensures Valid()
      ensures Untouched(old(Contents()), Contents(), packages)
      ensures r.Done? ==> Finished(old(Contents()), Contents(), w, Stage(p, Installation), below, r.value)
      ensures r.Failed? ==> r.error.BuildFailed?
      ensures r.Failed? <==> broken(InstallTree(w, p)) && (below || Stale(old(Contents()), w, Stage(p, Installation)))
    {
      hide Depends, Sound, Complete, Honest, InstallTree, Keys;
      ghost var st := Stage(p, Installation);
      var upd := below || InstallationOutdated(p, snapshot);
      if upd {
        var b := BuildInstallation(p, w, packages, done);
        if b.Failed? {
          return Failed(b.error);
        }
        assert !InstallationOutdated(p, snapshot);
        StoreInstallation(old(Contents()), w, p);
      } else {
        CurrentSnapshotSuffices(Contents(), w, st);
        KeptUnchanged(Contents(), w, st);
      }
      r := Done(upd);
    }

    /** The call of the builder in the `build` case and in the `build_empty` case. */
    method RunBuilder(p: Package, kind: Kind, ghost w: World, ghost packages: set<Package>, ghost done: set<Stage>)
      returns (r: Outcome<(), Error>)
      requires Complete(Contents(), w, packages, done) && p in packages
      requires Stage(p, kind) == BuildStage(w, p) && Sound(w, Stage(p, kind)) && Stage(p, Source) in done
      modifies this`builds, this`buildSnapshots
      ensures r.Done? ==> Contents() == old(Contents()).(
                builds := old(builds)[p := BuildTree(w, p)],
                buildSnapshots := old(buildSnapshots)[p := SnapshotOf(w, BuildStage(w, p))])
      ensures r.Failed? ==> Contents() == old(Contents()) && r.error.BuildFailed?
      ensures r.Failed? <==> broken(BuildTree(w, p))
    {
      hide Sound, Complete, BuildTree, SnapshotOf, IndexOf;
      if kind.Build? {
        r := BuildPackage(p, w, packages, done);
      } else {
        RefreshedOfComplete(Contents(), w, packages, done, p);
        r := BuildEmptyPackage(p, w);
      }
    }

    /** The end of the `build` and `build_empty` cases. */
    method FinishBuild(p: Package, kind: Kind, below: bool, snapshot: Snapshot, ghost w: World,
                       ghost packages: set<Package>, ghost done: set<Stage>)
      returns (r: Outcome<bool, Error>)
      requires Valid() && Complete(Contents(), w, packages, done) && p in packages
      requires Stage(p, kind) == BuildStage(w, p) && Sound(w, Stage(p, kind)) && Stage(p, Source) in done
      requires snapshot == SnapshotOf(w, Stage(p, kind))
      modifies this`builds, this`buildSnapshots
      ensures Valid()
      ensures Untouched(old(Contents()), Contents(), packages)
      ensures r.Done? ==> Finished(old(Contents()), Contents(), w, Stage(p, kind), below, r.value)
      ensures r.Failed? ==> r.error.BuildFailed?
      ensures r.Failed? <==> broken(BuildTree(w, p)) && (below || Stale(old(Contents()), w, Stage(p, kind)))
    {
      hide Depends, Sound, Complete, Honest, BuildTree, Keys, IndexOf, Kept, Restrict;
      ghost var st := Stage(p, kind);
      var upd := below || BuildOutdated(p, snapshot);
      if upd {
        var b := RunBuilder(p, kind, w, packages, done);
        if b.Failed? {
          return Failed(b.error);
        }
        assert !BuildOutdated(p, snapshot);
        StoreBuild(old(Contents()), w, p);
      } else {
        CurrentSnapshotSuffices(Contents(), w, st);
        KeptUnchanged(Contents(), w, st);
      }
      r := Done(upd);
    }

    /** The end of the `source` case: fetch the sources, then add the package's own checksums. The
        assertion of the source is that an entry already there is the same. */
    method FinishSource(remote: Remote, p: Package, snapshot: Snapshot, ghost packages: set<Package>)
      returns (r: Outcome<(), Error>, snapshot': Snapshot)
      requires Valid() && Ready(Contents(), WorldOf(remote), packages) && p in packages && p in remote
      requires Submap(snapshot, WorldOf(remote))
      modifies this`sources
      ensures Valid()
      ensures Untouched(old(Contents()), Contents(), packages)
      ensures r.Done? ==> SourcesListed(WorldOf(remote), p)
      ensures r.Done? ==> UpToDate(Contents(), WorldOf(remote), Stage(p, Source))
      ensures r.Done? ==> Kept(old(Contents()), Contents(), WorldOf(remote), Stage(p, Source))
      ensures r.Done? ==> Submap(snapshot', WorldOf(remote)) && snapshot'.Keys == snapshot.Keys + {p}
      ensures r.Failed? ==> !r.error.CircularDependencies?
      ensures r.Failed? <==> !SourcesAvailable(remote, old(Contents()), p)
    {
      assert Refreshed(Contents(), WorldOf(remote), p);
      hide Ready, Submap, Kept, SourcesAvailable, UpToDate, IndexOf, Honest, SourcesListed, Untouched;
      r := UpdateSources(remote, p);
      SourcesUntouched(old(Contents()), Contents(), p, packages);
      snapshot' := snapshot;
      if r.Done? {
        SourcesKept(old(Contents()), Contents(), WorldOf(remote), p);
        snapshot' := DumpChecksum(p, snapshot, WorldOf(remote));
      }
    }

    // ----- the depth-first search ---------------------------------------------------------

    /** The loops over dependencies: bring each stage up to date, remember whether one of them
        was rebuilt, and merge the snapshots. */
    method UpdateDependencies(remote: Remote, stages: seq<Stage>, run: Run,
                              ghost packages: set<Package>, ghost initial: Start, ghost above: seq<Stage>)
      returns (r: Outcome<(bool, Snapshot), Error>)
      requires RunInv(Contents(), WorldOf(remote), packages, initial, run.Now())
      requires Unblocked(remote, broken, initial, run.updated.Keys)
      requires forall d :: d in stages ==> d.package in packages && BuildKindFits(WorldOf(remote), d)
      requires forall d :: d in stages ==> OnStack(WorldOf(remote), initial.root, above, d, run.inProgress)
      modifies run, this`sources, this`builds, this`buildSnapshots, this`installations, this`installationSnapshots
      ensures Valid()
      ensures Untouched(old(Contents()), Contents(), packages)
      ensures r.Done? ==> RunInv(Contents(), WorldOf(remote), packages, initial, run.Now())
      ensures r.Done? ==> Grew(old(run.Now()), run.Now())
      ensures r.Done? ==> forall d :: d in stages ==> d in run.updated
      ensures r.Done? ==> (r.value.0 <==> AnyNeedsUpdate(initial.cache, WorldOf(remote), stages))
      ensures r.Done? ==> Submap(r.value.1, WorldOf(remote)) && r.value.1.Keys == KeysOfAll(WorldOf(remote), stages)
      ensures r.Done? ==> Unblocked(remote, broken, initial, run.updated.Keys)
      ensures r.Failed? ==> Explained(remote, broken, initial, r.error)
      decreases AllStages(packages) - run.inProgress, 2
    {
      hide RunInv, Sound, NeedsUpdate, AnyNeedsUpdate, Keys, KeysOfAll, OnStack, Explained, Honest, BuildKindFits,
        Restrict, SnapshotOf, AllStages, Submap, Untouched;
      NothingGathered(initial.cache, WorldOf(remote));
      NothingMerged(WorldOf(remote));
      UntouchedItself(Contents(), packages);
      ghost var w := WorldOf(remote);
      var upd, snapshot := false, map[];
      var k := 0;
      RunInvHonest(Contents(), w, packages, initial, run.Now());
      while k < |stages|
        invariant 0 <= k <= |stages|
        invariant RunInv(Contents(), w, packages, initial, run.Now())
        invariant Unblocked(remote, broken, initial, run.updated.Keys)
        invariant Grew(old(run.Now()), run.Now())
        invariant Untouched(old(Contents()), Contents(), packages)
        invariant forall d :: d in stages[..k] ==> d in run.updated
        invariant upd <==> AnyNeedsUpdate(initial.cache, w, stages[..k])
        invariant Submap(snapshot, w) && snapshot.Keys == KeysOfAll(w, stages[..k])
      {
        var d := stages[k];
        assert d in stages;
        assert stages[..k + 1] == stages[..k] + [d];
        KeysOfAllAppend(w, stages[..k], [d]);
        KeysOfOne(w, d);
        AnyNeedsUpdateAppend(initial.cache, w, stages[..k], d);
        ghost var before := Contents();
        var one := UpdatePackageDepends(remote, d, run, packages, initial, above);
        UntouchedOnwards(old(Contents()), before, Contents(), packages);
        if one.Failed? {
          return Failed(one.error);
        }
        upd := upd || one.value.0;
        SnapshotSubmap(w, d);
        MergedSubmaps(snapshot, one.value.1, w);
        snapshot := MergeMaps(snapshot, one.value.1);
        k := k + 1;
      }
      assert stages[..k] == stages;
      RunInvHonest(Contents(), w, packages, initial, run.Now());
      r := Done((upd, snapshot));
    }

    /** The body of `update_package_depends` for a stage met for the first time. */
    method UpdateStage(remote: Remote, st: Stage, run: Run,
                       ghost packages: set<Package>, ghost initial: Start, ghost above: seq<Stage>)
      returns (r: Outcome<(bool, Snapshot), Error>)
      requires RunInv(Contents(), WorldOf(remote), packages, initial, run.Now())
      requires Unblocked(remote, broken, initial, run.updated.Keys)
      requires st.package in packages && BuildKindFits(WorldOf(remote), st)
      requires OnStack(WorldOf(remote), initial.root, above, st, run.inProgress)
      requires st !in run.inProgress && st !in run.updated
      modifies run, this`sources, this`builds, this`buildSnapshots, this`installations, this`installationSnapshots
      ensures Valid()
      ensures Untouched(old(Contents()), Contents(), packages)
      ensures r.Done? ==> RunInv(Contents(), WorldOf(remote), packages, initial, run.Now())
      ensures r.Done? ==> Grew(old(run.Now()), run.Now()) && st in run.updated
      ensures r.Done? ==> (r.value.0 <==> NeedsUpdate(initial.cache, WorldOf(remote), st))
      ensures r.Done? ==> Sound(WorldOf(remote), st) && r.value.1 == SnapshotOf(WorldOf(remote), st)
      ensures r.Done? ==> Unblocked(remote, broken, initial, run.updated.Keys)
      ensures r.Failed? ==> Explained(remote, broken, initial, r.error)
      decreases AllStages(packages) - run.inProgress, 0
    {
      hide RunInv, Sound, NeedsUpdate, Keys, OnStack, Explained, Honest, BuildKindFits, Restrict, SnapshotOf,
        UpToDate, Stale, Kept, Finished, Ready, IndexOf, AllStages, Blocked, Reachable, Unblocked, Submap, KeysOfAll,
        AnyNeedsUpdate, Untouched;
      ghost var w := WorldOf(remote);
      StageStart(Contents(), w, packages, initial, run.Now(), st);
      StackPush(w, initial.root, above, st, run.inProgress);
      run.inProgress := run.inProgress + {st};
      var deps := ReadIndex(st.package).value;
      var stages := DependsOf(deps, st.package, st.kind);
      var all := UpdateDependencies(remote, stages, run, packages, initial, above + [st]);
      if all.Failed? {
        return Failed(all.error);
      }
      var upd, snapshot := all.value.0, all.value.1;
      ghost var g, c := run.Now(), Contents();
      NotYetUpdated(c, w, packages, initial, g, st);
      r := FinishStage(remote, st, run, upd, snapshot, packages, initial);
      UntouchedOnwards(old(Contents()), c, Contents(), packages);
      if r.Failed? {
        BlockedHere(remote, broken, initial, above, st, old(run.inProgress), r.error);
        return;
      }
      StillUnblocked(remote, broken, initial, run.updated.Keys, st);
      run.Finish(st, r.value.0, r.value.1);
      StackReaches(w, initial.root, above, st, old(run.inProgress));
      Settle(c, Contents(), w, packages, initial, g, run.Now(), st, upd, r.value.0);
    }

    /** The switch over the stage kinds, after the loops over dependencies. */
    method FinishStage(remote: Remote, st: Stage, run: Run, below: bool, snapshot: Snapshot,
                       ghost packages: set<Package>, ghost initial: Start)
      returns (r: Outcome<(bool, Snapshot), Error>)
      requires RunInv(Contents(), WorldOf(remote), packages, initial, run.Now())
      requires Unblocked(remote, broken, initial, run.updated.Keys)
      requires st.package in packages && BuildKindFits(WorldOf(remote), st)
      requires st !in run.updated && forall d :: d in Depends(WorldOf(remote), st) ==> d in run.updated
      requires below <==> AnyNeedsUpdate(initial.cache, WorldOf(remote), Depends(WorldOf(remote), st))
      requires Submap(snapshot, WorldOf(remote))
      requires snapshot.Keys == KeysOfAll(WorldOf(remote), Depends(WorldOf(remote), st))
      modifies run`built, this`sources, this`builds, this`buildSnapshots, this`installations, this`installationSnapshots
      ensures Valid()
      ensures Untouched(old(Contents()), Contents(), packages)
      ensures r.Done? ==> Sound(WorldOf(remote), st) && r.value.1 == SnapshotOf(WorldOf(remote), st)
      ensures r.Done? ==> Finished(old(Contents()), Contents(), WorldOf(remote), st, below, r.value.0)
      ensures r.Done? ==>
                run.built == old(run.built) + if r.value.0 && !st.kind.Source? then multiset{st} else multiset{}
      ensures r.Failed? ==> !r.error.CircularDependencies?
      ensures r.Failed? <==> Blocked(remote, broken, initial.cache, st)
    {
      hide RunInv, Sound, Keys, Honest, BuildKindFits, Restrict, SnapshotOf, UpToDate, Stale, Kept,
        Complete, Ready, KeysOfAll, Depends, IndexOf, Submap, SourcesAvailable, BuildTree, InstallTree, AnyNeedsUpdate,
        NeedsUpdate, Unblocked, Finished, Reachable, Untouched;
      ghost var w, done := WorldOf(remote), run.updated.Keys;
      var p := st.package;
      match st.kind {
        case Installation =>
          assert Blocked(remote, broken, initial.cache, st) <==>
                 broken(InstallTree(w, p)) && NeedsUpdate(initial.cache, w, st);
          hide Blocked;
          StageSound(Contents(), w, packages, initial, run.Now(), st, snapshot);
          StillNeedsUpdate(Contents(), w, packages, initial, run.Now(), st, below);
          var f := FinishInstallation(p, below, snapshot, w, packages, done);
          if f.Failed? {
            return Failed(f.error);
          }
          r := Done((f.value, snapshot));
        case Source =>
          assert Blocked(remote, broken, initial.cache, st) <==> !SourcesAvailable(remote, initial.cache, p);
          hide Blocked;
          PackageServed(Contents(), remote, packages, initial, run.Now(), p);
          StillAvailable(Contents(), remote, packages, initial, run.Now(), p);
          var f, snapshot' := FinishSource(remote, p, snapshot, packages);
          if f.Failed? {
            return Failed(f.error);
          }
          SourceSound(old(Contents()), w, packages, initial, run.Now(), st, snapshot, snapshot');
          SourceFinished(old(Contents()), Contents(), w, st, below);
          r := Done((below, snapshot'));
        case _ =>
          assert Blocked(remote, broken, initial.cache, st) <==>
                 broken(BuildTree(w, p)) && NeedsUpdate(initial.cache, w, st);
          hide Blocked;
          StageSound(Contents(), w, packages, initial, run.Now(), st, snapshot);
          StillNeedsUpdate(Contents(), w, packages, initial, run.Now(), st, below);
          SourceBelow(w, st);
          var f := FinishBuild(p, st.kind, below, snapshot, w, packages, done);
          if f.Failed? {
            return Failed(f.error);
          }
          r := Done((f.value, snapshot));
      }
      ghost var rebuilt := r.value.0 && !st.kind.Source?;
      run.built := run.built + if rebuilt then multiset{st} else multiset{};
    }

    /** `update_package_depends`. `above` is the chain of calls that led here. */
    method UpdatePackageDepends(remote: Remote, st: Stage, run: Run,
                                ghost packages: set<Package>, ghost initial: Start, ghost above: seq<Stage>)
      returns (r: Outcome<(bool, Snapshot), Error>)
      requires RunInv(Contents(), WorldOf(remote), packages, initial, run.Now())
      requires Unblocked(remote, broken, initial, run.updated.Keys)
      requires st.package in packages && BuildKindFits(WorldOf(remote), st)
      requires OnStack(WorldOf(remote), initial.root, above, st, run.inProgress)
      modifies run, this`sources, this`builds, this`buildSnapshots, this`installations, this`installationSnapshots
      ensures Valid()
      ensures Untouched(old(Contents()), Contents(), packages)
      ensures r.Done? ==> RunInv(Contents(), WorldOf(remote), packages, initial, run.Now())
      ensures r.Done? ==> Grew(old(run.Now()), run.Now()) && st in run.updated
      ensures r.Done? ==> (r.value.0 <==> NeedsUpdate(initial.cache, WorldOf(remote), st))
      ensures r.Done? ==> Sound(WorldOf(remote), st) && r.value.1 == SnapshotOf(WorldOf(remote), st)
      ensures r.Done? ==> Unblocked(remote, broken, initial, run.updated.Keys)
      ensures r.Failed? ==> Explained(remote, broken, initial, r.error)
      decreases AllStages(packages) - run.inProgress, 1
    {
      hide Untouched;
      ghost var w := WorldOf(remote);
      UntouchedItself(Contents(), packages);
      RunInvHonest(Contents(), w, packages, initial, run.Now());
      if st in run.inProgress {
        CycleFound(remote, broken, initial, above, st, run.inProgress);
        return Failed(CircularDependencies(st.package));
      }
      if st in run.updated {
        SettledStage(Contents(), w, packages, initial, run.Now(), st);
        return Done((run.updated[st], run.snapshots[st]));
      }
      r := UpdateStage(remote, st, run, packages, initial, above);
    }

    // ----- the update as a whole ----------------------------------------------------------

    /** `repository::update(package)`, from any cache a run may have left and for any remote.
        `built` counts the calls of the builder by stage. */
    method Update(remote: Remote, p: Package) returns (r: Outcome<bool, Error>, ghost built: multiset<Stage>)
      requires Valid()
      modifies this
      ensures Valid() && storedVersion == Some(version)
      ensures r.Done? ==> Current(Contents(), WorldOf(remote), Stage(p, Installation))
      ensures r.Done? ==> BuiltOnce(old(Repaired()), WorldOf(remote), Stage(p, Installation), r.value, built)
      ensures r.Done? ==> forall q :: Reachable(Imports(WorldOf(remote)), p, q) ==>
          Refreshed(Contents(), WorldOf(remote), q)
      ensures UntouchedBeyond(old(Repaired()), Contents(), WorldOf(remote), p)
      ensures r.Failed? <==> MetaBlocked(remote, old(Repaired()).indexes, p)
                             || BlockedBelow(remote, broken, old(Repaired()), Stage(p, Installation))
                             || CycleReachable(Next(WorldOf(remote)), Stage(p, Installation))
      ensures r.Failed? && r.error.CircularDependencies? ==>
                CycleReachable(Next(WorldOf(remote)), Stage(p, Installation))
      ensures r.Failed? && !r.error.CircularDependencies? ==>
                MetaBlocked(remote, old(Repaired()).indexes, p) ||
                BlockedBelow(remote, broken, old(Repaired()), Stage(p, Installation))
    {
      hide Honest, Reachable, MetaBlocked, BlockedBelow, AllUpToDate, BuiltOnce, Ready, Sound, UpToDate, NeedsUpdate,
        SnapshotOf, RunInv, OnStack, Readable, Refreshed, Imports, CycleReachable, BuildKindFits, Submap,
        UntouchedBeyond, Untouched;
      built := multiset{};
      VerifyAndRepair();
      var root := Stage(p, Installation);
      ghost var w := WorldOf(remote);
      ghost var initial := Start(Contents(), root);
      var meta;
      ghost var visited, refreshed;
      meta, visited, refreshed := UpdateMetaTree(remote, p);
      HonestMeta(initial.cache, Contents());
      if meta.Failed? {
        return Failed(meta.error), built;
      }
      var run := new Run();
      RunStarts(initial.cache, Contents(), w, visited, initial, run.Now());
      StackStarts(w, root);
      ghost var refreshedCache := Contents();
      var done := UpdatePackageDepends(remote, root, run, visited, initial, []);
      BeyondClosure(refreshedCache, Contents(), w, p, visited);
      BeyondOnwards(initial.cache, refreshedCache, Contents(), w, p);
      if done.Failed? {
        return Failed(done.error), built;
      }
      built := run.built;
      RunEnds(Contents(), w, visited, initial, run.Now(), done.value.0);
      NothingBlocked(Contents(), remote, broken, visited, initial, run.Now());
      SoundHasNoCycle(w, root);
      r := Done(done.value.0);
    }

    /** The cache an update starts from, once `verify_and_repair` has looked at it. */
    ghost function Repaired(): Cache
      reads this
    {
      if storedVersion == Some(version) then Contents() else EMPTY_CACHE
    }
  }

  lemma LayersOnNothing(self: seq<Merge>, sources: seq<Merge>, packages: seq<Merge>)
    ensures Layers([], self, sources, packages) == self + sources + packages
  {
    assert [] + self == self;
  }

  /** What the builder finds in the cache for a complete source stage. */
  lemma SourceDone(c: Cache, w: World, packages: set<Package>, done: set<Stage>, p: Package, n: nat)
    requires Complete(c, w, packages, done) && Stage(p, Source) in done && Depth(w, Stage(p, Source), n)
    ensures n > 0 && Sound(w, Stage(p, Source)) && UpToDate(c, w, Stage(p, Source))
    ensures p in w && p in c.checksums && c.checksums[p] == w[p]
    ensures p in c.indexes && c.indexes[p].parsed.Some? && c.indexes[p].parsed.value.Absolute(p) == IndexOf(w, p)
    ensures forall i :: i in IndexOf(w, p).source.self ==> i.source in IndexOf(w, p).Sources()
    ensures forall i :: i in IndexOf(w, p).source.importSource ==>
              Stage(i.package, Source) in done && Depth(w, Stage(i.package, Source), n - 1)
    ensures forall i :: i in IndexOf(w, p).source.importPackage ==> Stage(i.package, Installation) in done
  {
    assert Refreshed(c, w, p);
    assert c.indexes[p].parsed.value.Absolute(p) == IndexOf(w, p);
    ImportsAreDepends(w, p);
    hide IndexOf, UpToDate;
    assert AllDepth(w, Depends(w, Stage(p, Source)), n - 1);
  }

  /** What `unpack_source` has to produce. */
  lemma SourceContents(w: World, p: Package, dest: Path)
    requires Sound(w, Stage(p, Source))
    ensures var source := IndexOf(w, p).source;
            SourceDir(w, p, dest) ==
              SelfMerges(ChecksumsOf(w, p), source.self, dest)
              + SourceImports(w, source.importSource, dest)
              + PackageImports(w, source.importPackage, dest) &&
            Keys(w, Stage(p, Source)) ==
              {p} + KeysOfImports(w, source.importSource, Source) + KeysOfImports(w, source.importPackage, Installation)
  {
    var source := IndexOf(w, p).source;
    SourceDirStep(w, p, dest);
    SourceKeys(w, p);
    LayersOnNothing(SelfMerges(ChecksumsOf(w, p), source.self, dest), SourceImports(w, source.importSource, dest),
                    PackageImports(w, source.importPackage, dest));
  }

  lemma InstallationDone(c: Cache, w: World, packages: set<Package>, done: set<Stage>, p: Package)
    requires Complete(c, w, packages, done) && Stage(p, Installation) in done
    ensures p in c.installations && c.installations[p] == InstallTree(w, p)
    ensures p in c.installationSnapshots && Submap(c.installationSnapshots[p], w)
    ensures c.installationSnapshots[p].Keys == Keys(w, Stage(p, Installation))
  {
    hide Ready, Sound, Keys, InstallTree, BuildTree, IndexOf, Depends;
    var st := Stage(p, Installation);
    assert Sound(w, st) && UpToDate(c, w, st);
    KeysStep(w, st);
  }

  /** The imports `build_installation` finds complete. */
  lemma ImportsPlan(c: Cache, w: World, packages: set<Package>, done: set<Stage>, p: Package)
    requires Complete(c, w, packages, done) && p in packages
    requires Sound(w, Stage(p, Installation)) && forall d :: d in Depends(w, Stage(p, Installation)) ==> d in done
    ensures var n := Height(w, Stage(p, Installation));
            n > 0 &&
            (forall i :: i in IndexOf(w, p).package.importSource ==>
               Stage(i.package, Source) in done && Depth(w, Stage(i.package, Source), n - 1)) &&
            (forall i :: i in IndexOf(w, p).package.importPackage ==> Stage(i.package, Installation) in done)
  {
    ImportsAreDepends(w, p);
    var st := Stage(p, Installation);
    hide IndexOf, Complete, Sound, DependsOf, Depends, WellFormed;
    assert AllDepth(w, Depends(w, st), Height(w, st) - 1);
  }

  /** The build and the sources it finds complete. */
  lemma BuildPlan(c: Cache, w: World, packages: set<Package>, done: set<Stage>, p: Package)
    requires Complete(c, w, packages, done) && p in packages
    requires forall d :: d in Depends(w, Stage(p, Installation)) ==> d in done
    ensures UpToDate(c, w, Stage(p, Source))
    ensures p in c.builds && c.builds[p] == BuildTree(w, p)
    ensures p in c.buildSnapshots && c.buildSnapshots[p] == SnapshotOf(w, BuildStage(w, p))
    ensures Submap(c.buildSnapshots[p], w) && c.buildSnapshots[p].Keys == Keys(w, BuildStage(w, p))
  {
    ImportsAreDepends(w, p);
    hide IndexOf, Ready, Sound, Keys, BuildTree, Depends;
    var b := BuildStage(w, p);
    assert b in done && UpToDate(c, w, b);
    KeysStep(w, b);
  }

  /** What `build_installation` finds in the cache once everything below is complete. */
  lemma InstallationPlan(c: Cache, w: World, packages: set<Package>, done: set<Stage>, p: Package)
    requires Complete(c, w, packages, done) && p in packages
    requires Sound(w, Stage(p, Installation)) && forall d :: d in Depends(w, Stage(p, Installation)) ==> d in done
    ensures var n := Height(w, Stage(p, Installation));
            n > 0 &&
            (forall i :: i in IndexOf(w, p).package.importSource ==>
               Stage(i.package, Source) in done && Depth(w, Stage(i.package, Source), n - 1)) &&
            (forall i :: i in IndexOf(w, p).package.importPackage ==> Stage(i.package, Installation) in done)
    ensures UpToDate(c, w, Stage(p, Source))
    ensures p in c.builds && c.builds[p] == BuildTree(w, p)
    ensures p in c.buildSnapshots && c.buildSnapshots[p] == SnapshotOf(w, BuildStage(w, p))
    ensures Submap(c.buildSnapshots[p], w) && c.buildSnapshots[p].Keys == Keys(w, BuildStage(w, p))
    ensures p in c.indexes && c.indexes[p].parsed.Some? && c.indexes[p].parsed.value.Absolute(p) == IndexOf(w, p)
    ensures forall i :: i in IndexOf(w, p).package.self ==> i.source in IndexOf(w, p).Sources()
  {
    ImportsPlan(c, w, packages, done, p);
    BuildPlan(c, w, packages, done, p);
    IndexReady(c, w, packages, p);
    hide IndexOf, Ready, Sound, Keys, BuildTree, Depends, Complete, SnapshotOf, UpToDate, Submap;
  }

  /** What `build_installation` has to produce. */
  lemma InstallationContents(w: World, p: Package)
    requires Sound(w, Stage(p, Installation))
    ensures var package := IndexOf(w, p).package;
            InstallTree(w, p) ==
              Overlaid([Merge([], BuildTree(w, p))]
                + SelfMerges(ChecksumsOf(w, p), package.self, [])
                + SourceImports(w, package.importSource, [])
                + PackageImports(w, package.importPackage, [])) &&
            Keys(w, Stage(p, Installation)) ==
              Keys(w, BuildStage(w, p)) + KeysOfImports(w, package.importSource, Source)
              + KeysOfImports(w, package.importPackage, Installation)
  {
    InstallTreeStep(w, p);
    InstallationKeys(w, p);
  }

  /** What `build` has to produce. */
  lemma BuildContents(w: World, p: Package)
    requires Sound(w, BuildStage(w, p)) && BuildKind(IndexOf(w, p)).Build?
    ensures Sound(w, Stage(p, Source))
    ensures BuildTree(w, p) == Compiled(SourceDir(w, p, []))
    ensures Keys(w, BuildStage(w, p)) == Keys(w, Stage(p, Source))
  {
    SoundParts(w, BuildStage(w, p));
    assert Stage(p, Source) in Depends(w, BuildStage(w, p));
    BuildTreeStep(w, p);
    BuildKeys(w, p);
  }

  // ----- what finishing a stage changes ---------------------------------------------------

  lemma SourcesUntouched(c: Cache, c': Cache, p: Package, packages: set<Package>)
    requires c' == c.(sources := c'.sources) && p in packages
    requires forall k: (Package, string) :: k.0 != p ==> SameSource(c.sources, c'.sources, k)
    ensures Untouched(c, c', packages)
  {
  }

  lemma SourcesKept(c: Cache, c': Cache, w: World, p: Package)
    requires c' == c.(sources := c'.sources)
    requires forall k: (Package, string) :: k.0 != p ==> SameSource(c.sources, c'.sources, k)
    requires UpToDate(c', w, Stage(p, Source))
    ensures Kept(c, c', w, Stage(p, Source))
    ensures Honest(c) ==> Honest(c')
  {
    hide IndexOf, InstallTree, BuildTree, Keys;
  }

  lemma RefreshedOfComplete(c: Cache, w: World, packages: set<Package>, done: set<Stage>, p: Package)
    requires Complete(c, w, packages, done) && p in packages
    ensures p in w && p in c.checksums && c.checksums[p] == w[p]
  {
    assert Refreshed(c, w, p);
  }

  // ----- invariants of the depth-first search ---------------------------------------------

  ghost function AllStages(packages: set<Package>): set<Stage> {
    set p, k | p in packages && k in {Installation, Build, BuildEmpty, Source} :: Stage(p, k)
  }

  /** What the search starts from. */
  datatype Start = Start(cache: Cache, root: Stage)

  /** A memoised stage: it is reachable, its snapshot is the clean one, it was marked as updated exactly when
      something below it was stale at the start, and then it was built once. */
  ghost predicate Settled(w: World, initial: Start, g: Progress, st: Stage) {
    st in g.updated && st in g.snapshots && g.snapshots[st] == SnapshotOf(w, st) &&
    (g.updated[st] <==> NeedsUpdate(initial.cache, w, st)) && Reachable(Next(w), initial.root, st) &&
    g.built[st] == if g.updated[st] && !st.kind.Source? then 1 else 0
  }

  ghost predicate RunInv(c: Cache, w: World, packages: set<Package>, initial: Start, g: Progress) {
    Honest(c) && Complete(c, w, packages, g.updated.Keys) &&
    g.inProgress <= AllStages(packages) && g.updated.Keys !! g.inProgress &&
    (forall st :: st in g.updated ==> Settled(w, initial, g, st)) &&
    (forall st :: st !in g.updated ==> g.built[st] == 0) &&
    (forall st :: Sound(w, st) && st !in g.updated ==> (Stale(c, w, st) <==> Stale(initial.cache, w, st))) &&
    (forall st :: Sound(w, st) && UpToDate(initial.cache, w, st) ==> UpToDate(c, w, st)) &&
    (forall k: (Package, string) :: Stage(k.0, Source) !in g.updated ==>
       SameSource(initial.cache.sources, c.sources, k))
  }

  ghost predicate AnyNeedsUpdate(c: Cache, w: World, stages: seq<Stage>) {
    exists d :: d in stages && NeedsUpdate(c, w, d)
  }

  lemma AnyNeedsUpdateAppend(c: Cache, w: World, stages: seq<Stage>, d: Stage)
    ensures AnyNeedsUpdate(c, w, stages + [d]) <==> AnyNeedsUpdate(c, w, stages) || NeedsUpdate(c, w, d)
  {
    hide NeedsUpdate;
    if NeedsUpdate(c, w, d) {
      assert d in stages + [d];
    }
    if AnyNeedsUpdate(c, w, stages) {
      var e :| e in stages && NeedsUpdate(c, w, e);
      assert e in stages + [d];
    }
  }

  lemma NothingGathered(c: Cache, w: World)
    ensures !AnyNeedsUpdate(c, w, []) && KeysOfAll(w, []) == {}
  {
  }

  lemma RunInvHonest(c: Cache, w: World, packages: set<Package>, initial: Start, g: Progress)
    requires RunInv(c, w, packages, initial, g)
    ensures Honest(c)
  {
  }

  lemma NotYetUpdated(c: Cache, w: World, packages: set<Package>, initial: Start, g: Progress, st: Stage)
    requires RunInv(c, w, packages, initial, g) && st in g.inProgress
    ensures st !in g.updated
  {
  }

  lemma SettledStage(c: Cache, w: World, packages: set<Package>, initial: Start, g: Progress, st: Stage)
    requires RunInv(c, w, packages, initial, g) && st in g.updated
    ensures Sound(w, st) && Settled(w, initial, g, st)
  {
  }

  /** Nothing in progress was finished, and nothing that was finished was forgotten. */
  ghost predicate Grew(g: Progress, g': Progress) {
    g'.inProgress == g.inProgress && g.updated.Keys <= g'.updated.Keys
  }

  /** The calls above form a path from the root to `st`, and are the stages in progress. */
  ghost predicate OnStack(w: World, root: Stage, above: seq<Stage>, st: Stage, inProgress: set<Stage>) {
    IsPathFromTo(Next(w), above + [st], root, st) && inProgress == set s | s in above
  }

  /** Nothing kept these stages from being brought up to date. */
  ghost predicate Unblocked(remote: Remote, broken: Tree -> bool, initial: Start, stages: set<Stage>) {
    forall t :: t in stages ==> !Blocked(remote, broken, initial.cache, t)
  }

  lemma StillUnblocked(remote: Remote, broken: Tree -> bool, initial: Start, stages: set<Stage>, st: Stage)
    requires Unblocked(remote, broken, initial, stages) && !Blocked(remote, broken, initial.cache, st)
    ensures Unblocked(remote, broken, initial, stages + {st})
  {
  }

  /** Why an update stopped: a cycle, or a stage that the server or a utility keeps from being built. */
  ghost predicate Explained(remote: Remote, broken: Tree -> bool, initial: Start, e: Error) {
    if e.CircularDependencies? then CycleReachable(Next(WorldOf(remote)), initial.root)
    else BlockedBelow(remote, broken, initial.cache, initial.root)
  }

  lemma CycleFound(remote: Remote, broken: Tree -> bool, initial: Start, above: seq<Stage>, st: Stage,
      inProgress: set<Stage>)
    requires OnStack(WorldOf(remote), initial.root, above, st, inProgress) && st in inProgress
    ensures Explained(remote, broken, initial, CircularDependencies(st.package))
  {
    var next := Next(WorldOf(remote));
    var path := above + [st];
    var k :| 0 <= k < |above| && above[k] == st;
    var cycle := path[k..];
    forall i | 0 <= i < |cycle| - 1
      ensures cycle[i + 1] in next(cycle[i])
    {
      assert path[k + i + 1] in next(path[k + i]);
    }
    assert IsCycle(next, cycle);
    assert IsPathFromTo(next, path[..k + 1], path[0], cycle[0]);
  }

  lemma StackPush(w: World, root: Stage, above: seq<Stage>, st: Stage, inProgress: set<Stage>)
    requires OnStack(w, root, above, st, inProgress)
    ensures forall d :: d in Depends(w, st) ==> OnStack(w, root, above + [st], d, inProgress + {st})
  {
    forall d | d in Depends(w, st)
      ensures OnStack(w, root, above + [st], d, inProgress + {st})
    {
      var path := above + [st];
      forall i | 0 <= i < |path + [d]| - 1
        ensures (path + [d])[i + 1] in Next(w)((path + [d])[i])
      {
        if i < |path| - 1 {
          assert path[i + 1] in Next(w)(path[i]);
        }
      }
    }
  }

  lemma BlockedHere(remote: Remote, broken: Tree -> bool, initial: Start, above: seq<Stage>, st: Stage,
                    inProgress: set<Stage>, e: Error)
    requires OnStack(WorldOf(remote), initial.root, above, st, inProgress) && Blocked(remote, broken, initial.cache, st)
    requires !e.CircularDependencies?
    ensures Explained(remote, broken, initial, e)
  {
    assert IsPathFromTo(Next(WorldOf(remote)), above + [st], initial.root, st);
  }

  lemma StackReaches(w: World, root: Stage, above: seq<Stage>, st: Stage, inProgress: set<Stage>)
    requires OnStack(w, root, above, st, inProgress)
    ensures Reachable(Next(w), root, st)
  {
  }

  lemma SnapshotSubmap(w: World, st: Stage)
    requires Sound(w, st)
    ensures Submap(SnapshotOf(w, st), w) && SnapshotOf(w, st).Keys == Keys(w, st)
  {
    KeysStep(w, st);
  }

  /** Entering a stage for the first time. */
  lemma StageStart(c: Cache, w: World, packages: set<Package>, initial: Start, g: Progress, st: Stage)
    requires RunInv(c, w, packages, initial, g) && st.package in packages
    requires st !in g.updated && st !in g.inProgress
    ensures var p := st.package;
            p in c.indexes && c.indexes[p].parsed.Some? && c.indexes[p].parsed.value.Absolute(p) == IndexOf(w, p)
    ensures forall d :: d in Depends(w, st) ==> d.package in packages && BuildKindFits(w, d)
    ensures st in AllStages(packages)
    ensures RunInv(c, w, packages, initial, g.(inProgress := g.inProgress + {st}))
  {
    hide Sound, Stale, UpToDate, Honest, NeedsUpdate, Depends, IndexOf, Ready, AllStages, BuildKindFits, Reachable;
    assert Ready(c, w, packages);
    hide Complete, SameSource;
    ReadyDepends(c, w, packages, st);
    IndexReady(c, w, packages, st.package);
    InAllStages(packages, st);
    var g' := g.(inProgress := g.inProgress + {st});
    forall t | t in g'.updated
      ensures Settled(w, initial, g', t)
    {
      SameSettled(w, initial, g, g', t);
    }
  }

  lemma InAllStages(packages: set<Package>, st: Stage)
    requires st.package in packages
    ensures st in AllStages(packages)
  {
    var p, k := st.package, st.kind;
    assert k.Installation? || k.Build? || k.BuildEmpty? || k.Source?;
    assert k in {Installation, Build, BuildEmpty, Source};
  }

  lemma IndexReady(c: Cache, w: World, packages: set<Package>, p: Package)
    requires Ready(c, w, packages) && p in packages
    ensures Readable(w, p) && p in c.indexes && c.indexes[p].parsed.Some?
    ensures c.indexes[p].parsed.value.Absolute(p) == IndexOf(w, p)
  {
    assert Refreshed(c, w, p);
  }

  lemma SameSettled(w: World, initial: Start, g: Progress, g': Progress, t: Stage)
    requires Settled(w, initial, g, t)
    requires t in g'.updated && g'.updated[t] == g.updated[t]
    requires t in g'.snapshots && g'.snapshots[t] == g.snapshots[t] && g'.built[t] == g.built[t]
    ensures Settled(w, initial, g', t)
  {
  }

  /** With everything below complete, a stage other than a source stage is sound, and the merged
      snapshots are its snapshot. */
  lemma StageSound(c: Cache, w: World, packages: set<Package>, initial: Start, g: Progress, st: Stage,
      snapshot: Snapshot)
    requires RunInv(c, w, packages, initial, g) && st.package in packages && BuildKindFits(w, st)
    requires !st.kind.Source? && forall d :: d in Depends(w, st) ==> d in g.updated
    requires Submap(snapshot, w) && snapshot.Keys == KeysOfAll(w, Depends(w, st))
    ensures Honest(c) && Complete(c, w, packages, g.updated.Keys)
    ensures Sound(w, st) && snapshot == SnapshotOf(w, st)
    ensures st.kind.Build? || st.kind.BuildEmpty? ==> st == BuildStage(w, st.package)
  {
    hide Depends, IndexOf, Settled, Stale, Honest, NeedsUpdate, Sound, UpToDate, Keys, KeysOfAll, Ready, AllStages,
      Readable;
    IndexReady(c, w, packages, st.package);
    SoundStep(w, st);
    KeysStep(w, st);
    SubmapIsRestrict(snapshot, w);
  }

  lemma SourceSound(c: Cache, w: World, packages: set<Package>, initial: Start, g: Progress, st: Stage,
                    snapshot: Snapshot, snapshot': Snapshot)
    requires RunInv(c, w, packages, initial, g) && st.package in packages
    requires st.kind.Source? && forall d :: d in Depends(w, st) ==> d in g.updated
    requires SourcesListed(w, st.package)
    requires snapshot.Keys == KeysOfAll(w, Depends(w, st))
    requires Submap(snapshot', w) && snapshot'.Keys == snapshot.Keys + {st.package}
    ensures Sound(w, st) && snapshot' == SnapshotOf(w, st)
  {
    hide Depends, IndexOf, Settled, Stale, Honest, NeedsUpdate, Sound, UpToDate, Keys, KeysOfAll, Ready, AllStages,
      Readable, SourcesListed;
    IndexReady(c, w, packages, st.package);
    SoundStep(w, st);
    KeysStep(w, st);
    SubmapIsRestrict(snapshot', w);
  }

  /** A stage that is stale, or above something rebuilt, needed an update from the start. */
  lemma StillNeedsUpdate(c: Cache, w: World, packages: set<Package>, initial: Start, g: Progress, st: Stage,
                         below: bool)
    requires RunInv(c, w, packages, initial, g) && Sound(w, st) && st !in g.updated
    requires below <==> AnyNeedsUpdate(initial.cache, w, Depends(w, st))
    ensures below || Stale(c, w, st) <==> NeedsUpdate(initial.cache, w, st)
  {
    hide Settled, Sound, Stale, UpToDate, Honest, NeedsUpdate, Depends, Complete, AllStages;
    NeedsUpdateStep(initial.cache, w, st);
  }

  /** Until a package's sources are fetched, they are as they were at the start. */
  lemma StillAvailable(c: Cache, remote: Remote, packages: set<Package>, initial: Start, g: Progress, p: Package)
    requires RunInv(c, WorldOf(remote), packages, initial, g) && Stage(p, Source) !in g.updated
    ensures SourcesAvailable(remote, c, p) <==> SourcesAvailable(remote, initial.cache, p)
  {
    hide Settled, Stale, UpToDate, Honest, NeedsUpdate, Depends, Ready, AllStages, Sound, IndexOf, Readable,
      SourcesListed;
    forall s
      ensures SameSource(initial.cache.sources, c.sources, (p, s))
    {
    }
  }

  lemma SourceBelow(w: World, st: Stage)
    requires st.kind.Build? || st.kind.BuildEmpty?
    ensures Stage(st.package, Source) in Depends(w, st)
  {
    ImportsAreDepends(w, st.package);
  }

  /** A source stage has no archive of its own that could be stale. */
  lemma SourceFinished(c: Cache, c': Cache, w: World, st: Stage, below: bool)
    requires st.kind.Source? && UpToDate(c', w, st) && Kept(c, c', w, st)
    ensures Finished(c, c', w, st, below, below)
  {
  }

  lemma PackageServed(c: Cache, remote: Remote, packages: set<Package>, initial: Start, g: Progress, p: Package)
    requires RunInv(c, WorldOf(remote), packages, initial, g) && p in packages
    ensures Honest(c) && Ready(c, WorldOf(remote), packages) && p in remote
  {
    assert Refreshed(c, WorldOf(remote), p);
  }

  /** Leaving a stage: it is memoised, complete, and built at most once. */
  lemma Settle(c: Cache, c': Cache, w: World, packages: set<Package>, initial: Start, g: Progress, g': Progress,
               st: Stage, below: bool, upd: bool)
    requires RunInv(c, w, packages, initial, g)
    requires st.package in packages && st in g.inProgress && Reachable(Next(w), initial.root, st)
    requires Sound(w, st) && forall d :: d in Depends(w, st) ==> d in g.updated
    requires below <==> AnyNeedsUpdate(initial.cache, w, Depends(w, st))
    requires Honest(c') && c'.checksums == c.checksums && c'.indexes == c.indexes
    requires Finished(c, c', w, st, below, upd)
    requires g' == Progress(g.updated[st := upd], g.inProgress - {st}, g.snapshots[st := SnapshotOf(w, st)],
                            g.built + if upd && !st.kind.Source? then multiset{st} else multiset{})
    ensures RunInv(c', w, packages, initial, g')
    ensures upd <==> NeedsUpdate(initial.cache, w, st)
  {
    hide Depends, IndexOf, Sound, UpToDate, Stale, NeedsUpdate, Honest, SnapshotOf, AllStages, Ready, Complete,
        Reachable;
    NeedsUpdateStep(initial.cache, w, st);
    Remember(w, initial, g, g', st, upd);
    CompleteMore(c, c', w, packages, g.updated.Keys, st);
    hide Settled;
  }

  /** The memo tables after one more stage. */
  lemma Remember(w: World, initial: Start, g: Progress, g': Progress, st: Stage, upd: bool)
    requires Reachable(Next(w), initial.root, st)
    requires st !in g.updated && (upd <==> NeedsUpdate(initial.cache, w, st))
    requires forall t :: t in g.updated ==> Settled(w, initial, g, t)
    requires forall t :: t !in g.updated ==> g.built[t] == 0
    requires g' == Progress(g.updated[st := upd], g.inProgress - {st}, g.snapshots[st := SnapshotOf(w, st)],
                            g.built + if upd && !st.kind.Source? then multiset{st} else multiset{})
    ensures forall t :: t in g'.updated ==> Settled(w, initial, g', t)
    ensures forall t :: t !in g'.updated ==> g'.built[t] == 0
    ensures g'.updated.Keys == g.updated.Keys + {st}
  {
    hide SnapshotOf, NeedsUpdate, Reachable;
    forall t | t in g'.updated
      ensures Settled(w, initial, g', t)
    {
      if t != st {
        SameSettled(w, initial, g, g', t);
      }
    }
  }

  lemma CompleteMore(c: Cache, c': Cache, w: World, packages: set<Package>, done: set<Stage>, st: Stage)
    requires Complete(c, w, packages, done) && st.package in packages
    requires Sound(w, st) && forall d :: d in Depends(w, st) ==> d in done
    requires c'.checksums == c.checksums && c'.indexes == c.indexes
    requires UpToDate(c', w, st) && Kept(c, c', w, st)
    ensures Complete(c', w, packages, done + {st})
  {
    hide Depends, Sound, UpToDate, Stale, Ready;
    ReadySame(c, c', w, packages);
  }

  lemma ReadySame(c: Cache, c': Cache, w: World, packages: set<Package>)
    requires Ready(c, w, packages) && c'.checksums == c.checksums && c'.indexes == c.indexes
    ensures Ready(c', w, packages)
  {
    hide IndexOf;
  }

  // ----- the search as a whole ------------------------------------------------------------

  /** Every stage below `st` holds what a build from an empty cache leaves, and there is no cycle. */
  ghost predicate Current(c: Cache, w: World, st: Stage) {
    Sound(w, st) && AllUpToDate(c, w, st) && !CycleReachable(Next(w), st)
  }

  /** The builder ran once for every reachable stage that was stale or above a stale one, and for
      no other; the result says whether it ran at all. */
  ghost predicate BuiltOnce(c: Cache, w: World, st: Stage, upd: bool, built: multiset<Stage>) {
    (upd <==> NeedsUpdate(c, w, st)) &&
    forall t :: built[t] ==
      if Reachable(Next(w), st, t) && !t.kind.Source? && NeedsUpdate(c, w, t) then 1 else 0
  }

  /** Refreshing metadata touches neither archives nor snapshots nor sources. */
  lemma StagesKept(c: Cache, c': Cache, w: World, st: Stage)
    requires c' == c.(checksums := c'.checksums, indexes := c'.indexes)
    ensures Stale(c', w, st) <==> Stale(c, w, st)
    ensures UpToDate(c', w, st) <==> UpToDate(c, w, st)
  {
    hide InstallTree, BuildTree, SnapshotOf, IndexOf;
  }

  lemma HonestMeta(c: Cache, c': Cache)
    requires Honest(c) && c' == c.(checksums := c'.checksums, indexes := c'.indexes)
    ensures Honest(c')
  {
    hide HonestBuild, HonestInstallation;
  }

  lemma RunStarts(c: Cache, c': Cache, w: World, packages: set<Package>, initial: Start, g: Progress)
    requires Honest(c) && initial.cache == c && Ready(c', w, packages)
    requires c' == c.(checksums := c'.checksums, indexes := c'.indexes)
    requires g == Progress(map[], {}, map[], multiset{})
    ensures RunInv(c', w, packages, initial, g)
  {
    hide Sound, Honest, Stale, UpToDate, Ready, AllStages;
    HonestMeta(c, c');
    forall st
      ensures Stale(c', w, st) <==> Stale(c, w, st)
      ensures UpToDate(c', w, st) <==> UpToDate(c, w, st)
    {
      StagesKept(c, c', w, st);
    }
  }

  lemma StackStarts(w: World, root: Stage)
    ensures OnStack(w, root, [], root, {})
    ensures root.kind.Installation? ==> BuildKindFits(w, root)
  {
    assert [] + [root] == [root];
  }

  lemma AllCovered(c: Cache, w: World, packages: set<Package>, initial: Start, g: Progress)
    requires RunInv(c, w, packages, initial, g) && initial.root in g.updated
    ensures forall t :: Reachable(Next(w), initial.root, t) ==> t in g.updated
  {
    hide Sound, UpToDate, NeedsUpdate, Stale, Honest, SnapshotOf, Depends, Reachable, Refreshed, Settled;
    var done := g.updated.Keys;
    forall t | Reachable(Next(w), initial.root, t)
      ensures t in done
    {
      ClosedContainsReachable(Next(w), done, initial.root, t);
    }
  }

  lemma NothingBlocked(c: Cache, remote: Remote, broken: Tree -> bool, packages: set<Package>,
                       initial: Start, g: Progress)
    requires RunInv(c, WorldOf(remote), packages, initial, g) && initial.root in g.updated
    requires Unblocked(remote, broken, initial, g.updated.Keys)
    ensures !BlockedBelow(remote, broken, initial.cache, initial.root)
  {
    AllCovered(c, WorldOf(remote), packages, initial, g);
    hide RunInv, Reachable, Blocked;
  }

  lemma RunEnds(c: Cache, w: World, packages: set<Package>, initial: Start, g: Progress, upd: bool)
    requires RunInv(c, w, packages, initial, g) && initial.root in g.updated
    requires upd <==> NeedsUpdate(initial.cache, w, initial.root)
    ensures AllUpToDate(c, w, initial.root)
    ensures forall q :: q in packages ==> Refreshed(c, w, q)
    ensures BuiltOnce(initial.cache, w, initial.root, upd, g.built)
  {
    hide Sound, UpToDate, NeedsUpdate, Stale, Honest, SnapshotOf, Depends, Reachable, Refreshed;
    AllCovered(c, w, packages, initial, g);
    forall t
      ensures g.built[t] ==
                if Reachable(Next(w), initial.root, t) && !t.kind.Source? && NeedsUpdate(initial.cache, w, t)
                then 1 else 0
    {
      if t in g.updated {
        assert Settled(w, initial, g, t);
      }
    }
  }
}
