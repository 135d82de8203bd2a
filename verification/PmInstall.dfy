/** Installations outside the cache: directories kept up to date by the extractor. */
module PmInstall {
  import opened Common
  import opened Graphs
  import opened PmEntry
  import opened PmWorld
  import opened PmClean
  import opened PmCache
  import opened PmRepository

  /** What an installation directory was last made from. */
  datatype Origin = Origin(world: World, package: Package)

  ghost predicate InstalledFrom(meta: Option<Snapshot>, data: Option<Tree>, origin: Origin) {
    var st := Stage(origin.package, Installation);
    Sound(origin.world, st) && meta == Some(SnapshotOf(origin.world, st)) &&
    data == Some(InstallTree(origin.world, origin.package))
  }

  /** An installation directory: its data, and the snapshot in its meta file if there is a
      readable one. */
  class Destination {
    var meta: Option<Snapshot>
    var data: Option<Tree>
    ghost var origin: Option<Origin>

    /** A directory with a meta file was filled by `Install`. */
    ghost predicate Valid()
      reads this
    {
      (meta.Some? ==> origin.Some?) && (origin.Some? ==> InstalledFrom(meta, data, origin.value))
    }

    constructor ()
      ensures Valid() && meta.None? && origin.None?
    {
      meta, data, origin := None, None, None;
    }

    /** `extractor::install`, after an update of the package in the cache. */
    method Install(repository: Repository, p: Package, ghost w: World)
      requires Valid() && Current(repository.Contents(), w, Stage(p, Installation))
      modifies this
      ensures Valid() && origin == Some(Origin(w, p)) && data == Some(InstallTree(w, p))
    {
      HoldsInstallation(repository.Contents(), w, p);
      meta, data := None, None;
      data := Some(repository.installations[p]);
      meta := Some(repository.installationSnapshots[p]);
      origin := Some(Origin(w, p));
    }

    /** `extractor::update`: installs unless the meta file holds the current snapshot. Afterwards the
        directory holds what a clean build installs exactly when it did not hold that snapshot, or
        when both packages install the same from it. */
    method Refresh(repository: Repository, p: Package, ghost w: World)
      requires Valid() && Current(repository.Contents(), w, Stage(p, Installation))
      modifies this
      ensures Valid()
      ensures if old(meta) == Some(SnapshotOf(w, Stage(p, Installation)))
              then unchanged(this) else data == Some(InstallTree(w, p)) && origin == Some(Origin(w, p))
      ensures data == Some(InstallTree(w, p)) <==> RefreshIsRight(old(meta), old(origin), w, p)
      ensures old(origin).None? || old(origin).value.package == p ==> data == Some(InstallTree(w, p))
    {
      HoldsInstallation(repository.Contents(), w, p);
      if origin.Some? && meta == Some(SnapshotOf(w, Stage(p, Installation))) {
        SnapshotIsWorld(origin.value.world, Stage(origin.value.package, Installation));
        SnapshotIsWorld(w, Stage(p, Installation));
      }
      if meta.None? || meta.value != repository.installationSnapshots[p] {
        Install(repository, p, w);
      } else if origin.value.package == p {
        SameSnapshotSameTree(origin.value.world, w, p);
      }
    }
  }

  /** The snapshot alone decides: the directory does not hold it, or the package it was made for
      installs the same from it as the package asked for. */
  ghost predicate RefreshIsRight(meta: Option<Snapshot>, origin: Option<Origin>, w: World, p: Package) {
    var s := SnapshotOf(w, Stage(p, Installation));
    meta != Some(s) || (origin.Some? && InstallTree(s, origin.value.package) == InstallTree(s, p))
  }

  lemma HoldsInstallation(c: Cache, w: World, p: Package)
    requires Current(c, w, Stage(p, Installation))
    ensures p in c.installations && c.installations[p] == InstallTree(w, p)
    ensures p in c.installationSnapshots && c.installationSnapshots[p] == SnapshotOf(w, Stage(p, Installation))
  {
    ReachSelf(Next(w), Stage(p, Installation));
    hide Sound, InstallTree, SnapshotOf;
    assert UpToDate(c, w, Stage(p, Installation));
  }

  lemma SameSnapshotSameTree(w1: World, w2: World, p: Package)
    requires Sound(w1, Stage(p, Installation)) && Sound(w2, Stage(p, Installation))
    requires SnapshotOf(w1, Stage(p, Installation)) == SnapshotOf(w2, Stage(p, Installation))
    ensures InstallTree(w1, p) == InstallTree(w2, p)
  {
    ReachSelf(Next(w1), Stage(p, Installation));
    hide Sound, InstallTree, SnapshotOf;
    SnapshotDeterminesContent(w1, w2, Stage(p, Installation), Stage(p, Installation));
  }

  /** `repository::update(package, destination)`: a directory that was empty, or held any earlier
      installation of the same package, ends up with what a clean build installs. */
  method UpdateInstallation(repository: Repository, destination: Destination, remote: Remote, p: Package)
    returns (r: Outcome<bool, Error>)
    requires repository.Valid() && destination.Valid()
    modifies repository, destination
    ensures repository.Valid() && destination.Valid()
    ensures r.Failed? ==> destination.data == old(destination.data) && destination.meta == old(destination.meta)
    ensures r.Done? && (old(destination.origin).None? || old(destination.origin).value.package == p) ==>
              destination.data == Some(InstallTree(WorldOf(remote), p))
    ensures r.Done? ==>
              (destination.data == Some(InstallTree(WorldOf(remote), p)) <==>
               RefreshIsRight(old(destination.meta), old(destination.origin), WorldOf(remote), p))
  {
    hide Sound, NeedsUpdate, MetaBlocked, BlockedBelow, Honest, Refreshed, BuiltOnce, InstallTree, BuildTree,
      SnapshotOf, Current, Imports, InstalledFrom, CycleReachable, RefreshIsRight;
    ghost var built;
    r, built := repository.Update(remote, p);
    if r.Done? {
      destination.Refresh(repository, p, WorldOf(remote));
    }
  }

  // ----- a directory of another package ---------------------------------------------------

  /** A package that builds nothing: its source stage needs no other. */
  lemma PlainPackage(w: World, p: Package)
    requires Readable(w, p) && SourcesListed(w, p) && IndexOf(w, p).source == PackageStage([], [], [])
    ensures Sound(w, Stage(p, Source)) && Keys(w, Stage(p, Source)) == {p} && SourceDir(w, p, []) == []
    ensures Sound(w, BuildStage(w, p)) && Keys(w, BuildStage(w, p)) == {p} && BuildTree(w, p) == Empty
  {
    hide IndexOf, Readable, SourcesListed;
    assert BuildStage(w, p) == Stage(p, BuildEmpty);
    assert Depends(w, Stage(p, Source)) == [];
    SoundStep(w, Stage(p, Source));
    assert Depends(w, BuildStage(w, p)) == [Stage(p, Source)];
    SoundStep(w, BuildStage(w, p));
    KeysStep(w, Stage(p, Source));
    BuildKeys(w, p);
    SourceDirStep(w, p, []);
    BuildTreeStep(w, p);
  }

  /** A package that builds nothing and takes the sources of one other such package. */
  ghost predicate Takes(w: World, p: Package, q: Package) {
    Readable(w, p) && SourcesListed(w, p) && IndexOf(w, p).source == PackageStage([], [], []) &&
    IndexOf(w, p).package.importSource == [TreeImport([], q)] && IndexOf(w, p).package.importPackage == []
  }

  lemma TakesDepends(w: World, p: Package, q: Package)
    requires Takes(w, p, q)
    ensures Depends(w, Stage(p, Installation)) == [Stage(q, Source), BuildStage(w, p)]
  {
    var imports := [TreeImport([], q)];
    assert StagesOf(imports, Source) == [Stage(q, Source)];
    hide IndexOf;
    assert Depends(w, Stage(p, Installation)) ==
        StagesOf([], Installation) + StagesOf(imports, Source) + [BuildStage(w, p)];
  }

  lemma TakesKeys(w: World, p: Package, q: Package)
    requires Takes(w, p, q) && Takes(w, q, p)
    ensures Sound(w, Stage(p, Installation)) && Keys(w, Stage(p, Installation)) == {p, q}
  {
    PlainPackage(w, p);
    PlainPackage(w, q);
    TakesDepends(w, p, q);
    hide SourcesListed, IndexOf, Sound, Keys, SourceDir, BuildTree, Depends, BuildKind;
    SoundStep(w, Stage(p, Installation));
    KeysStep(w, Stage(p, Installation));
  }

  lemma TakesTree(w: World, p: Package, q: Package)
    requires Takes(w, p, q) && Takes(w, q, p)
    ensures InstallTree(w, p) ==
              Overlaid([Merge([], Empty)] + SelfMerges(ChecksumsOf(w, p), IndexOf(w, p).package.self, []))
  {
    PlainPackage(w, p);
    PlainPackage(w, q);
    TakesKeys(w, p, q);
    hide SourcesListed, Sound, Keys, SourceDir, BuildTree, InstallTree, SelfMerges, IndexOf, Depends, BuildStage,
        BuildKind;
    InstallTreeStep(w, p);
    var imports := [TreeImport([], q)];
    assert imports[..0] == [];
    assert SourceImports(w, imports, []) == SourceImports(w, imports[..0], []) + SourceDir(w, q, []);
  }

  /** Two packages that import each other's sources. */
  const P: Package := ["p"]
  const Q: Package := ["q"]
  const NONE := PackageStage([], [], [])
  const TAKES_Q := Index(NONE, PackageStage([TreeImport([], Q)], [], [LocalImport([], "s")]))
  const TAKES_P := Index(NONE, PackageStage([TreeImport([], P)], [], []))
  const CROSSED: World := map[
    P := map[INDEX := Digest(File("", Some(TAKES_Q))), "s" := Digest(NO_FILE)],
    Q := map[INDEX := Digest(File("", Some(TAKES_P)))]]

  lemma CrossedIndexes()
    ensures Takes(CROSSED, P, Q) && IndexOf(CROSSED, P) == TAKES_Q
    ensures Takes(CROSSED, Q, P) && IndexOf(CROSSED, Q) == TAKES_P
  {
    assert Absolute(Q, P) == Q && Absolute(P, Q) == P;
    assert AbsoluteImports(TAKES_Q.package.importSource, P) == TAKES_Q.package.importSource;
    assert AbsoluteImports(TAKES_P.package.importSource, Q) == TAKES_P.package.importSource;
    assert AbsoluteImports([], P) == [] && AbsoluteImports([], Q) == [];
    hide Absolute, AbsoluteImports;
    assert TAKES_Q.Absolute(P) == TAKES_Q && TAKES_P.Absolute(Q) == TAKES_P;
    assert TAKES_Q.Sources() == {"s"};
    assert TAKES_P.Sources() == {};
  }

  /** Two packages that import each other's sources have the same snapshot and different
      installations. */
  lemma SnapshotsDoNotNameThePackage()
    ensures Sound(CROSSED, Stage(P, Installation)) && Sound(CROSSED, Stage(Q, Installation))
    ensures SnapshotOf(CROSSED, Stage(P, Installation)) == SnapshotOf(CROSSED, Stage(Q, Installation))
    ensures InstallTree(CROSSED, P) != InstallTree(CROSSED, Q)
  {
    CrossedIndexes();
    hide Takes, IndexOf, Sound, Keys, InstallTree;
    TakesKeys(CROSSED, P, Q);
    TakesKeys(CROSSED, Q, P);
    assert {P, Q} == {Q, P};
    TakesTree(CROSSED, P, Q);
    TakesTree(CROSSED, Q, P);
    assert |SelfMerges(ChecksumsOf(CROSSED, P), TAKES_Q.package.self, [])| == 1;
    assert SelfMerges(ChecksumsOf(CROSSED, Q), TAKES_P.package.self, []) == [];
  }

  const SERVED: Remote := map[
    P := RemotePackage(CROSSED[P], Some(File("", Some(TAKES_Q))), map["s" := NO_FILE]),
    Q := RemotePackage(CROSSED[Q], Some(File("", Some(TAKES_P))), map[])]

  predicate NeverBroken(tree: Tree) {
    false
  }

  lemma CrossedIsServed()
    ensures WorldOf(SERVED) == CROSSED
    ensures forall q, indexes :: q in {P, Q} ==> MetaAvailable(SERVED, indexes, q) && Imports(CROSSED)(q) <= {P, Q}
    ensures forall q, c :: q in {P, Q} ==> SourcesAvailable(SERVED, c, q)
  {
    CrossedIndexes();
    hide IndexOf, Absolute, AbsoluteImports;
    assert WorldOf(SERVED) == CROSSED;
    assert TAKES_Q.All() == {Q} && TAKES_P.All() == {P};
    assert TAKES_Q.Sources() == {"s"} && TAKES_P.Sources() == {};
  }

  /** Nothing keeps an update of either package from succeeding. */
  lemma CrossedCanBeUpdated(indexes: map<Package, File>, c: Cache, p: Package)
    requires p == P || p == Q
    ensures WorldOf(SERVED) == CROSSED
    ensures !MetaBlocked(SERVED, indexes, p)
    ensures !BlockedBelow(SERVED, NeverBroken, c, Stage(p, Installation))
    ensures !CycleReachable(Next(CROSSED), Stage(p, Installation))
  {
    CrossedIndexes();
    CrossedIsServed();
    TakesKeys(CROSSED, P, Q);
    TakesKeys(CROSSED, Q, P);
    SoundHasNoCycle(CROSSED, Stage(p, Installation));
    hide Sound, Keys, Takes, CycleReachable, Reachable, MetaAvailable, SourcesAvailable, Imports, IndexOf;
    forall q | Reachable(Imports(CROSSED), p, q)
      ensures MetaAvailable(SERVED, indexes, q)
    {
      ClosedContainsReachable(Imports(CROSSED), {P, Q}, p, q);
    }
    forall t | Reachable(Next(CROSSED), Stage(p, Installation), t)
      ensures !Blocked(SERVED, NeverBroken, c, t)
    {
      SoundReaches(CROSSED, Stage(p, Installation), t);
      PackageInWorld(CROSSED, t);
    }
  }

  lemma PackageInWorld(w: World, t: Stage)
    requires Sound(w, t)
    ensures t.package in w
  {
    SoundParts(w, t);
  }

  /** A directory made for the one passes for a current installation of the other: asked to hold
      the second package it keeps the first, and both updates report success. */
  method DirectoryOfTheWrongPackage(version: string)
    returns (destination: Destination, first: Outcome<bool, Error>, second: Outcome<bool, Error>)
    ensures fresh(destination) && first.Done? && second.Done?
    ensures destination.data == Some(InstallTree(CROSSED, P))
    ensures destination.data != Some(InstallTree(CROSSED, Q))
  {
    SnapshotsDoNotNameThePackage();
    hide InstallTree, SnapshotOf, Sound, NeedsUpdate, MetaBlocked, BlockedBelow, Honest, Refreshed, BuiltOnce,
      Current, Imports, CycleReachable;
    var repository := new Repository(version, NeverBroken);
    destination := new Destination();
    CrossedCanBeUpdated(repository.Repaired().indexes, repository.Repaired(), P);
    ghost var built;
    first, built := repository.Update(SERVED, P);
    destination.Refresh(repository, P, CROSSED);
    CrossedCanBeUpdated(repository.Repaired().indexes, repository.Repaired(), Q);
    second, built := repository.Update(SERVED, Q);
    destination.Refresh(repository, Q, CROSSED);
  }
}
