/** What an update promises its callers, over one run and over two. */
module PmTheorems {
  import opened Common
  import opened Graphs
  import opened PmWorld
  import opened PmClean
  import opened PmCache
  import opened PmRepository

  /** Two caches hold the same for a stage. */
  ghost predicate SameStage(c1: Cache, c2: Cache, w: World, st: Stage) {
    var p := st.package;
    match st.kind
    case Installation =>
      p in c1.installations && p in c2.installations && c1.installations[p] == c2.installations[p] &&
      p in c1.installationSnapshots && p in c2.installationSnapshots &&
      c1.installationSnapshots[p] == c2.installationSnapshots[p]
    case Source =>
      forall s :: s in IndexOf(w, p).Sources() ==>
        (p, s) in c1.sources && (p, s) in c2.sources && c1.sources[(p, s)] == c2.sources[(p, s)]
    case _ =>
      p in c1.builds && p in c2.builds && c1.builds[p] == c2.builds[p] &&
      p in c1.buildSnapshots && p in c2.buildSnapshots && c1.buildSnapshots[p] == c2.buildSnapshots[p]
  }

  /** Incremental equals clean: whatever earlier runs against other remotes left in the cache, and
      whether or not they finished, an update ends with the same archives, at every stage below
      the target, as an update that starts from an empty cache; and it fails only if that one
      fails. */
  method IncrementalEqualsClean(warm: Repository, remote: Remote, p: Package)
    returns (cold: Repository, r: Outcome<bool, Error>, clean: Outcome<bool, Error>)
    requires warm.Valid()
    modifies warm
    ensures fresh(cold)
    ensures r.Done? && clean.Done? ==>
              forall st :: Reachable(Next(WorldOf(remote)), Stage(p, Installation), st) ==>
                SameStage(warm.Contents(), cold.Contents(), WorldOf(remote), st)
    ensures clean.Done? ==> r.Done?
  {
    EmptyIsWorst(warm.Repaired(), remote, warm.broken, p);
    hide Sound, NeedsUpdate, MetaBlocked, BlockedBelow, Honest, Refreshed, BuiltOnce, InstallTree, BuildTree,
      SnapshotOf;
    ghost var built;
    cold := new Repository(warm.version, warm.broken);
    r, built := warm.Update(remote, p);
    clean, built := cold.Update(remote, p);
  }

  /** What stops an update from some cache stops one from an empty cache as well. */
  lemma EmptyIsWorst(c: Cache, remote: Remote, broken: Tree -> bool, p: Package)
    ensures MetaBlocked(remote, c.indexes, p) ==> MetaBlocked(remote, map[], p)
    ensures BlockedBelow(remote, broken, c, Stage(p, Installation)) ==>
              BlockedBelow(remote, broken, EMPTY_CACHE, Stage(p, Installation))
  {
    var w, root := WorldOf(remote), Stage(p, Installation);
    hide Imports, InstallTree, BuildTree, SnapshotOf, IndexOf, Reachable, Readable, SourcesListed, Next;
    if MetaBlocked(remote, c.indexes, p) {
      var q :| Reachable(Imports(w), p, q) && !MetaAvailable(remote, c.indexes, q);
      assert !MetaAvailable(remote, map[], q);
    }
    if BlockedBelow(remote, broken, c, root) {
      var t :| Reachable(Next(w), root, t) && Blocked(remote, broken, c, t);
      if NeedsUpdate(c, w, t) {
        var u :| Reachable(Next(w), t, u) && Stale(c, w, u);
        assert Stale(EMPTY_CACHE, w, u);
        assert NeedsUpdate(EMPTY_CACHE, w, t);
      }
      assert Blocked(remote, broken, EMPTY_CACHE, t);
    }
  }

  /** A second update against the same remote cannot fail, rebuilds nothing, and says so. */
  method SecondUpdateIsIdle(repository: Repository, remote: Remote, p: Package)
    returns (first: Outcome<bool, Error>, second: Outcome<bool, Error>, ghost built: multiset<Stage>)
    requires repository.Valid()
    modifies repository
    ensures first.Done? ==> second == Done(false) && built == multiset{}
  {
    hide Sound, NeedsUpdate, MetaBlocked, BlockedBelow, Honest, Refreshed, BuiltOnce, InstallTree, BuildTree,
      SnapshotOf, AllUpToDate, CycleReachable, Imports, Reachable;
    ghost var ignored, before;
    first, ignored := repository.Update(remote, p);
    before := repository.Contents();
    if first.Done? {
      IdleIsNotBlocked(before, remote, repository.broken, p);
    }
    second, built := repository.Update(remote, p);
    if first.Done? {
      IdleBuildsNothing(before, WorldOf(remote), Stage(p, Installation), second.value, built);
    }
  }

  /** When the server and the utilities do their part, an update fails exactly on cycles. */
  method FailsExactlyOnCycles(repository: Repository, remote: Remote, p: Package)
    returns (r: Outcome<bool, Error>)
    requires repository.Valid()
    requires !MetaBlocked(remote, repository.Repaired().indexes, p)
    requires !BlockedBelow(remote, repository.broken, repository.Repaired(), Stage(p, Installation))
    modifies repository
    ensures r.Failed? <==> CycleReachable(Next(WorldOf(remote)), Stage(p, Installation))
    ensures r.Failed? ==> r.error.CircularDependencies?
  {
    hide Sound, NeedsUpdate, MetaBlocked, BlockedBelow, Honest, Refreshed, BuiltOnce, AllUpToDate, CycleReachable;
    ghost var built;
    r, built := repository.Update(remote, p);
  }

  /** With everything current, nothing the server or the utilities do can stop an update. */
  lemma IdleIsNotBlocked(c: Cache, remote: Remote, broken: Tree -> bool, p: Package)
    requires Current(c, WorldOf(remote), Stage(p, Installation))
    requires forall q :: Reachable(Imports(WorldOf(remote)), p, q) ==> Refreshed(c, WorldOf(remote), q)
    ensures !MetaBlocked(remote, c.indexes, p)
    ensures !BlockedBelow(remote, broken, c, Stage(p, Installation))
  {
    var w, root := WorldOf(remote), Stage(p, Installation);
    hide Imports, InstallTree, BuildTree, SnapshotOf, IndexOf;
    forall t | Reachable(Next(w), root, t)
      ensures !Blocked(remote, broken, c, t)
    {
      IdleBelow(c, w, root, t);
      SoundReaches(w, root, t);
      SoundParts(w, t);
    }
  }

  lemma IdleBelow(c: Cache, w: World, root: Stage, t: Stage)
    requires AllUpToDate(c, w, root) && Reachable(Next(w), root, t)
    ensures UpToDate(c, w, t) && !NeedsUpdate(c, w, t)
  {
    hide Next, InstallTree, BuildTree, SnapshotOf, IndexOf;
    forall u | Reachable(Next(w), t, u)
      ensures UpToDate(c, w, u)
    {
      ReachTrans(Next(w), root, t, u);
    }
  }

  lemma IdleBuildsNothing(c: Cache, w: World, root: Stage, upd: bool, built: multiset<Stage>)
    requires AllUpToDate(c, w, root) && BuiltOnce(c, w, root, upd, built)
    ensures !upd && built == multiset{}
  {
    ReachSelf(Next(w), root);
    hide NeedsUpdate, UpToDate;
    IdleBelow(c, w, root, root);
    forall t
      ensures built[t] == 0
    {
      if Reachable(Next(w), root, t) {
        IdleBelow(c, w, root, t);
      }
    }
  }
}
