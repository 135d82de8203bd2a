/** The server's side: making a source package out of a directory, `distributor::create`. */
module PmPublish {
  import opened Common
  import opened Graphs
  import opened PmEntry
  import opened PmWorld
  import opened PmClean
  import opened PmCache
  import opened PmRepository

  datatype CreateError = NoIndex | InvalidIndex | SourceMissing(name: string)

  /** A directory with an index, directories of sources, and what `Create` adds to it. `pack`
      stands for the archiver. */
  class SourcePackage<Files(!new)> {
    const pack: Files -> File
    var index: Option<File>
    var directories: map<string, Files>
    var archives: map<string, File>
    var checksum: Checksums

    constructor (pack: Files -> File, index: Option<File>, directories: map<string, Files>)
      ensures this.pack == pack && this.index == index && this.directories == directories
      ensures archives == map[] && checksum == map[]
    {
      this.pack, this.index, this.directories := pack, index, directories;
      archives, checksum := map[], map[];
    }

    /** The names of the sources the index asks for. */
    function Wanted(): set<string>
      reads this
    {
      if index.Some? && index.value.parsed.Some? then index.value.parsed.value.Sources() else {}
    }

    /** What a client fetching from this directory sees. */
    function Served(): RemotePackage
      reads this
    {
      RemotePackage(checksum, index, archives)
    }

    /** Packs every source and writes the checksum file. The sources are removed last, so that
        nothing is removed when anything fails. */
    method Create(strip: bool) returns (r: Outcome<(), CreateError>)
      modifies this`archives, this`checksum, this`directories
      ensures r.Done? <==> index.Some? && index.value.parsed.Some? && Wanted() <= old(directories).Keys
      ensures r.Failed? ==> directories == old(directories) && checksum == old(checksum)
      ensures r.Done? ==> directories == if strip then old(directories) - Wanted() else old(directories)
      ensures r.Done? ==> checksum.Keys == {INDEX} + Wanted()
      ensures r.Done? ==> forall s :: s in Wanted() ==>
                s in archives && archives[s] == pack(old(directories)[s]) && checksum[s] == Digest(archives[s])
      ensures r.Done? && INDEX !in Wanted() ==> checksum[INDEX] == Digest(index.value)
    {
      if index.None? {
        return Failed(NoIndex);
      }
      var listed: Checksums := map[INDEX := Digest(index.value)];
      if index.value.parsed.None? {
        return Failed(InvalidIndex);
      }
      var todo := index.value.parsed.value.Sources();
      var toRemove: set<string> := {};
      while todo != {}
        invariant directories == old(directories) && checksum == old(checksum)
        invariant toRemove <= old(directories).Keys && Wanted() == toRemove + todo && toRemove !! todo
        invariant listed.Keys == {INDEX} + toRemove
        invariant forall s :: s in toRemove ==>
                    s in archives && archives[s] == pack(directories[s]) && listed[s] == Digest(archives[s])
        invariant INDEX !in toRemove ==> listed[INDEX] == Digest(index.value)
      {
        var s :| s in todo;
        if s !in directories {
          return Failed(SourceMissing(s));
        }
        archives := archives[s := pack(directories[s])];
        listed := listed[s := Digest(archives[s])];
        toRemove := toRemove + {s};
        todo := todo - {s};
      }
      checksum := listed;
      if strip {
        directories := directories - toRemove;
      }
      r := Done(());
    }
  }

  /** A published package can be fetched by a client with an empty cache, metadata and sources
      alike, exactly when its index and a source of the same name do not overwrite each other's line
      in the checksum file, and every source has a plain file name: `Create` takes others too, but
      the client refuses them. */
  method PublishedIsFetched<Files(!new)>(directory: SourcePackage<Files>, strip: bool, p: Package, others: Remote)
    returns (r: Outcome<(), CreateError>)
    requires p != []
    modifies directory
    ensures r.Done? ==>
              var remote := others[p := directory.Served()];
              var wanted := directory.Wanted();
              (MetaAvailable(remote, map[], p) <==>
                 INDEX !in wanted ||
                 (INDEX in directory.archives && directory.archives[INDEX] == directory.index.value)) &&
              (MetaAvailable(remote, map[], p) ==>
                 (SourcesAvailable(remote, EMPTY_CACHE, p) <==> forall s :: s in wanted ==> '/' !in s))
  {
    r := directory.Create(strip);
    if r.Done? {
      SourcesStay(directory.index.value.parsed.value, p);
    }
  }

  function PackedAsIs(files: File): File {
    files
  }

  const P: Package := ["p"]
  const SLASHED := "a/b"
  const SLASHED_INDEX := Index(PackageStage([], [], []), PackageStage([], [], [LocalImport([], SLASHED)]))

  /** A package with a source in a subdirectory is published without an error, and no client can
      ever update it. */
  method PublishesWhatNobodyCanFetch(version: string, broken: Tree -> bool)
    returns (created: Outcome<(), CreateError>, updated: Outcome<bool, Error>)
    ensures created.Done? && updated.Failed?
  {
    var directory := new SourcePackage(PackedAsIs, Some(File("", Some(SLASHED_INDEX))), map[SLASHED := NO_FILE]);
    assert SLASHED_INDEX.Sources() == {SLASHED};
    created := directory.Create(false);
    var repository := new Repository(version, broken);
    var remote: Remote := map[P := directory.Served()];
    SlashedIsBlocked(remote, broken, repository.Repaired());
    ghost var built;
    updated, built := repository.Update(remote, P);
  }

  lemma SlashedIsBlocked(remote: Remote, broken: Tree -> bool, c: Cache)
    requires P in remote && INDEX in remote[P].checksum
    requires remote[P].checksum[INDEX].file.parsed == Some(SLASHED_INDEX)
    ensures BlockedBelow(remote, broken, c, Stage(P, Installation))
  {
    var w := WorldOf(remote);
    var build := BuildStage(w, P);
    SourcesStay(SLASHED_INDEX, P);
    assert SLASHED in IndexOf(w, P).Sources() && !IsFileName(SLASHED);
    ImportsAreDepends(w, P);
    ReachSelf(Next(w), Stage(P, Source));
    StepReach(Next(w), build, Stage(P, Source), Stage(P, Source));
    StepReach(Next(w), Stage(P, Installation), build, Stage(P, Source));
    assert Blocked(remote, broken, c, Stage(P, Source));
  }

  /** Making imports absolute does not touch the sources of the package itself. */
  lemma SourcesStay(index: Index, p: Package)
    ensures index.Absolute(p).Sources() == index.Sources()
  {
  }
}
