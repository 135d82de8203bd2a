/** bacs::archive::repository: uploads, flags and imports, one critical section at a time.

    Every operation that takes `m_lock` exclusively is one step. An import holds `m_import_lock`
    over two steps: it captures the revision and a copy of the data, converts the copy with no
    lock on the storage, and then commits. Posted handlers that have not captured anything yet,
    whether waiting for a thread or for `m_import_lock`, are in the queue. */
module ArchiveImport {
  import opened Common

  type Id = string
  type Revision = string

  datatype Flag = Ignore | Locked | ReadOnly | PendingImport | Custom(name: string)

  /** A stored import result: the revision that was converted, and whether that worked. */
  datatype ImportResult = ImportResult(revision: Revision, ok: bool)

  /** `data` is the revision computed from the stored archive; `revision` is the revision file. */
  datatype Problem = Problem(
    data: Revision, revision: Option<Revision>, flags: set<Flag>, result: Option<ImportResult>)

  datatype Capture = Capture(id: Id, revision: Revision)

  /** `scheduling` holds the problems some call has prepared and is about to post. */
  datatype State = State(
    problems: map<Id, Problem>, queue: multiset<Id>, scheduling: multiset<Id>, inFlight: Option<Capture>)
  {
    predicate Has(id: Id, flag: Flag) {
      id in problems && flag in problems[id].flags
    }

    /** `is_locked`. */
    predicate IsLocked(id: Id) {
      Has(id, Locked) || Has(id, ReadOnly)
    }

    /** A problem whose flags may be edited. */
    predicate Editable(id: Id) {
      id in problems && !Has(id, ReadOnly)
    }

    function WithFlags(id: Id, flags: set<Flag>): State
      requires id in problems
    {
      this.(problems := problems[id := problems[id].(flags := flags)])
    }
  }

  datatype Event =
    | Upload(id: Id, data: Revision, wellFormed: bool)
    | Prepare(id: Id)
    | Post(id: Id)
    | StartQueued(id: Id, unpacks: bool)
    | StartDirect(id: Id, unpacks: bool)
    | Commit(ok: bool)
    | SetFlag(id: Id, flag: Flag)
    | SetFlags(id: Id, flags: set<Flag>)
    | UnsetFlags(id: Id, flags: set<Flag>)
    | ClearFlags(id: Id)
    | Damage(id: Id)
    | Restart

  // ----- one step -------------------------------------------------------------------------

  const KEPT := {Ignore, PendingImport}

  function Uploaded(s: State, id: Id, data: Revision): State {
    var flags := if id in s.problems then s.problems[id].flags else {};
    s.(problems := s.problems[id := Problem(data, Some(data), flags + {PendingImport}, None)],
       queue := s.queue + multiset{id})
  }

  /** The capturing half of `import`: an unreadable revision is computed again from the data. If
      unpacking the data throws, the import ends there. */
  function Captured(s: State, id: Id, unpacks: bool): State {
    if id !in s.problems then s else
      var p := s.problems[id];
      var revision := if p.revision.Some? then p.revision.value else p.data;
      s.(problems := s.problems[id := p.(revision := Some(revision))],
         inFlight := if unpacks then Some(Capture(id, revision)) else s.inFlight)
  }

  /** The committing half of `import`. */
  function Committed(s: State, ok: bool): State
    requires s.inFlight.Some?
  {
    var c, s' := s.inFlight.value, s.(inFlight := None);
    if c.id !in s.problems || s.problems[c.id].revision != Some(c.revision) then s'
    else
      var p := s.problems[c.id];
      var flags := if ok then p.flags - {Ignore} else p.flags + {Ignore};
      s'.(problems := s.problems[c.id :=
            p.(result := Some(ImportResult(c.revision, ok)), flags := flags - {PendingImport})])
  }

  function Pending(s: State): set<Id> {
    set id | id in s.problems && PendingImport in s.problems[id].flags
  }

  /** What a critical section does to the state; events that are not enabled change nothing. */
  function Step(s: State, e: Event): State {
    match e
    case Upload(id, data, wellFormed) =>
      if wellFormed && !s.IsLocked(id) then Uploaded(s, id, data) else s
    case Prepare(id) =>
      if id in s.problems then
        s.WithFlags(id, s.problems[id].flags + {PendingImport}).(scheduling := s.scheduling + multiset{id})
      else s
    case Post(id) =>
      if id in s.scheduling then
        s.(scheduling := s.scheduling - multiset{id}, queue := s.queue + multiset{id})
      else s
    case StartQueued(id, unpacks) =>
      if id in s.queue && s.inFlight.None? then Captured(s.(queue := s.queue - multiset{id}), id, unpacks) else s
    case StartDirect(id, unpacks) =>
      if s.inFlight.None? then Captured(s, id, unpacks) else s
    case Commit(ok) =>
      if s.inFlight.Some? then Committed(s, ok) else s
    case SetFlag(id, flag) =>
      if flag != PendingImport && s.Editable(id) then s.WithFlags(id, s.problems[id].flags + {flag}) else s
    case SetFlags(id, flags) =>
      if s.Editable(id) then s.WithFlags(id, s.problems[id].flags + flags) else s
    case UnsetFlags(id, flags) =>
      if s.Editable(id) then s.WithFlags(id, s.problems[id].flags - (flags - KEPT)) else s
    case ClearFlags(id) =>
      if s.Editable(id) then s.WithFlags(id, s.problems[id].flags * KEPT) else s
    case Damage(id) =>
      if id in s.problems then
        s.(problems := s.problems[id := s.problems[id].(revision := None)])
      else s
    case Restart =>
      State(s.problems, multiset{}, multiset(Pending(s)), None)
  }

  function Run(s: State, events: seq<Event>): State {
    if events == [] then s else Step(Run(s, events[..|events| - 1]), events[|events| - 1])
  }

  // ----- safety ---------------------------------------------------------------------------

  /** Nothing pending: the stored result was produced from the current data, and a failed import
      has the problem ignored. */
  ghost predicate Imported(p: Problem) {
    PendingImport !in p.flags ==>
      p.result.Some? && p.result.value.revision == p.data && (!p.result.value.ok ==> Ignore in p.flags)
  }

  ghost predicate OnDisk(p: Problem) {
    (p.revision.Some? ==> p.revision.value == p.data) && Imported(p)
  }

  /** Some import of the problem's current data is on its way and will be able to commit. */
  ghost predicate OnItsWay(s: State, id: Id) {
    id in s.queue || id in s.scheduling ||
    (id in s.problems && s.problems[id].revision.Some? && s.inFlight == Some(Capture(id, s.problems[id].data)))
  }

  /** What holds of each problem in every reachable state. */
  ghost predicate InvAt(s: State, id: Id) {
    (id in s.problems ==> OnDisk(s.problems[id])) &&
    (s.Has(id, PendingImport) ==> OnItsWay(s, id)) &&
    (id in s.queue || id in s.scheduling ==> id in s.problems) &&
    (s.inFlight.Some? && s.inFlight.value.id == id ==> id in s.problems)
  }

  ghost predicate Inv(s: State) {
    forall id :: InvAt(s, id)
  }

  /** The steps that keep the promise. `set_flags` accepts PENDING_IMPORT, which `set_flag` refuses,
      and posts no job; a posted job that cannot unpack the data is used up; and an import in flight
      cannot commit once the revision file is damaged. Each is harmless exactly when another import
      of the problem is on its way, or none is due. */
  ghost predicate Allowed(s: State, e: Event) {
    match e
    case SetFlags(id, flags) => PendingImport !in flags || !s.Editable(id) || OnItsWay(s, id)
    case StartQueued(id, unpacks) =>
      unpacks || id !in s.queue || s.inFlight.Some? || !s.Has(id, PendingImport) ||
      s.queue[id] > 1 || id in s.scheduling
    case Damage(id) => s.Has(id, PendingImport) ==> id in s.queue || id in s.scheduling
    case _ => true
  }

  /** A critical section keeps the promise exactly when it is one of these. */
  lemma StepKeepsInv(s: State, e: Event)
    requires Inv(s)
    ensures Inv(Step(s, e)) <==> Allowed(s, e)
  {
    if Allowed(s, e) {
      hide InvAt, Step, Allowed;
      forall id
        ensures InvAt(Step(s, e), id)
      {
        StepKeepsInvAt(s, e, id);
      }
    } else {
      assert InvAt(s, e.id);
      assert !InvAt(Step(s, e), e.id);
    }
  }

  lemma StepKeepsInvAt(s: State, e: Event, id: Id)
    requires InvAt(s, id) && Allowed(s, e)
    ensures InvAt(Step(s, e), id)
  {
    if EditsFlags(e) {
      FlagStepKeepsInvAt(s, e, id);
    } else if e.StartQueued? || e.StartDirect? {
      StartKeepsInvAt(s, e, id);
    } else if e.Commit? {
      CommitKeepsInvAt(s, e, id);
    } else {
      assert e.Upload? || e.Prepare? || e.Post? || e.Damage? || e.Restart?;
    }
  }

  predicate EditsFlags(e: Event) {
    e.SetFlag? || e.SetFlags? || e.UnsetFlags? || e.ClearFlags?
  }

  lemma FlagStepKeepsInvAt(s: State, e: Event, id: Id)
    requires InvAt(s, id) && Allowed(s, e) && EditsFlags(e)
    ensures InvAt(Step(s, e), id)
  {
    var s' := Step(s, e);
    assert s.Has(id, PendingImport) ==> s'.Has(id, PendingImport);
    assert s.Has(id, Ignore) ==> s'.Has(id, Ignore);
    assert OnItsWay(s', id) <==> OnItsWay(s, id);
  }

  lemma StartKeepsInvAt(s: State, e: Event, id: Id)
    requires InvAt(s, id) && Allowed(s, e) && (e.StartQueued? || e.StartDirect?)
    ensures InvAt(Step(s, e), id)
  {
  }

  lemma CommitKeepsInvAt(s: State, e: Event, id: Id)
    requires InvAt(s, id) && e.Commit?
    ensures InvAt(Step(s, e), id)
  {
    if s.inFlight.Some? && s.inFlight.value.id != id {
      assert id in s.problems ==> Step(s, e).problems[id] == s.problems[id];
    }
  }

  /** In every interleaving of uploads, scheduled and direct imports, flag operations, failures to
      unpack, damage to revision files and restarts: as long as every step is allowed, and exactly as
      long, a problem that is not pending has a result produced from its current data, and is ignored
      if that result is an error; and a pending problem has an import of its current data on its
      way. */
  lemma {:induction false} EveryRunIsSafe(events: seq<Event>)
    ensures SafeThroughout(events) <==> AllowedThroughout(events)
    ensures SafeThroughout(events) ==> Inv(Run(EMPTY, events))
  {
    if events == [] {
    } else {
      hide Inv, Allowed, Step;
      var init, e := events[..|events| - 1], events[|events| - 1];
      EveryRunIsSafe(init);
      if Inv(Run(EMPTY, init)) {
        StepKeepsInv(Run(EMPTY, init), e);
      }
    }
  }

  /** The promise holds after every prefix of the events. */
  ghost predicate SafeThroughout(events: seq<Event>) {
    Inv(Run(EMPTY, events)) && (events == [] || SafeThroughout(events[..|events| - 1]))
  }

  /** Every event is allowed where it happens. */
  ghost predicate AllowedThroughout(events: seq<Event>) {
    events == [] ||
    (AllowedThroughout(events[..|events| - 1]) && Allowed(Run(EMPTY, events[..|events| - 1]), events[|events| - 1]))
  }

  /** What a caller can see to: no problem is marked as pending by hand. And what the disk can: data
      can be unpacked, and the revision of the problem in flight is not damaged. */
  predicate Regular(s: State, e: Event) {
    match e
    case SetFlags(_, flags) => PendingImport !in flags
    case StartQueued(_, unpacks) => unpacks
    case Damage(id) => s.inFlight.None? || s.inFlight.value.id != id
    case _ => true
  }

  lemma RegularIsAllowed(s: State, e: Event)
    requires Inv(s) && Regular(s, e)
    ensures Allowed(s, e)
  {
    if e.Damage? {
      assert InvAt(s, e.id);
    }
  }

  ghost predicate RegularThroughout(events: seq<Event>) {
    events == [] ||
    (RegularThroughout(events[..|events| - 1]) && Regular(Run(EMPTY, events[..|events| - 1]), events[|events| - 1]))
  }

  /** So an archive on which only regular steps happen is safe after every run. */
  lemma {:induction false} RegularRunIsSafe(events: seq<Event>)
    requires RegularThroughout(events)
    ensures SafeThroughout(events)
  {
    if events == [] {
    } else {
      hide Inv, Step, Regular, Allowed;
      var init, e := events[..|events| - 1], events[|events| - 1];
      RegularRunIsSafe(init);
      RegularIsAllowed(Run(EMPTY, init), e);
      StepKeepsInv(Run(EMPTY, init), e);
    }
  }

  const EMPTY := State(map[], multiset{}, multiset{}, None)

  /** A restart needs nothing but what is on disk to bring lost jobs back. */
  lemma RestartRestores(s: State)
    requires forall id :: id in s.problems ==> OnDisk(s.problems[id])
    ensures Inv(Step(s, Restart))
    ensures Step(s, Restart).problems == s.problems
  {
  }

  // ----- what a lock protects -------------------------------------------------------------

  /** The problem an event is about. */
  predicate Concerns(s: State, e: Event, id: Id) {
    match e
    case Upload(i, _, _) => i == id
    case Prepare(i) => i == id
    case Post(i) => i == id
    case StartQueued(i, _) => i == id
    case StartDirect(i, _) => i == id
    case Commit(_) => s.inFlight.Some? && s.inFlight.value.id == id
    case SetFlag(i, _) => i == id
    case SetFlags(i, _) => i == id
    case UnsetFlags(i, _) => i == id
    case ClearFlags(i) => i == id
    case Damage(i) => i == id
    case Restart => false
  }

  /** A critical section changes the problem it is about and no other, and removes none. */
  lemma OthersStay(s: State, e: Event, id: Id)
    ensures id in s.problems ==> id in Step(s, e).problems
    ensures !Concerns(s, e, id) && id in s.problems ==> Step(s, e).problems[id] == s.problems[id]
    ensures !Concerns(s, e, id) && id !in s.problems ==> id !in Step(s, e).problems
  {
  }

  /** The data of a problem with either flag stay, whatever happens; its result changes by an import
      of these data only. */
  lemma LockProtects(s: State, e: Event, id: Id)
    requires id in s.problems && (Locked in s.problems[id].flags || ReadOnly in s.problems[id].flags)
    ensures var s' := Step(s, e);
            id in s'.problems && s'.problems[id].data == s.problems[id].data &&
            (s'.problems[id].result == s.problems[id].result ||
             (e.Commit? && s.inFlight.Some? && s.inFlight.value.id == id))
  {
    if !Concerns(s, e, id) {
      OthersStay(s, e, id);
      hide Step;
    } else if e.Commit? {
      assert Step(s, e) == Committed(s, e.ok);
      hide Step;
    } else {
      hide Committed;
    }
  }

  /** Only these events can take LOCKED from a problem. */
  predicate Unlocks(e: Event, id: Id) {
    (e.UnsetFlags? && e.id == id && Locked in e.flags) || (e.ClearFlags? && e.id == id)
  }

  /** So a lock holds, and protects the data, until somebody takes it away. */
  lemma {:induction false} LockedUntilUnlocked(s: State, events: seq<Event>, id: Id)
    requires id in s.problems && Locked in s.problems[id].flags && forall e :: e in events ==> !Unlocks(e, id)
    ensures var s' := Run(s, events);
            id in s'.problems && Locked in s'.problems[id].flags && s'.problems[id].data == s.problems[id].data
  {
    if events != [] {
      LockedUntilUnlocked(s, events[..|events| - 1], id);
      hide Run;
      LockStays(Run(s, events[..|events| - 1]), events[|events| - 1], id);
    }
  }

  lemma LockStays(s: State, e: Event, id: Id)
    requires id in s.problems && Locked in s.problems[id].flags && !Unlocks(e, id)
    ensures id in Step(s, e).problems && Locked in Step(s, e).problems[id].flags
    ensures Step(s, e).problems[id].data == s.problems[id].data
  {
    if !Concerns(s, e, id) {
      OthersStay(s, e, id);
      hide Step;
    } else if e.Commit? {
      assert Step(s, e) == Committed(s, e.ok);
      hide Step;
    } else {
      hide Committed;
    }
  }

  /** Nothing takes READ_ONLY from a problem: its data stay for good, and so do its flags but for the
      two that imports write. */
  lemma {:induction false} ReadOnlyForGood(s: State, events: seq<Event>, id: Id)
    requires id in s.problems && ReadOnly in s.problems[id].flags
    ensures var s' := Run(s, events);
            id in s'.problems && s'.problems[id].data == s.problems[id].data &&
            forall flag :: flag != Ignore && flag != PendingImport ==>
              (flag in s'.problems[id].flags <==> flag in s.problems[id].flags)
  {
    if events != [] {
      ReadOnlyForGood(s, events[..|events| - 1], id);
      hide Run;
      ReadOnlyStays(Run(s, events[..|events| - 1]), events[|events| - 1], id);
    }
  }

  lemma ReadOnlyStays(s: State, e: Event, id: Id)
    requires id in s.problems && ReadOnly in s.problems[id].flags
    ensures var s' := Step(s, e);
            id in s'.problems && s'.problems[id].data == s.problems[id].data &&
            forall flag :: flag != Ignore && flag != PendingImport ==>
              (flag in s'.problems[id].flags <==> flag in s.problems[id].flags)
  {
    if !Concerns(s, e, id) {
      OthersStay(s, e, id);
      hide Step;
    } else if e.Commit? {
      assert Step(s, e) == Committed(s, e.ok);
      hide Step;
    } else {
      hide Committed;
    }
  }

  /** An upload the lock does not stop replaces the data and drops the result. */
  lemma UploadReplaces(s: State, id: Id, data: Revision)
    requires id in s.problems ==> Locked !in s.problems[id].flags && ReadOnly !in s.problems[id].flags
    ensures var s' := Step(s, Upload(id, data, true));
            id in s'.problems && s'.problems[id].data == data && s'.problems[id].revision == Some(data) &&
            s'.problems[id].result.None? && s'.queue == s.queue + multiset{id} &&
            forall flag :: flag in s'.problems[id].flags <==>
              flag == PendingImport || (id in s.problems && flag in s.problems[id].flags)
  {
  }

  /** What the flag operations add and remove, on a problem that is not read-only; on any other they
      do nothing. */
  lemma FlagsEdited(s: State, id: Id, flags: set<Flag>, flag: Flag)
    requires id in s.problems
    ensures var had := flag in s.problems[id].flags;
            var open := ReadOnly !in s.problems[id].flags;
            (flag in Step(s, SetFlags(id, flags)).problems[id].flags <==> had || (open && flag in flags)) &&
            (flag in Step(s, UnsetFlags(id, flags)).problems[id].flags <==>
               had && (!open || flag !in flags || flag == Ignore || flag == PendingImport)) &&
            (flag in Step(s, ClearFlags(id)).problems[id].flags <==>
               had && (!open || flag == Ignore || flag == PendingImport)) &&
            (flag in Step(s, SetFlag(id, flag)).problems[id].flags <==> had || (open && flag != PendingImport))
  {
  }

  // ----- progress -------------------------------------------------------------------------

  /** The steps the server takes on its own. */
  predicate Internal(s: State, e: Event) {
    match e
    case Post(id) => id in s.scheduling
    case StartQueued(id, unpacks) => id in s.queue && s.inFlight.None? && unpacks
    case Commit(_) => s.inFlight.Some?
    case _ => false
  }

  function Work(s: State): nat {
    3 * |s.scheduling| + 2 * |s.queue| + if s.inFlight.Some? then 1 else 0
  }

  /** Left alone, the server comes to rest: each step of its own leaves less to do, and a step is
      possible until nothing is queued or in flight. Then no problem is pending. */
  lemma ServerComesToRest(s: State)
    requires Inv(s)
    ensures forall e :: Internal(s, e) ==> Work(Step(s, e)) < Work(s) && Inv(Step(s, e))
    ensures (forall e :: !Internal(s, e)) <==> Work(s) == 0
    ensures Work(s) == 0 ==> Pending(s) == {}
  {
    forall e | Internal(s, e)
      ensures Work(Step(s, e)) < Work(s) && Inv(Step(s, e))
    {
      RegularIsAllowed(s, e);
      StepKeepsInv(s, e);
    }
    if Work(s) != 0 {
      if s.inFlight.Some? {
        assert Internal(s, Commit(true));
      } else if |s.queue| > 0 {
        var id :| id in s.queue;
        assert Internal(s, StartQueued(id, true));
      } else {
        var id :| id in s.scheduling;
        assert Internal(s, Post(id));
      }
    }
    if Work(s) == 0 && Pending(s) != {} {
      var id :| id in Pending(s);
      assert InvAt(s, id) && s.Has(id, PendingImport);
    }
  }

  // ----- where the code breaks the promise ------------------------------------------------

  /** `set_flags` keeps the promise exactly when PENDING_IMPORT is not passed, the call is refused, or
      an import of the current data is on its way anyhow. */
  lemma SetFlagsExactly(s: State, id: Id, flags: set<Flag>)
    requires Inv(s)
    ensures Inv(Step(s, SetFlags(id, flags))) <==>
              (PendingImport !in flags || !s.Editable(id) || OnItsWay(s, id))
  {
    StepKeepsInv(s, SetFlags(id, flags));
  }

  lemma RunOneMore(s: State, events: seq<Event>, e: Event)
    ensures Run(s, events + [e]) == Step(Run(s, events), e)
  {
    assert (events + [e])[..|events|] == events;
  }

  const UPLOAD := Upload("p", "r", true)
  const UPLOADED := Problem("r", Some("r"), {PendingImport}, None)

  lemma OneUpload()
    ensures Run(EMPTY, [UPLOAD]) == State(map["p" := UPLOADED], multiset{"p"}, multiset{}, None)
  {
    RunOneMore(EMPTY, [], UPLOAD);
    assert [] + [UPLOAD] == [UPLOAD];
    assert {} + {PendingImport} == {PendingImport};
  }

  lemma OneCapture()
    ensures Run(EMPTY, [UPLOAD, StartQueued("p", true)]) ==
              State(map["p" := UPLOADED], multiset{}, multiset{}, Some(Capture("p", "r")))
  {
    OneUpload();
    RunOneMore(EMPTY, [UPLOAD], StartQueued("p", true));
    assert [UPLOAD] + [StartQueued("p", true)] == [UPLOAD, StartQueued("p", true)];
    hide Run;
    assert map["p" := UPLOADED]["p" := UPLOADED] == map["p" := UPLOADED];
  }

  function ImportedProblem(ok: bool): Problem {
    Problem("r", Some("r"), if ok then {} else {Ignore}, Some(ImportResult("r", ok)))
  }

  lemma OneCommit(ok: bool)
    ensures Committed(State(map["p" := UPLOADED], multiset{}, multiset{}, Some(Capture("p", "r"))), ok) ==
              State(map["p" := ImportedProblem(ok)], multiset{}, multiset{}, None)
  {
    assert {PendingImport} - {Ignore} - {PendingImport} == {};
    assert {PendingImport} + {Ignore} - {PendingImport} == {Ignore};
    assert map["p" := UPLOADED]["p" := ImportedProblem(ok)] == map["p" := ImportedProblem(ok)];
  }

  /** An archive with one problem, uploaded and imported, well or not. */
  lemma OneImport(ok: bool)
    ensures Run(EMPTY, [UPLOAD, StartQueued("p", true), Commit(ok)]) ==
              State(map["p" := ImportedProblem(ok)], multiset{}, multiset{}, None)
  {
    var events := [UPLOAD, StartQueued("p", true)];
    OneCapture();
    RunOneMore(EMPTY, events, Commit(ok));
    assert events + [Commit(ok)] == [UPLOAD, StartQueued("p", true), Commit(ok)];
    hide Run, Committed;
    OneCommit(ok);
  }

  /** From the empty archive: a problem is imported, marked by hand, and then waits for an import
      that nobody will run. */
  lemma SetFlagsCanStrandAProblem()
    ensures var s := Run(EMPTY, [UPLOAD, StartQueued("p", true), Commit(true),
                                 SetFlags("p", {PendingImport})]);
            s.Has("p", PendingImport) && Work(s) == 0
  {
    OneImport(true);
    var events := [UPLOAD, StartQueued("p", true), Commit(true)];
    var e := SetFlags("p", {PendingImport});
    RunOneMore(EMPTY, events, e);
    hide Run;
    assert events + [e] == [UPLOAD, StartQueued("p", true), Commit(true), e];
  }

  /** `upload` is documented to reset the flags, and keeps them. An accepted upload leaves nothing but
      the mark of its import exactly when the problem is new or had no other flag. */
  lemma UploadFlagsExactly(s: State, id: Id, data: Revision)
    requires !s.IsLocked(id)
    ensures var s' := Step(s, Upload(id, data, true));
            s'.problems[id].flags == {PendingImport} <==>
              id !in s.problems || s.problems[id].flags <= {PendingImport}
  {
    var flags := if id in s.problems then s.problems[id].flags else {};
    assert flags <= {PendingImport} ==> flags + {PendingImport} == {PendingImport};
    assert flags <= flags + {PendingImport};
  }

  /** From the empty archive: a flag set between two uploads survives the second. */
  lemma UploadKeepsFlags(flag: Flag)
    requires flag.Custom?
    ensures var s := Run(EMPTY, [UPLOAD, SetFlags("p", {flag}), Upload("p", "new", true)]);
            "p" in s.problems && s.problems["p"] == Problem("new", Some("new"), {PendingImport, flag}, None)
  {
    var edit, again := SetFlags("p", {flag}), Upload("p", "new", true);
    OneUpload();
    RunOneMore(EMPTY, [UPLOAD], edit);
    assert [UPLOAD] + [edit] == [UPLOAD, edit];
    RunOneMore(EMPTY, [UPLOAD, edit], again);
    assert [UPLOAD, edit] + [again] == [UPLOAD, edit, again];
    hide Run;
    assert {PendingImport} + {flag} == {PendingImport, flag};
    assert {PendingImport, flag} + {PendingImport} == {PendingImport, flag};
  }

  /** From the empty archive: an upload whose data cannot be unpacked waits until a restart. */
  lemma FailedUnpackStrandsAProblem()
    ensures var s := Run(EMPTY, [UPLOAD, StartQueued("p", false)]);
            s.Has("p", PendingImport) && Work(s) == 0 && Inv(Step(s, Restart))
  {
    OneUpload();
    RunOneMore(EMPTY, [UPLOAD], StartQueued("p", false));
    assert [UPLOAD] + [StartQueued("p", false)] == [UPLOAD, StartQueued("p", false)];
    hide Run;
    RestartRestores(Step(State(map["p" := UPLOADED], multiset{"p"}, multiset{}, None), StartQueued("p", false)));
  }

  lemma OneDamage()
    ensures var s := State(map["p" := UPLOADED], multiset{}, multiset{}, Some(Capture("p", "r")));
            Step(Step(s, Damage("p")), Commit(true)) ==
              State(map["p" := UPLOADED.(revision := None)], multiset{}, multiset{}, None)
  {
    assert map["p" := UPLOADED]["p" := UPLOADED.(revision := None)] == map["p" := UPLOADED.(revision := None)];
  }

  /** From the empty archive: damage during an import leaves the problem waiting until a restart. */
  lemma DamageStrandsAProblem()
    ensures var s := Run(EMPTY, [UPLOAD, StartQueued("p", true), Damage("p"), Commit(true)]);
            s.Has("p", PendingImport) && Work(s) == 0 && Inv(Step(s, Restart))
  {
    var events := [UPLOAD, StartQueued("p", true)];
    OneCapture();
    OneDamage();
    RunOneMore(EMPTY, events, Damage("p"));
    RunOneMore(EMPTY, events + [Damage("p")], Commit(true));
    assert events + [Damage("p")] + [Commit(true)] == [UPLOAD, StartQueued("p", true), Damage("p"), Commit(true)];
    RestartRestores(State(map["p" := UPLOADED.(revision := None)], multiset{}, multiset{}, None));
    hide Run, Step, Inv;
  }

  /** Single-flag `unset_flag`, which no service call reaches: the test in it is the opposite of the
      comment above it, so IGNORE is the one flag it removes. */
  function UnsetFlag(s: State, id: Id, flag: Flag): State {
    if s.Editable(id) && flag == Ignore then s.WithFlags(id, s.problems[id].flags - {flag}) else s
  }

  /** It keeps the promise exactly when it does not take IGNORE from a failed problem. */
  lemma UnsetFlagExactly(s: State, id: Id, flag: Flag)
    requires Inv(s)
    ensures Inv(UnsetFlag(s, id, flag)) <==>
              !(flag == Ignore && s.Editable(id) && !s.Has(id, PendingImport) &&
                s.problems[id].result == Some(ImportResult(s.problems[id].data, false)))
    ensures flag != Ignore ==> UnsetFlag(s, id, flag) == s
  {
    var s' := UnsetFlag(s, id, flag);
    assert InvAt(s, id);
    assert InvAt(s', id) <==>
      !(flag == Ignore && s.Editable(id) && !s.Has(id, PendingImport) &&
        s.problems[id].result == Some(ImportResult(s.problems[id].data, false)));
    forall i | i != id
      ensures InvAt(s', i)
    {
      assert InvAt(s, i);
    }
  }

  /** From the empty archive: taking IGNORE from a problem whose import failed breaks it. */
  lemma UnsetFlagCanUnignoreAFailure()
    ensures var s := Run(EMPTY, [UPLOAD, StartQueued("p", true), Commit(false)]);
            Inv(s) && !Inv(UnsetFlag(s, "p", Ignore))
  {
    OneImport(false);
    var s := State(map["p" := ImportedProblem(false)], multiset{}, multiset{}, None);
    RestartRestores(s);
    assert Step(s, Restart) == s.(scheduling := multiset(Pending(s))) && Pending(s) == {};
    hide Run;
    UnsetFlagExactly(Run(EMPTY, [UPLOAD, StartQueued("p", true), Commit(false)]), "p", Ignore);
  }

  // ----- the repository -------------------------------------------------------------------

  datatype Reply =
    | Status(revision: Revision, flags: set<Flag>)
    | UnreadableRevision
    | NotFound
    | InvalidFormat
    | LockedProblem
    | ReadOnlyProblem

  /** `status_result_`. */
  function StatusOf(s: State, id: Id): Reply {
    if id !in s.problems then NotFound
    else if s.problems[id].revision.None? then UnreadableRevision
    else Status(s.problems[id].revision.value, s.problems[id].flags)
  }

  /** The reply of the three operations that edit flags. */
  function EditReply(before: State, after: State, id: Id): Reply {
    if id !in before.problems then NotFound
    else if before.Has(id, ReadOnly) then ReadOnlyProblem
    else StatusOf(after, id)
  }

  datatype ResultReply = NoProblem | StillPending | Result(result: ImportResult) | Missing

  /** `import_result`. */
  function ImportResultOf(s: State, id: Id): ResultReply {
    if id !in s.problems then NoProblem
    else if s.Has(id, PendingImport) then StillPending
    else if s.problems[id].result.Some? then Result(s.problems[id].result.value)
    else Missing
  }

  /** In every reachable state, asking for a result answers with one produced from the current
      data, or says that an import is still on its way; the result file is never missing. */
  lemma ResultsAreCurrent(s: State, id: Id)
    requires Inv(s)
    ensures match ImportResultOf(s, id)
            case NoProblem => id !in s.problems
            case StillPending => OnItsWay(s, id)
            case Result(r) => r.revision == s.problems[id].data && (!r.ok ==> s.Has(id, Ignore))
            case Missing => false
  {
    assert InvAt(s, id);
  }

  lemma StartIs(s: State, id: Id, posted: bool, unpacks: bool)
    requires s.inFlight.None? && (posted ==> id in s.queue)
    ensures var queue := if posted then s.queue - multiset{id} else s.queue;
            Step(s, if posted then StartQueued(id, unpacks) else StartDirect(id, unpacks)) ==
              if id !in s.problems then s.(queue := queue)
              else
                var p := s.problems[id];
                var revision := if p.revision.Some? then p.revision.value else p.data;
                s.(queue := queue, problems := s.problems[id := p.(revision := Some(revision))],
                   inFlight := if unpacks then Some(Capture(id, revision)) else None)
  {
  }

  /** An operation has edited the flags of a problem, and nothing else. */
  predicate FlagsOnly(before: map<Id, Problem>, after: map<Id, Problem>, id: Id) {
    id in before && id in after && after == before[id := before[id].(flags := after[id].flags)]
  }

  /** The reply that shows the revision and the flags a problem now has. */
  predicate Shows(reply: Reply, p: Problem) {
    if p.revision.None? then reply == UnreadableRevision else reply == Status(p.revision.value, p.flags)
  }

  /** The problem storage and the job queue; each method is one critical section. */
  class Repository {
    var problems: map<Id, Problem>
    var queue: multiset<Id>
    var scheduling: multiset<Id>
    var inFlight: Option<Capture>

    function View(): State
      reads this
    {
      State(problems, queue, scheduling, inFlight)
    }

    ghost predicate Valid()
      reads this
    {
      Inv(View())
    }

    /** Opening the repository: whatever is on disk, the pending problems are scheduled again. */
    constructor (onDisk: map<Id, Problem>)
      ensures problems == onDisk && View() == Step(State(onDisk, multiset{}, multiset{}, None), Restart)
      ensures (forall id :: id in onDisk ==> OnDisk(onDisk[id])) ==> Valid()
    {
      problems := onDisk;
      queue, inFlight := multiset{}, None;
      scheduling := multiset{};
      new;
      ghost var empty := State(onDisk, multiset{}, multiset{}, None);
      SchedulePending();
      if forall id :: id in onDisk ==> OnDisk(onDisk[id]) {
        RestartRestores(empty);
      }
    }

    /** `schedule_import_all_pending`, up to the posting: a scan for the flag. */
    method SchedulePending()
      requires scheduling == multiset{}
      modifies this
      ensures View() == old(View()).(scheduling := multiset(Pending(old(View()))))
    {
      var todo := problems.Keys;
      var pending: set<Id> := {};
      while todo != {}
        invariant todo <= problems.Keys && View() == old(View())
        invariant pending == Pending(old(View())) - todo
      {
        var id :| id in todo;
        if PendingImport in problems[id].flags {
          pending := pending + {id};
        }
        todo := todo - {id};
      }
      assert pending == Pending(old(View()));
      scheduling := multiset(pending);
    }

    method Upload(id: Id, data: Revision, wellFormed: bool) returns (reply: Reply)
      modifies this
      ensures View() == Step(old(View()), Event.Upload(id, data, wellFormed))
      ensures reply ==
                if !wellFormed then InvalidFormat
                else if old(View()).IsLocked(id) then LockedProblem
                else StatusOf(View(), id)
      ensures var locked := id in old(problems) &&
                  (Locked in old(problems)[id].flags || ReadOnly in old(problems)[id].flags);
              if !wellFormed then reply == InvalidFormat && unchanged(this)
              else if locked then reply == LockedProblem && unchanged(this)
              else id in problems && reply == Status(data, problems[id].flags) && PendingImport in reply.flags
    {
      if !wellFormed {
        return InvalidFormat;
      }
      if View().IsLocked(id) {
        return LockedProblem;
      }
      // an existing problem keeps its flags; data, revision and result are replaced
      var flags := if id in problems then problems[id].flags else {};
      problems := problems[id := Problem(data, Some(data), flags + {PendingImport}, None)];
      queue := queue + multiset{id};
      reply := StatusOf(View(), id);
    }

    /** `prepare_import`. */
    method PrepareImport(id: Id) returns (schedule: bool)
      modifies this
      ensures View() == Step(old(View()), Prepare(id))
      ensures schedule <==> id in old(problems)
      ensures if !schedule then unchanged(this)
              else
                FlagsOnly(old(problems), problems, id) && scheduling == old(scheduling) + multiset{id} &&
                forall flag :: flag in problems[id].flags <==>
                  flag in old(problems)[id].flags || flag == PendingImport
    {
      schedule := id in problems;
      if schedule {
        problems := problems[id := problems[id].(flags := problems[id].flags + {PendingImport})];
        scheduling := scheduling + multiset{id};
      }
    }

    /** `post_import`, after the lock is released. */
    method PostImport(id: Id)
      requires id in scheduling
      modifies this
      ensures View() == Step(old(View()), Post(id))
    {
      scheduling := scheduling - multiset{id};
      queue := queue + multiset{id};
    }

    /** The first critical section of `import`, by a posted handler or by a direct call;
        `unpacks` says whether the data could be unpacked. */
    method StartImport(id: Id, posted: bool, unpacks: bool) returns (found: bool)
      requires inFlight.None? && (posted ==> id in queue)
      modifies this
      ensures View() == Step(old(View()), if posted then StartQueued(id, unpacks) else StartDirect(id, unpacks))
      ensures found <==> id in old(problems)
      ensures queue == old(queue) - if posted then multiset{id} else multiset{}
      ensures found && unpacks ==>
                id in problems && problems[id].revision.Some? &&
                inFlight == Some(Capture(id, problems[id].revision.value))
      ensures found ==>
                var was := old(problems)[id];
                problems == old(problems)[id := was.(revision :=
                  Some(if was.revision.Some? then was.revision.value else was.data))]
      ensures !unpacks ==> inFlight.None?
    {
      StartIs(View(), id, posted, unpacks);
      hide Step, Captured;
      if posted {
        queue := queue - multiset{id};
      }
      found := id in problems;
      if found {
        var p := problems[id];
        var revision;
        if p.revision.Some? {
          revision := p.revision.value;
          assert problems[id := p.(revision := Some(revision))] == problems;
        } else {
          revision := p.data;
          problems := problems[id := p.(revision := Some(revision))];
        }
        if unpacks {
          inFlight := Some(Capture(id, revision));
        }
      }
    }

    /** The second critical section: `ok` says whether the conversion threw. */
    method CommitImport(ok: bool) returns (committed: bool)
      requires inFlight.Some?
      modifies this
      ensures View() == Step(old(View()), Commit(ok))
      ensures committed <==> var c := old(inFlight).value;
                c.id in old(problems) && old(problems)[c.id].revision == Some(c.revision)
      ensures inFlight.None? && (!committed ==> problems == old(problems))
      ensures committed ==>
                var c := old(inFlight).value;
                c.id in problems && problems.Keys == old(problems).Keys &&
                problems[c.id].data == old(problems)[c.id].data &&
                problems[c.id].result == Some(ImportResult(c.revision, ok)) &&
                forall flag :: flag in problems[c.id].flags <==>
                  (flag == Ignore && !ok) ||
                  (flag in old(problems)[c.id].flags && flag != Ignore && flag != PendingImport)
    {
      var c := inFlight.value;
      inFlight := None;
      if c.id !in problems {
        return false;
      }
      if problems[c.id].revision != Some(c.revision) {
        return false;
      }
      var p := problems[c.id];
      p := p.(result := Some(ImportResult(c.revision, ok)));
      if ok {
        p := p.(flags := p.flags - {Ignore});
      } else {
        p := p.(flags := p.flags + {Ignore});
      }
      p := p.(flags := p.flags - {PendingImport});
      problems := problems[c.id := p];
      committed := true;
    }

    method SetFlags(id: Id, flags: set<Flag>) returns (reply: Reply)
      modifies this
      ensures View() == Step(old(View()), Event.SetFlags(id, flags))
      ensures reply == EditReply(old(View()), View(), id)
      ensures if id !in old(problems) then reply == NotFound && unchanged(this)
              else if ReadOnly in old(problems)[id].flags then reply == ReadOnlyProblem && unchanged(this)
              else
                FlagsOnly(old(problems), problems, id) && Shows(reply, problems[id]) &&
                forall flag :: flag in problems[id].flags <==>
                  flag in old(problems)[id].flags || flag in flags
    {
      if id !in problems {
        return NotFound;
      }
      if ReadOnly in problems[id].flags {
        return ReadOnlyProblem;
      }
      var p, todo := problems[id], flags;
      while todo != {}
        invariant todo <= flags && p == problems[id].(flags := problems[id].flags + (flags - todo))
      {
        var flag :| flag in todo;
        p := p.(flags := p.flags + {flag});
        todo := todo - {flag};
      }
      assert flags - {} == flags;
      problems := problems[id := p];
      reply := StatusOf(View(), id);
    }

    method UnsetFlags(id: Id, flags: set<Flag>) returns (reply: Reply)
      modifies this
      ensures View() == Step(old(View()), Event.UnsetFlags(id, flags))
      ensures reply == EditReply(old(View()), View(), id)
      ensures if id !in old(problems) then reply == NotFound && unchanged(this)
              else if ReadOnly in old(problems)[id].flags then reply == ReadOnlyProblem && unchanged(this)
              else
                FlagsOnly(old(problems), problems, id) && Shows(reply, problems[id]) &&
                forall flag :: flag in problems[id].flags <==>
                  flag in old(problems)[id].flags && (flag !in flags || flag == Ignore || flag == PendingImport)
    {
      if id !in problems {
        return NotFound;
      }
      if ReadOnly in problems[id].flags {
        return ReadOnlyProblem;
      }
      var p, todo := problems[id], flags;
      while todo != {}
        invariant todo <= flags
        invariant p == problems[id].(flags := problems[id].flags - ((flags - todo) - KEPT))
      {
        var flag :| flag in todo;
        if flag != Ignore && flag != PendingImport {
          p := p.(flags := p.flags - {flag});
        }
        todo := todo - {flag};
      }
      assert flags - {} == flags;
      problems := problems[id := p];
      reply := StatusOf(View(), id);
    }

    method ClearFlags(id: Id) returns (reply: Reply)
      modifies this
      ensures View() == Step(old(View()), Event.ClearFlags(id))
      ensures reply == EditReply(old(View()), View(), id)
      ensures if id !in old(problems) then reply == NotFound && unchanged(this)
              else if ReadOnly in old(problems)[id].flags then reply == ReadOnlyProblem && unchanged(this)
              else
                FlagsOnly(old(problems), problems, id) && Shows(reply, problems[id]) &&
                forall flag :: flag in problems[id].flags <==>
                  flag in old(problems)[id].flags && (flag == Ignore || flag == PendingImport)
    {
      if id !in problems {
        return NotFound;
      }
      if ReadOnly in problems[id].flags {
        return ReadOnlyProblem;
      }
      var p, todo := problems[id], problems[id].flags;
      while todo != {}
        invariant todo <= problems[id].flags
        invariant p == problems[id].(flags := problems[id].flags - ((problems[id].flags - todo) - KEPT))
      {
        var flag :| flag in todo;
        if flag != Ignore && flag != PendingImport {
          p := p.(flags := p.flags - {flag});
        }
        todo := todo - {flag};
      }
      assert p.flags == problems[id].flags * KEPT;
      problems := problems[id := p];
      reply := StatusOf(View(), id);
    }

    method ReadImportResult(id: Id) returns (reply: ResultReply)
      ensures reply == ImportResultOf(View(), id)
      ensures if id !in problems then reply == NoProblem
              else if PendingImport in problems[id].flags then reply == StillPending
              else if problems[id].result.None? then reply == Missing
              else reply == Result(problems[id].result.value)
      ensures Valid() ==> !reply.Missing?
    {
      reply := ImportResultOf(View(), id);
      if Valid() {
        ResultsAreCurrent(View(), id);
      }
    }
  }
}
