/** The pool that shares the requests of one channel among its workers. Each event is one
    atomic action of a goroutine; every interleaving of them is a run. */
module WorkerPool {
  /** Where a worker's goroutine is in its loop. */
  datatype Phase = Waiting | AtOuter | AtInner | Doing(request: nat) | Leaving | Finished

  /** Where the call of `DoAll` is. */
  datatype Caller = NotCalled | AwaitFirst | AwaitAll | Returned

  /** Requests are numbered in the order they are sent. `owner` gives the worker of every
      request received so far, and `late` how many each worker received after `Cancel`. The lock
      around the channel is `jammed` once a second `DoAll` has panicked holding it. */
  datatype State = State(
    adding: nat, signalling: nat, phases: seq<Phase>, group: int, firstWorker: bool,
    owner: seq<nat>, finished: set<nat>, late: seq<nat>,
    pending: nat, closed: bool, cancelled: bool, caller: Caller, jammed: bool)

  const EMPTY := State(0, 0, [], 0, false, [], {}, [], 0, false, false, NotCalled, false)

  datatype Event =
    // the producer
    | Send
    | CloseChannel
    // callers of the pool; `Add` checks, then starts a goroutine, then signals
    | Add
    | StartWorker
    | SignalFirst
    | Cancel
    | DoAll
    | DoAllAgain
    | FirstReady
    | AllDone
    // worker `w`
    | Wake(w: nat)
    | Outer(w: nat)
    | Take(w: nat)
    | SeeClosed(w: nat)
    | SeeCancel(w: nat)
    | EndDo(w: nat)
    | Leave(w: nat)

  predicate At(s: State, w: nat, phase: Phase) {
    w < |s.phases| && s.phases[w] == phase
  }

  /** Whether an event can happen. `Add` after `Cancel` and a second `Cancel` panic in the source
      and change nothing, and so do sending on and closing a closed channel. */
  predicate Enabled(s: State, e: Event) {
    match e
    case Send => !s.closed
    case CloseChannel => !s.closed
    case Add => !s.cancelled
    case StartWorker => s.adding > 0
    case SignalFirst => s.signalling > 0
    case Cancel => !s.cancelled
    case DoAll => s.caller == NotCalled
    case DoAllAgain => s.caller != NotCalled && !s.jammed
    case FirstReady => s.caller == AwaitFirst && s.firstWorker
    case AllDone => s.caller == AwaitAll && s.group == 0
    case Wake(w) => At(s, w, Waiting) && s.caller != NotCalled && !s.jammed
    case Outer(w) => At(s, w, AtOuter)
    case Take(w) => At(s, w, AtInner) && s.pending > 0
    case SeeClosed(w) => At(s, w, AtInner) && s.pending == 0 && s.closed
    case SeeCancel(w) => At(s, w, AtInner) && s.cancelled
    case EndDo(w) => w < |s.phases| && s.phases[w].Doing?
    case Leave(w) => At(s, w, Leaving)
  }

  function Move(s: State, w: nat, phase: Phase): State {
    if w < |s.phases| then s.(phases := s.phases[w := phase]) else s
  }

  function Step(s: State, e: Event): State {
    if !Enabled(s, e) then s
    else
      match e
      case Send => s.(pending := s.pending + 1)
      case CloseChannel => s.(closed := true)
      case Add => s.(adding := s.adding + 1)
      case StartWorker =>
        s.(adding := s.adding - 1, signalling := s.signalling + 1,
           phases := s.phases + [Waiting], late := s.late + [0], group := s.group + 1)
      case SignalFirst => s.(signalling := s.signalling - 1, firstWorker := true)
      case Cancel => s.(cancelled := true, firstWorker := true)
      case DoAll => s.(caller := AwaitFirst)
      case DoAllAgain => s.(jammed := true)
      case FirstReady => s.(caller := AwaitAll)
      case AllDone => s.(caller := Returned)
      case Wake(w) => Move(s, w, AtOuter)
      case Outer(w) => Move(s, w, if s.cancelled then Leaving else AtInner)
      case Take(w) =>
        Move(s, w, Doing(|s.owner|)).(
          owner := s.owner + [w], pending := s.pending - 1,
          late := if s.cancelled && w < |s.late| then s.late[w := s.late[w] + 1] else s.late)
      case SeeClosed(w) => Move(s, w, Leaving)
      case SeeCancel(w) => Move(s, w, Leaving)
      case EndDo(w) => Move(s, w, AtOuter).(finished := s.finished + {s.phases[w].request})
      case Leave(w) => Move(s, w, Finished).(group := s.group - 1)
  }

  function Run(events: seq<Event>): State {
    if events == [] then EMPTY else Step(Run(events[..|events| - 1]), events[|events| - 1])
  }

  // ----- sums over the workers ------------------------------------------------------------

  function Sum(weight: Phase -> nat, phases: seq<Phase>): nat {
    if phases == [] then 0 else Sum(weight, phases[..|phases| - 1]) + weight(phases[|phases| - 1])
  }

  lemma {:induction false} SumUpdate(weight: Phase -> nat, phases: seq<Phase>, w: nat, phase: Phase)
    requires w < |phases|
    ensures Sum(weight, phases[w := phase]) + weight(phases[w]) == Sum(weight, phases) + weight(phase)
  {
    var init := phases[..|phases| - 1];
    if w == |init| {
      assert phases[w := phase][..|init|] == init;
    } else {
      SumUpdate(weight, init, w, phase);
      assert phases[w := phase][..|init|] == init[w := phase];
    }
  }

  lemma SumAppend(weight: Phase -> nat, phases: seq<Phase>, phase: Phase)
    ensures Sum(weight, phases + [phase]) == Sum(weight, phases) + weight(phase)
  {
    assert (phases + [phase])[..|phases|] == phases;
  }

  lemma {:induction false} SumZero(weight: Phase -> nat, phases: seq<Phase>)
    ensures Sum(weight, phases) == 0 <==> forall w :: 0 <= w < |phases| ==> weight(phases[w]) == 0
  {
    if phases != [] {
      SumZero(weight, phases[..|phases| - 1]);
    }
  }

  function Counted(phase: Phase): nat {
    if phase == Finished then 0 else 1
  }

  /** How many steps a worker may still take until it finishes or waits. */
  function Weight(phase: Phase): nat {
    match phase
    case Waiting => 5
    case AtOuter => 4
    case AtInner => 3
    case Doing(_) => 5
    case Leaving => 1
    case Finished => 0
  }

  // ----- what every run keeps -------------------------------------------------------------

  /** No request is waiting, and none will be sent. */
  predicate Drained(s: State) {
    s.closed && s.pending == 0
  }

  /** Every request received belongs to one worker for good: that worker is doing it or has
      finished it, and no other worker does it. */
  ghost predicate Owned(s: State) {
    (forall w :: 0 <= w < |s.phases| ==> DoesItsOwn(s, w)) &&
    (forall i :: 0 <= i < |s.owner| ==> IsCaredFor(s, i)) &&
    (forall i :: i in s.finished ==> i < |s.owner|)
  }

  ghost predicate DoesItsOwn(s: State, w: nat)
    requires w < |s.phases|
  {
    s.phases[w].Doing? ==>
      var i := s.phases[w].request; i < |s.owner| && s.owner[i] == w && i !in s.finished
  }

  ghost predicate IsCaredFor(s: State, i: nat)
    requires i < |s.owner|
  {
    i in s.finished || At(s, s.owner[i], Doing(i))
  }

  ghost predicate LateAt(s: State, w: nat)
    requires w < |s.phases| == |s.late|
  {
    s.late[w] <= 1 && (s.late[w] == 1 ==> s.cancelled && s.phases[w] != AtInner && s.phases[w] != Waiting)
  }

  /** A worker gives up only for a reason. */
  ghost predicate Reasoned(s: State) {
    forall w :: 0 <= w < |s.phases| ==> ReasonedAt(s, w)
  }

  ghost predicate ReasonedAt(s: State, w: nat)
    requires w < |s.phases|
  {
    (s.phases[w] == Leaving || s.phases[w] == Finished ==> s.cancelled || Drained(s)) &&
    (s.caller == NotCalled ==> s.phases[w] == Waiting)
  }

  /** `DoAll` gets past the first worker when there is one, or after `Cancel`. */
  ghost predicate Signalled(s: State) {
    (s.signalling > 0 ==> |s.phases| > 0) && (s.firstWorker ==> s.cancelled || |s.phases| > 0) &&
    (s.cancelled || (|s.phases| > 0 && s.signalling == 0) ==> s.firstWorker) &&
    (s.caller == AwaitAll || s.caller == Returned ==> s.firstWorker)
  }

  ghost predicate Late(s: State) {
    |s.late| == |s.phases| && forall w :: 0 <= w < |s.phases| ==> LateAt(s, w)
  }

  ghost predicate Inv(s: State) {
    s.group == Sum(Counted, s.phases) && Owned(s) && Late(s) && Reasoned(s) && Signalled(s) &&
    (s.caller == Returned ==> Quiet(s))
  }

  /** No request is being done, and none will be started. */
  ghost predicate Quiet(s: State) {
    (s.cancelled || Drained(s)) && forall w :: 0 <= w < |s.phases| ==> QuietAt(s, w)
  }

  ghost predicate QuietAt(s: State, w: nat)
    requires w < |s.phases|
  {
    !s.phases[w].Doing? && (s.phases[w] == AtInner ==> Drained(s))
  }

  predicate IsWorkerEvent(e: Event) {
    e.Wake? || e.Outer? || e.Take? || e.SeeClosed? || e.SeeCancel? || e.EndDo? || e.Leave?
  }

  /** A worker's event moves that worker only. The wait group follows, and there is less to do. */
  lemma WorkerMoves(s: State, e: Event)
    requires IsWorkerEvent(e) && Enabled(s, e)
    ensures var s', w := Step(s, e), e.w;
            w < |s.phases| == |s'.phases| && s'.phases == s.phases[w := s'.phases[w]] &&
            s'.group - Counted(s'.phases[w]) == s.group - Counted(s.phases[w]) &&
            Weight(s'.phases[w]) + 3 * s'.pending < Weight(s.phases[w]) + 3 * s.pending &&
            s'.adding == s.adding && s'.signalling == s.signalling && s'.caller == s.caller
  {
  }

  /** Any other event moves no worker; one of them adds a worker. */
  lemma OthersStay(s: State, e: Event)
    requires !IsWorkerEvent(e) || !Enabled(s, e)
    ensures var s' := Step(s, e);
            if e == StartWorker && Enabled(s, e) then s'.phases == s.phases + [Waiting] && s'.group == s.group + 1
            else s'.phases == s.phases && s'.group == s.group
    ensures Step(s, e).owner == s.owner && Step(s, e).finished == s.finished
  {
  }

  lemma StepKeepsGroup(s: State, e: Event)
    requires s.group == Sum(Counted, s.phases)
    ensures Step(s, e).group == Sum(Counted, Step(s, e).phases)
  {
    hide Step, Enabled, Weight, Sum;
    if IsWorkerEvent(e) && Enabled(s, e) {
      WorkerMoves(s, e);
      SumUpdate(Counted, s.phases, e.w, Step(s, e).phases[e.w]);
    } else {
      OthersStay(s, e);
      SumAppend(Counted, s.phases, Waiting);
    }
  }

  /** A worker gets a request by taking one, and gives it up by finishing it. */
  lemma WorkerOwns(s: State, e: Event)
    requires IsWorkerEvent(e) && Enabled(s, e)
    ensures var s' := Step(s, e);
            s'.phases[e.w].Doing? == e.Take? && (e.Take? ==> s'.phases[e.w].request == |s.owner|) &&
            s.phases[e.w].Doing? == e.EndDo? &&
            s'.owner == (if e.Take? then s.owner + [e.w] else s.owner) &&
            s'.finished == if e.EndDo? then s.finished + {s.phases[e.w].request} else s.finished
  {
  }

  lemma StepKeepsItsOwn(s: State, e: Event, w: nat)
    requires Owned(s) && w < |Step(s, e).phases|
    ensures DoesItsOwn(Step(s, e), w)
  {
    hide Step, Enabled, Weight, Counted;
    assert w < |s.phases| ==> DoesItsOwn(s, w);
    if IsWorkerEvent(e) && Enabled(s, e) {
      WorkerMoves(s, e);
      WorkerOwns(s, e);
      assert DoesItsOwn(s, e.w);
    } else {
      OthersStay(s, e);
    }
  }

  lemma StepKeepsCaring(s: State, e: Event, i: nat)
    requires Owned(s) && i < |Step(s, e).owner|
    ensures IsCaredFor(Step(s, e), i)
  {
    hide Step, Enabled, Weight, Counted;
    assert i < |s.owner| ==> IsCaredFor(s, i);
    if IsWorkerEvent(e) && Enabled(s, e) {
      WorkerMoves(s, e);
      WorkerOwns(s, e);
    } else {
      OthersStay(s, e);
    }
  }

  lemma StepKeepsOwned(s: State, e: Event)
    requires Owned(s)
    ensures Owned(Step(s, e))
  {
    forall i | i in Step(s, e).finished
      ensures i < |Step(s, e).owner|
    {
      assert Enabled(s, e) && e.EndDo? ==> DoesItsOwn(s, e.w);
    }
    hide Step, Owned, DoesItsOwn, IsCaredFor;
    forall w | 0 <= w < |Step(s, e).phases|
      ensures DoesItsOwn(Step(s, e), w)
    {
      StepKeepsItsOwn(s, e, w);
    }
    forall i | 0 <= i < |Step(s, e).owner|
      ensures IsCaredFor(Step(s, e), i)
    {
      StepKeepsCaring(s, e, i);
    }
    OwnedFrom(Step(s, e));
  }

  lemma OwnedFrom(s: State)
    requires forall w :: 0 <= w < |s.phases| ==> DoesItsOwn(s, w)
    requires forall i :: 0 <= i < |s.owner| ==> IsCaredFor(s, i)
    requires forall i :: i in s.finished ==> i < |s.owner|
    ensures Owned(s)
  {
  }

  lemma StepKeepsLate(s: State, e: Event)
    requires Late(s)
    ensures Late(Step(s, e))
  {
    var s' := Step(s, e);
    forall w | 0 <= w < |s'.phases|
      ensures LateAt(s', w)
    {
      assert w < |s.phases| ==> LateAt(s, w);
    }
  }

  lemma StepKeepsReasonedAt(s: State, e: Event, w: nat)
    requires w < |Step(s, e).phases| && |s.phases| <= |Step(s, e).phases|
    requires w < |s.phases| ==> ReasonedAt(s, w)
    ensures ReasonedAt(Step(s, e), w)
  {
  }

  lemma StepKeepsReasoned(s: State, e: Event)
    requires Reasoned(s)
    ensures Reasoned(Step(s, e))
  {
    assert |s.phases| <= |Step(s, e).phases|;
    hide Step, ReasonedAt;
    forall w | 0 <= w < |Step(s, e).phases|
      ensures ReasonedAt(Step(s, e), w)
    {
      StepKeepsReasonedAt(s, e, w);
    }
  }

  lemma StepKeepsSignalled(s: State, e: Event)
    requires Signalled(s)
    ensures Signalled(Step(s, e))
  {
  }

  lemma StepKeepsQuietAt(s: State, e: Event, w: nat)
    requires w < |Step(s, e).phases| && |s.phases| <= |Step(s, e).phases|
    requires s.cancelled || Drained(s)
    requires w < |s.phases| ==> QuietAt(s, w)
    ensures QuietAt(Step(s, e), w)
  {
    if IsWorkerEvent(e) && Enabled(s, e) {
      WorkerMoves(s, e);
      WorkerOwns(s, e);
      assert e.w == w ==> QuietAt(s, w);
    } else {
      OthersStay(s, e);
    }
  }

  lemma StaysDrained(s: State, e: Event)
    requires s.cancelled || Drained(s)
    ensures Step(s, e).cancelled || Drained(Step(s, e))
    ensures |s.phases| <= |Step(s, e).phases|
  {
  }

  /** When the wait group is empty, every worker has finished, for a reason. */
  lemma GroupEmptied(s: State)
    requires Inv(s) && s.caller == AwaitAll && s.group == 0
    ensures Quiet(s)
  {
    SumZero(Counted, s.phases);
    hide Sum, Owned, Late;
    forall w | 0 <= w < |s.phases|
      ensures QuietAt(s, w)
    {
      assert Counted(s.phases[w]) == 0;
    }
    if |s.phases| > 0 {
      assert Counted(s.phases[0]) == 0 && ReasonedAt(s, 0);
    }
  }

  lemma StepKeepsQuiet(s: State, e: Event)
    requires Inv(s) && Step(s, e).caller == Returned
    ensures Quiet(Step(s, e))
  {
    if s.caller != Returned {
      assert e == AllDone && Enabled(s, e);
      GroupEmptied(s);
    }
    StaysDrained(s, e);
    hide Step, Inv, Signalled, Reasoned;
    forall w | 0 <= w < |Step(s, e).phases|
      ensures QuietAt(Step(s, e), w)
    {
      StepKeepsQuietAt(s, e, w);
    }
  }

  lemma StepKeepsInv(s: State, e: Event)
    requires Inv(s)
    ensures Inv(Step(s, e))
  {
    StepKeepsGroup(s, e);
    StepKeepsOwned(s, e);
    StepKeepsLate(s, e);
    StepKeepsReasoned(s, e);
    StepKeepsSignalled(s, e);
    if Step(s, e).caller == Returned {
      StepKeepsQuiet(s, e);
    }
    hide Sum, Owned, Late, Reasoned, Signalled, Quiet, Step;
  }

  /** Every run keeps the invariant. */
  lemma {:induction false} RunKeepsInv(events: seq<Event>)
    ensures Inv(Run(events))
  {
    if events != [] {
      RunKeepsInv(events[..|events| - 1]);
      StepKeepsInv(Run(events[..|events| - 1]), events[|events| - 1]);
    }
  }

  /** How many requests the producer has sent. */
  function Sent(events: seq<Event>): nat {
    if events == [] then 0
    else
      var before := events[..|events| - 1];
      Sent(before) + if events[|events| - 1] == Send && !Run(before).closed then 1 else 0
  }

  lemma SendCounts(s: State, e: Event)
    ensures |Step(s, e).owner| + Step(s, e).pending == |s.owner| + s.pending + if e == Send && !s.closed then 1 else 0
  {
  }

  lemma {:induction false} SentAreReceivedOrPending(events: seq<Event>)
    ensures Sent(events) == |Run(events).owner| + Run(events).pending
  {
    hide Step;
    if events != [] {
      SendCounts(Run(events[..|events| - 1]), events[|events| - 1]);
      SentAreReceivedOrPending(events[..|events| - 1]);
    }
  }

  /** In every run: each request sent is still in the channel or has been received by one worker,
      which is doing it or has finished it; no two workers do the same request and no finished
      request is done again; a worker receives at most one request after `Cancel`. */
  lemma EveryRunIsSafe(events: seq<Event>)
    ensures var s := Run(events);
            Sent(events) == |s.owner| + s.pending &&
            (forall i :: 0 <= i < |s.owner| ==> i in s.finished || At(s, s.owner[i], Doing(i))) &&
            (forall w: nat, i: nat :: At(s, w, Doing(i)) ==> i < |s.owner| && s.owner[i] == w && i !in s.finished) &&
            |s.late| == |s.phases| && (forall w :: 0 <= w < |s.late| ==> s.late[w] <= 1)
  {
    SentAreReceivedOrPending(events);
    RunKeepsInv(events);
    var s := Run(events);
    hide Run, Sent, Sum, Reasoned, Signalled, Quiet;
    assert Owned(s) && Late(s);
    forall w | 0 <= w < |s.late|
      ensures s.late[w] <= 1
    {
      assert LateAt(s, w);
    }
    forall i | 0 <= i < |s.owner|
      ensures i in s.finished || At(s, s.owner[i], Doing(i))
    {
      assert IsCaredFor(s, i);
    }
    forall w: nat, i: nat | At(s, w, Doing(i))
      ensures i < |s.owner| && s.owner[i] == w && i !in s.finished
    {
      assert DoesItsOwn(s, w);
    }
  }

  /** When `DoAll` has returned, every request received is finished. Without `Cancel` these are
      all requests ever sent. Whatever happens next, no request is started. */
  lemma DoAllFinishesRequests(events: seq<Event>, later: seq<Event>)
    requires Run(events).caller == Returned
    ensures var s := Run(events);
            (forall i :: 0 <= i < |s.owner| ==> i in s.finished) &&
            (!s.cancelled ==> s.closed && s.pending == 0)
    ensures Run(events + later).caller == Returned && Run(events + later).owner == Run(events).owner
    decreases |later|
  {
    hide Run, Step, Inv;
    if later == [] {
      RunKeepsInv(events);
      assert events + later == events;
      AllFinished(Run(events));
    } else {
      var init, e := later[..|later| - 1], later[|later| - 1];
      DoAllFinishesRequests(events, init);
      assert events + later == events + init + [e];
      RunOneMore(events + init, e);
      RunKeepsInv(events + init);
      NothingStarts(Run(events + init), e);
    }
  }

  lemma RunOneMore(events: seq<Event>, e: Event)
    ensures Run(events + [e]) == Step(Run(events), e)
  {
    assert (events + [e])[..|events|] == events;
  }

  lemma AllFinished(s: State)
    requires Inv(s) && s.caller == Returned
    ensures forall i :: 0 <= i < |s.owner| ==> i in s.finished
    ensures !s.cancelled ==> Drained(s)
  {
    hide Sum;
    forall i | 0 <= i < |s.owner|
      ensures i in s.finished
    {
      assert IsCaredFor(s, i);
      assert s.owner[i] < |s.phases| ==> QuietAt(s, s.owner[i]);
    }
  }

  lemma NothingStarts(s: State, e: Event)
    requires Inv(s) && s.caller == Returned
    ensures Step(s, e).caller == Returned && Step(s, e).owner == s.owner
  {
    hide Sum, Owned, Late, Reasoned, Signalled;
    assert e.Take? && e.w < |s.phases| ==> QuietAt(s, e.w);
  }

  /** A request once received stays with its worker. */
  lemma OwnersAreFinal(s: State, e: Event)
    ensures s.owner <= Step(s, e).owner && |Step(s, e).owner| <= |s.owner| + 1
    ensures s.finished <= Step(s, e).finished
  {
  }

  // ----- progress -------------------------------------------------------------------------

  /** What happens without the outside doing anything. */
  predicate Internal(s: State, e: Event) {
    Enabled(s, e) && !(e.Send? || e.CloseChannel? || e.Add? || e.Cancel? || e.DoAll? || e.DoAllAgain?)
  }

  function Work(s: State): nat {
    8 * s.adding + s.signalling + Sum(Weight, s.phases) + 3 * s.pending +
    match s.caller
    case NotCalled => 0
    case AwaitFirst => 2
    case AwaitAll => 1
    case Returned => 0
  }

  /** Where the pool comes to rest after `DoAll` was called. */
  ghost predicate Rests(s: State) {
    if s.cancelled || (s.closed && |s.phases| > 0) then
      s.caller == Returned || (s.jammed && exists w :: At(s, w, Waiting))
    else if |s.phases| > 0 && s.caller != Returned then
      forall w :: 0 <= w < |s.phases| ==>
        (s.phases[w] == AtInner && s.pending == 0) || (s.phases[w] == Waiting && s.jammed)
    else true
  }

  /** Left alone the pool comes to rest. Once the channel is closed or the pool cancelled, and
      there is a worker or it is cancelled, `DoAll` has returned by then; otherwise every worker
      is waiting for a request and no request is waiting for a worker. After a second `DoAll` a
      worker may wait for the channel instead. */
  lemma PoolComesToRest(s: State)
    requires Inv(s) && s.caller != NotCalled
    ensures forall e :: Internal(s, e) ==> Work(Step(s, e)) < Work(s) && Inv(Step(s, e))
    ensures (forall e :: !Internal(s, e)) ==> Rests(s)
  {
    forall e | Internal(s, e)
      ensures Work(Step(s, e)) < Work(s) && Inv(Step(s, e))
    {
      StepKeepsInv(s, e);
      InternalStepWorks(s, e);
    }
    if forall e :: !Internal(s, e) {
      AtRest(s);
    }
  }

  lemma InternalStepWorks(s: State, e: Event)
    requires Internal(s, e)
    ensures Work(Step(s, e)) < Work(s)
  {
    var s' := Step(s, e);
    if IsWorkerEvent(e) {
      WorkerMoves(s, e);
      hide Step, Enabled, Weight;
      SumUpdate(Weight, s.phases, e.w, s'.phases[e.w]);
    } else if e == StartWorker {
      SumAppend(Weight, s.phases, Waiting);
    }
  }

  /** A worker at rest has left, waits for the channel behind a jammed lock, or waits for requests. */
  lemma WorkerAtRest(s: State, w: nat)
    requires w < |s.phases| && ReasonedAt(s, w) && s.caller != NotCalled && forall e :: !Internal(s, e)
    ensures (s.phases[w] == Finished && (s.cancelled || s.closed)) || (s.phases[w] == Waiting && s.jammed) ||
            (s.phases[w] == AtInner && s.pending == 0 && !s.closed && !s.cancelled)
  {
    assert !Internal(s, Wake(w)) && !Internal(s, Outer(w)) && !Internal(s, Take(w)) && !Internal(s, SeeClosed(w));
    assert !Internal(s, SeeCancel(w)) && !Internal(s, EndDo(w)) && !Internal(s, Leave(w));
  }

  lemma AtRest(s: State)
    requires Inv(s) && s.caller != NotCalled && forall e :: !Internal(s, e)
    ensures Rests(s)
  {
    assert s.signalling == 0 by {
      assert !Internal(s, SignalFirst);
    }
    assert (s.caller == AwaitFirst ==> !s.firstWorker) && (s.caller == AwaitAll ==> s.group != 0) by {
      assert !Internal(s, FirstReady) && !Internal(s, AllDone);
    }
    forall w | 0 <= w < |s.phases|
      ensures (s.phases[w] == Finished && (s.cancelled || s.closed)) || (s.phases[w] == Waiting && s.jammed) ||
              (s.phases[w] == AtInner && s.pending == 0 && !s.closed && !s.cancelled)
    {
      WorkerAtRest(s, w);
    }
    SumZero(Counted, s.phases);
    hide Sum, Owned, Late, Reasoned, Quiet, Internal;
    if s.group != 0 {
      var w :| 0 <= w < |s.phases| && Counted(s.phases[w]) != 0;
      assert At(s, w, s.phases[w]);
    }
  }

  /** A second `DoAll` that panics while some worker still waits for the channel, even if the panic
      is recovered, keeps the first one from ever returning. */
  lemma {:induction false} JammedForGood(events: seq<Event>, later: seq<Event>, w: nat)
    requires var s := Run(events); s.jammed && s.caller != Returned && At(s, w, Waiting)
    ensures var s := Run(events + later); s.jammed && s.caller != Returned && At(s, w, Waiting)
    decreases |later|
  {
    if later == [] {
      assert events + later == events;
    } else {
      var init, e := later[..|later| - 1], later[|later| - 1];
      JammedForGood(events, init, w);
      assert events + later == events + init + [e];
      RunOneMore(events + init, e);
      RunKeepsInv(events + init);
      hide Run;
      JammedStep(Run(events + init), e, w);
    }
  }

  lemma JammedStep(s: State, e: Event, w: nat)
    requires Inv(s) && s.jammed && s.caller != Returned && At(s, w, Waiting)
    ensures var s' := Step(s, e); s'.jammed && s'.caller != Returned && At(s', w, Waiting)
  {
    SumZero(Counted, s.phases);
    assert Counted(s.phases[w]) == 1;
    hide Sum, Owned, Late, Reasoned, Signalled;
  }

  lemma TwoCalls(s: State)
    requires s.caller == NotCalled
    ensures Step(s, DoAll) == s.(caller := AwaitFirst)
    ensures Step(s.(caller := AwaitFirst), DoAllAgain) == s.(caller := AwaitFirst, jammed := true)
  {
  }

  /** Calling `DoAll` twice before any worker has asked for the channel does so whenever there is
      a worker. */
  lemma TwoCallsJam(events: seq<Event>, w: nat)
    requires Run(events).caller == NotCalled && w < |Run(events).phases|
    ensures var s := Run(events + [DoAll] + [DoAllAgain]);
            s.jammed && s.caller != Returned && At(s, w, Waiting)
  {
    RunKeepsInv(events);
    assert ReasonedAt(Run(events), w);
    RunOneMore(events, DoAll);
    RunOneMore(events + [DoAll], DoAllAgain);
    TwoCalls(Run(events));
    hide Run, Step, Inv;
  }

  /** From the empty pool: a pool with one worker whose first `DoAll` never returns. */
  lemma OneWorkerJams(later: seq<Event>)
    ensures Run([Add] + [StartWorker] + [DoAll] + [DoAllAgain] + later).caller != Returned
  {
    RunOneMore([], Add);
    RunOneMore([Add], StartWorker);
    assert [] + [Add] == [Add];
    hide Run;
    TwoCallsJam([Add] + [StartWorker], 0);
    JammedForGood([Add] + [StartWorker] + [DoAll] + [DoAllAgain], later, 0);
  }

  // ----- the pool itself ------------------------------------------------------------------

  lemma OneCountEach(events: seq<Event>)
    ensures |Run(events).late| == |Run(events).phases|
  {
    RunKeepsInv(events);
  }

  lemma TakeStep(s: State, w: nat)
    requires At(s, w, AtInner) && s.pending > 0 && |s.late| == |s.phases|
    ensures Step(s, Take(w)) ==
              s.(phases := s.phases[w := Doing(|s.owner|)], owner := s.owner + [w], pending := s.pending - 1,
                 late := if s.cancelled then s.late[w := s.late[w] + 1] else s.late)
  {
  }

  /** The events of other goroutines than `w`. */
  predicate OthersOnly(events: seq<Event>, w: nat) {
    forall e :: e in events ==> !(IsWorkerEvent(e) && e.w == w)
  }

  /** Worker `w` is where it was, and has been given no request. */
  ghost predicate Undisturbed(s: State, s': State, w: nat)
    requires w < |s.phases|
  {
    At(s', w, s.phases[w]) && s.owner <= s'.owner && s.finished <= s'.finished &&
    forall i :: |s.owner| <= i < |s'.owner| ==> s'.owner[i] != w
  }

  lemma OthersLeaveAlone(s: State, e: Event, w: nat)
    requires OthersOnly([e], w) && w < |s.phases|
    ensures Undisturbed(s, Step(s, e), w)
  {
    assert e in [e];
    if IsWorkerEvent(e) && Enabled(s, e) {
      WorkerMoves(s, e);
      WorkerOwns(s, e);
    } else {
      OthersStay(s, e);
    }
    hide Step, Enabled;
  }

  /** Since `s` worker `w` has received the requests in `served`, and no others. */
  ghost predicate Served(s: State, s': State, w: nat, served: set<nat>) {
    s.owner <= s'.owner &&
    forall i :: i in served <==> |s.owner| <= i < |s'.owner| && s'.owner[i] == w
  }

  lemma NothingServed(s: State, w: nat)
    ensures Served(s, s, w, {})
  {
  }

  lemma LeftForAReason(events: seq<Event>, w: nat)
    requires At(Run(events), w, Finished)
    ensures Run(events).cancelled || Drained(Run(events))
  {
    RunKeepsInv(events);
    assert ReasonedAt(Run(events), w);
  }

  lemma ServedUndisturbed(s: State, s': State, s'': State, w: nat, served: set<nat>)
    requires w < |s'.phases| && Served(s, s', w, served) && Undisturbed(s', s'', w)
    ensures Served(s, s'', w, served)
  {
  }

  /** What one action of worker `w` does to it. */
  lemma ServedByOne(s: State, s': State, e: Event, w: nat, served: set<nat>)
    requires Served(s, s', w, served) && IsWorkerEvent(e) && e.w == w && Enabled(s', e)
    ensures Served(s, Step(s', e), w, if e.Take? then served + {|s'.owner|} else served)
    ensures Step(s', e).finished == if e.EndDo? then s'.finished + {s'.phases[w].request} else s'.finished
    ensures At(Step(s', e), w, match e
                               case Wake(_) => AtOuter
                               case Outer(_) => if s'.cancelled then Leaving else AtInner
                               case Take(_) => Doing(|s'.owner|)
                               case EndDo(_) => AtOuter
                               case Leave(_) => Finished
                               case _ => Leaving)
  {
    WorkerOwns(s', e);
  }

  /** The pool, with its goroutines and the channel it reads. Each method up to `Exit` is one atomic
      action and adds its event to the run so far. */
  class Pool {
    var adding: nat
    var signalling: nat
    var phases: seq<Phase>
    var group: int
    var firstWorker: bool
    var pending: nat
    var closed: bool
    var cancelled: bool
    var caller: Caller
    var jammed: bool
    var owner: seq<nat>
    var finished: set<nat>
    var late: seq<nat>

    ghost var history: seq<Event>

    function View(): State
      reads this
    {
      State(adding, signalling, phases, group, firstWorker, owner, finished, late, pending, closed, cancelled, caller,
            jammed)
    }

    ghost predicate Valid()
      reads this
    {
      View() == Run(history)
    }

    /** One event has happened, and nothing else. */
    twostate predicate Did(e: Event)
      reads this
    {
      history == old(history) + [e] && View() == Step(old(View()), e)
    }

    constructor ()
      ensures Valid() && history == []
    {
      adding, signalling, phases, group, firstWorker := 0, 0, [], 0, false;
      pending, closed, cancelled, caller, jammed := 0, false, false, NotCalled, false;
      owner, finished, late, history := [], {}, [], [];
    }

    /** The first part of `Add`. */
    method CheckCanceler() returns (panicked: bool)
      requires Valid()
      modifies this
      ensures Valid() && Did(Add) && panicked == old(cancelled)
    {
      hide Run;
      Note(Add);
      panicked := cancelled;
      if !panicked {
        adding := adding + 1;
      }
    }

    method Start()
      requires Valid() && adding > 0
      modifies this
      ensures Valid() && Did(StartWorker)
    {
      hide Run;
      Note(StartWorker);
      adding := adding - 1;
      group := group + 1;
      phases := phases + [Waiting];
      late := late + [0];
      signalling := signalling + 1;
    }

    method SignalFirstWorker()
      requires Valid() && signalling > 0
      modifies this
      ensures Valid() && Did(SignalFirst)
    {
      hide Run;
      Note(SignalFirst);
      signalling := signalling - 1;
      if !firstWorker {
        firstWorker := true;
      }
    }

    method CancelAll() returns (panicked: bool)
      requires Valid()
      modifies this
      ensures Valid() && Did(Cancel) && panicked == old(cancelled)
    {
      hide Run;
      Note(Cancel);
      panicked := cancelled;
      if !panicked {
        cancelled := true;
        if !firstWorker {
          firstWorker := true;
        }
      }
    }

    /** `DoAll` up to where it waits for the first worker. A second call panics holding the lock. */
    method SetRequests() returns (panicked: bool)
      requires Valid() && !jammed
      modifies this
      ensures Valid() && panicked == (old(caller) != NotCalled)
      ensures Did(if panicked then DoAllAgain else DoAll)
    {
      hide Run;
      panicked := caller != NotCalled;
      Note(if panicked then DoAllAgain else DoAll);
      if panicked {
        jammed := true;
      } else {
        caller := AwaitFirst;
      }
    }

    /** The two waits of `DoAll`, each when it can go on. */
    method GoOn()
      requires Valid() && (Enabled(View(), FirstReady) || Enabled(View(), AllDone))
      modifies this
      ensures Valid() && Did(if old(caller) == AwaitFirst then FirstReady else AllDone)
    {
      hide Run;
      Note(if caller == AwaitFirst then FirstReady else AllDone);
      caller := if caller == AwaitFirst then AwaitAll else Returned;
    }

    /** `Get` returns once the channel is set. */
    method Get(w: nat)
      requires Valid() && Enabled(View(), Wake(w))
      modifies this
      ensures Valid() && Did(Wake(w))
    {
      hide Run;
      Note(Wake(w));
      phases := phases[w := AtOuter];
    }

    /** The outer select has a default, so it never waits. */
    method OuterSelect(w: nat)
      requires Valid() && At(View(), w, AtOuter)
      modifies this
      ensures Valid() && Did(Outer(w))
    {
      hide Run;
      Note(Outer(w));
      phases := phases[w := if cancelled then Leaving else AtInner];
    }

    /** The inner select, when a request is ready. It may be taken even after `Cancel`. */
    method Receive(w: nat)
      requires Valid() && At(View(), w, AtInner) && pending > 0
      modifies this
      ensures Valid() && Did(Take(w))
    {
      hide Inv, Step, Enabled, Move, Run;
      OneCountEach(history);
      TakeStep(View(), w);
      Note(Take(w));
      pending := pending - 1;
      phases := phases[w := Doing(|owner|)];
      owner := owner + [w];
      late := if cancelled then late[w := late[w] + 1] else late;
    }

    /** The inner select, when the channel is closed and empty. */
    method ReceiveClosed(w: nat)
      requires Valid() && At(View(), w, AtInner) && pending == 0 && closed
      modifies this
      ensures Valid() && Did(SeeClosed(w))
    {
      hide Run;
      Note(SeeClosed(w));
      phases := phases[w := Leaving];
    }

    /** The inner select, when the pool is cancelled. */
    method Canceled(w: nat)
      requires Valid() && At(View(), w, AtInner) && cancelled
      modifies this
      ensures Valid() && Did(SeeCancel(w))
    {
      hide Run;
      Note(SeeCancel(w));
      phases := phases[w := Leaving];
    }

    /** The worker is done with its request, well or not. */
    method EndRequest(w: nat)
      requires Valid() && w < |phases| && phases[w].Doing?
      modifies this
      ensures Valid() && Did(EndDo(w))
    {
      hide Run;
      Note(EndDo(w));
      finished := finished + {phases[w].request};
      phases := phases[w := AtOuter];
    }

    method Exit(w: nat)
      requires Valid() && At(View(), w, Leaving)
      modifies this
      ensures Valid() && Did(Leave(w))
    {
      hide Run;
      Note(Leave(w));
      phases := phases[w := Finished];
      group := group - 1;
    }

    /** Writes an event down. The pool follows. */
    ghost method Note(e: Event)
      modifies `history
      ensures history == old(history) + [e] && Run(history) == Step(Run(old(history)), e)
    {
      RunOneMore(history, e);
      history := history + [e];
    }

    /** Receives a request and does it, with what the others do meanwhile. */
    method Serve(w: nat, meanwhile: seq<Event>, ghost since: State, served: set<nat>) returns (more: set<nat>)
      requires Valid() && At(View(), w, AtInner) && pending > 0 && OthersOnly(meanwhile, w)
      requires Served(since, View(), w, served) && served <= finished
      modifies this
      ensures Valid() && At(View(), w, AtOuter) && Served(since, View(), w, more) && more <= finished
    {
      hide Run, Step, Served;
      ServedByOne(since, View(), Take(w), w, served);
      more := served + {|owner|};
      Receive(w);
      Interfere(meanwhile, since, w, more);
      ServedByOne(since, View(), EndDo(w), w, more);
      EndRequest(w);
    }

    /** The inner select, which waits for a request, for the end of the channel or for `Cancel`. If
        there are several it takes any. */
    method InnerSelect(w: nat, meanwhile: seq<seq<Event>>, from: nat, ghost since: State, served: set<nat>)
      returns (i: nat, more: set<nat>)
      requires forall events :: events in meanwhile ==> OthersOnly(events, w)
      requires Valid() && At(View(), w, AtInner) && Served(since, View(), w, served) && served <= finished
      modifies this
      ensures Valid() && Served(since, View(), w, more) && more <= finished && from <= i
      ensures w < |phases| && phases[w] in {AtOuter, AtInner, Leaving}
    {
      hide Run, Step, Served, Undisturbed;
      i, more := from, served;
      while i < |meanwhile| && pending == 0 && !closed && !cancelled
        invariant from <= i && Valid() && served <= finished
        invariant At(View(), w, AtInner) && Served(since, View(), w, served)
      {
        Interfere(meanwhile[i], since, w, served);
        i := i + 1;
      }
      var first: bool := *;
      if pending > 0 && (first || !cancelled) {
        more := Serve(w, if i < |meanwhile| then meanwhile[i] else [], since, served);
        i := i + 1;
      } else if cancelled {
        ServedByOne(since, View(), SeeCancel(w), w, served);
        Canceled(w);
      } else if closed {
        ServedByOne(since, View(), SeeClosed(w), w, served);
        ReceiveClosed(w);
      }
    }

    /** The goroutine of worker `w`, with what the others do before each of its actions: it serves
        the requests it receives, and leaves when the pool is cancelled or the channel is closed. */
    method RunWorker(w: nat, meanwhile: seq<seq<Event>>) returns (left: bool, served: set<nat>)
      requires Valid() && At(View(), w, Waiting)
      requires forall events :: events in meanwhile ==> OthersOnly(events, w)
      modifies this
      ensures Valid() && w < |phases| && Served(old(View()), View(), w, served) && served <= finished
      ensures left <==> phases[w] == Finished
      ensures left ==> cancelled || Drained(View())
    {
      hide Run, Step, Undisturbed, Served, Drained;
      ghost var since := View();
      NothingServed(since, w);
      left, served := false, {};
      var i := 0;
      while i < |meanwhile| && (caller == NotCalled || jammed)
        invariant Valid() && At(View(), w, Waiting) && Served(since, View(), w, served)
      {
        Interfere(meanwhile[i], since, w, served);
        i := i + 1;
      }
      if caller == NotCalled || jammed {
        return;
      }
      ServedByOne(since, View(), Wake(w), w, served);
      Get(w);
      while i < |meanwhile| && phases[w] == AtOuter
        invariant Valid() && Served(since, View(), w, served) && served <= finished
        invariant w < |phases| && phases[w] in {AtOuter, AtInner, Leaving}
      {
        Interfere(meanwhile[i], since, w, served);
        i := i + 1;
        ServedByOne(since, View(), Outer(w), w, served);
        OuterSelect(w);
        if phases[w] == AtInner {
          i, served := InnerSelect(w, meanwhile, i, since, served);
        }
      }
      if phases[w] == Leaving {
        ServedByOne(since, View(), Leave(w), w, served);
        Exit(w);
        left := true;
        LeftForAReason(history, w);
      }
    }

    /** What the other goroutines do before the next action of this one. */
    method Interfere(events: seq<Event>, ghost since: State, ghost w: nat, ghost served: set<nat>)
      requires Valid() && OthersOnly(events, w) && w < |phases| && Served(since, View(), w, served)
      modifies this
      ensures Valid() && history == old(history) + events && old(finished) <= finished
      ensures At(View(), w, old(phases[w])) && Served(since, View(), w, served)
    {
      hide Run, Step, Served;
      for i := 0 to |events|
        invariant Valid() && history == old(history) + events[..i] && old(finished) <= finished
        invariant At(View(), w, old(phases[w])) && Served(since, View(), w, served)
      {
        assert OthersOnly([events[i]], w);
        OthersLeaveAlone(View(), events[i], w);
        ServedUndisturbed(since, View(), Step(View(), events[i]), w, served);
        Happen(events[i]);
      }
    }

    method Happen(e: Event)
      requires Valid()
      modifies this
      ensures Valid() && Did(e)
    {
      hide Run, Step;
      Note(e);
      var s := Step(View(), e);
      HappenToWorkers(s);
      HappenToRest(s);
    }

    method HappenToWorkers(s: State)
      modifies `phases, `owner, `finished, `late
      ensures phases == s.phases && owner == s.owner && finished == s.finished && late == s.late
    {
      phases, owner, finished, late := s.phases, s.owner, s.finished, s.late;
    }

    method HappenToRest(s: State)
      modifies `adding, `signalling, `group, `firstWorker, `pending, `closed, `cancelled, `caller, `jammed
      ensures adding == s.adding && signalling == s.signalling && group == s.group && firstWorker == s.firstWorker
      ensures pending == s.pending && closed == s.closed && cancelled == s.cancelled
      ensures caller == s.caller && jammed == s.jammed
    {
      adding, signalling, group, firstWorker := s.adding, s.signalling, s.group, s.firstWorker;
      pending, closed, cancelled, caller, jammed := s.pending, s.closed, s.cancelled, s.caller, s.jammed;
    }
  }
}
