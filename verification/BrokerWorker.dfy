/** One request handled by a broker worker: its statuses, its result, its acknowledgement. */
module BrokerWorker {
  import opened Common

  datatype Status = Status(code: int, reason: string, data: string)

  /** What a driver makes of a task. */
  datatype Output = Output(status: int, reason: string, data: string, log: string)

  datatype Result = FromDriver(output: Output) | PackageError(reason: string)

  /** What is called on a request, in order. */
  datatype Entry = WriteStatus(status: Status) | WriteResult(result: Result) | WriteError(error: string) | Ack | Nack

  /** The values Go code panics with. */
  datatype Panic = OfError(text: string) | OfString(text: string) | OfOther(printed: string)

  datatype Attempt<T> = Returns(value: T) | Errs(message: string) | Panics(panic: Panic)

  function Message(p: Panic): string {
    match p
    case OfError(text) => text
    case OfString(text) => text
    case OfOther(printed) => printed
  }

  /** What the outside does while a request is handled. */
  datatype Surroundings = Surroundings(
    extraction: Attempt<()>, statuses: seq<Status>, run: Attempt<Output>, resultWrite: Attempt<()>)

  /** The result handed to the request, if the worker gets as far as one. */
  function ResultOf(s: Surroundings): Option<Result> {
    match s.extraction
    case Errs(message) => Some(PackageError(message))
    case Returns(_) => if s.run.Returns? then Some(FromDriver(s.run.value)) else None
    case Panics(_) => None
  }

  function Problem<T>(a: Attempt<T>): Option<string> {
    match a
    case Returns(_) => None
    case Errs(message) => Some(message)
    case Panics(p) => Some(Message(p))
  }

  /** Why the request fails, if it does. */
  function ErrorOf(s: Surroundings): Option<string> {
    if ResultOf(s).Some? then Problem(s.resultWrite)
    else if s.extraction.Panics? then Problem(s.extraction)
    else Problem(s.run)
  }

  function StatusEntries(statuses: seq<Status>): (r: seq<Entry>)
    ensures |r| == |statuses|
  {
    seq(|statuses|, i requires 0 <= i < |statuses| => WriteStatus(statuses[i]))
  }

  function Ending(error: Option<string>): seq<Entry> {
    if error.None? then [Ack] else [WriteError(error.value), Nack]
  }

  /** Everything a request sees: the statuses in order, the result, the acknowledgement. */
  function Transcript(s: Surroundings): seq<Entry> {
    (if s.extraction.Returns? then StatusEntries(s.statuses) else []) +
    (if ResultOf(s).Some? then [WriteResult(ResultOf(s).value)] else []) +
    Ending(ErrorOf(s))
  }

  /** What a request sees, outcome by outcome: what fails is named by the error, and nothing follows
      a failure but the error and the rejection. */
  lemma EveryOutcome(s: Surroundings)
    ensures var answer := match s.resultWrite
                          case Returns(_) => [Ack]
                          case Errs(message) => [WriteError(message), Nack]
                          case Panics(p) => [WriteError(Message(p)), Nack];
            match s.extraction
            case Panics(p) => Transcript(s) == [WriteError(Message(p)), Nack]
            case Errs(message) => Transcript(s) == [WriteResult(PackageError(message))] + answer
            case Returns(_) =>
              match s.run
              case Panics(p) => Transcript(s) == StatusEntries(s.statuses) + [WriteError(Message(p)), Nack]
              case Errs(message) => Transcript(s) == StatusEntries(s.statuses) + [WriteError(message), Nack]
              case Returns(output) =>
                Transcript(s) == StatusEntries(s.statuses) + [WriteResult(FromDriver(output))] + answer
    ensures forall text :: Message(OfError(text)) == text && Message(OfString(text)) == text
    ensures forall printed :: Message(OfOther(printed)) == printed
  {
  }

  /** A request is acknowledged exactly when a result was written for it without an error, and
      it is rejected otherwise, after being told why; either comes once, and last. */
  lemma AcknowledgedExactly(s: Surroundings)
    ensures var t := Transcript(s);
            var written := ResultOf(s).Some? && s.resultWrite.Returns?;
            t != [] && t[|t| - 1] == (if written then Ack else Nack) &&
            (forall i :: 0 <= i < |t| - 1 ==> t[i] != Ack && t[i] != Nack) &&
            (written ==> |t| > 1 && t[|t| - 2] == WriteResult(ResultOf(s).value)) &&
            (!written ==> |t| > 1 && t[|t| - 2].WriteError?)
  {
  }

  /** A status is written before any result, and every status of the driver is written. */
  lemma StatusesComeFirst(s: Surroundings)
    requires s.extraction.Returns?
    ensures var t, n := Transcript(s), |s.statuses|;
            n < |t| && (forall i :: 0 <= i < n ==> t[i] == WriteStatus(s.statuses[i])) &&
            forall i :: n <= i < |t| ==> !t[i].WriteStatus?
  {
  }

  // ----- the worker -----------------------------------------------------------------------

  /** The request, seen through the calls made on it. */
  class Request {
    var calls: seq<Entry>

    method Call(e: Entry)
      modifies this
      ensures calls == old(calls) + [e]
    {
      calls := calls + [e];
    }
  }

  /** How many statuses may wait between the driver and the request. */
  const BUFFERED_STATUSES := 100

  lemma OneMoreStatus(statuses: seq<Status>, k: nat)
    requires k < |statuses|
    ensures StatusEntries(statuses[..k + 1]) == StatusEntries(statuses[..k]) + [WriteStatus(statuses[k])]
  {
  }

  /** The driver sends statuses while another goroutine forwards them. Whatever the
      interleaving, all have been forwarded, in order, when the channel is closed and the
      goroutine is awaited. */
  method ForwardStatuses(request: Request, statuses: seq<Status>)
    modifies request
    ensures request.calls == old(request.calls) + StatusEntries(statuses)
  {
    var sent := 0;
    var buffer: seq<Status> := [];
    ghost var start := request.calls;
    assert StatusEntries(statuses[..0]) == [];
    hide StatusEntries;
    while sent < |statuses| || buffer != []
      invariant |buffer| <= sent <= |statuses| && |buffer| <= BUFFERED_STATUSES
      invariant buffer == statuses[sent - |buffer|..sent]
      invariant request.calls == start + StatusEntries(statuses[..sent - |buffer|])
      decreases |statuses| - sent, |buffer|
    {
      if
      case sent < |statuses| && |buffer| < BUFFERED_STATUSES =>
        buffer := buffer + [statuses[sent]];
        sent := sent + 1;
      case buffer != [] =>
        ghost var forwarded := sent - |buffer|;
        request.Call(WriteStatus(buffer[0]));
        assert buffer[0] == statuses[forwarded];
        OneMoreStatus(statuses, forwarded);
        buffer := buffer[1..];
    }
    assert statuses[..|statuses|] == statuses;
  }

  /** The part of `Do` that may panic: extraction, the driver with its statuses, and writing
      the result. A panic of the driver still awaits the forwarding of its statuses. */
  method Attempted(request: Request, s: Surroundings) returns (error: Option<string>)
    modifies request
    ensures error == ErrorOf(s)
    ensures request.calls + Ending(error) == old(request.calls) + Transcript(s)
  {
    var result;
    match s.extraction {
      case Panics(p) => {
        return Some(Message(p));
      }
      case Errs(message) => {
        result := PackageError(message);
      }
      case Returns(_) => {
        ForwardStatuses(request, s.statuses);
        match s.run {
          case Panics(p) => {
            return Some(Message(p));
          }
          case Errs(message) => {
            return Some(message);
          }
          case Returns(output) => {
            result := FromDriver(output);
          }
        }
      }
    }
    request.Call(WriteResult(result));
    match s.resultWrite {
      case Panics(p) => {
        return Some(Message(p));
      }
      case Errs(message) => {
        return Some(message);
      }
      case Returns(_) => {
        return None;
      }
    }
  }

  /** Handles a request to its end, whatever happens on the way. */
  method Do(request: Request, s: Surroundings) returns (error: Option<string>)
    modifies request
    ensures request.calls == old(request.calls) + Transcript(s)
    ensures error == ErrorOf(s)
  {
    error := Attempted(request, s);
    if error.Some? {
      request.Call(WriteError(error.value));
      request.Call(Nack);
    } else {
      request.Call(Ack);
    }
  }
}
