/** The strand-serialised queues between an asynchronous source and an asynchronous sink.
    Every method of the two classes runs on the strand, so methods never overlap. What the
    asynchronous operations promise is what the completion handlers require. */
module AsioStreams {
  import opened Common

  type Bytes = seq<bv8>

  const BUFFER := 4096

  function Concat(chunks: seq<Bytes>): Bytes {
    if chunks == [] then [] else chunks[0] + Concat(chunks[1..])
  }

  lemma {:induction false} ConcatAppend(chunks: seq<Bytes>, chunk: Bytes)
    ensures Concat(chunks + [chunk]) == Concat(chunks) + chunk
  {
    if chunks == [] {
      assert [chunk][1..] == [];
    } else {
      assert (chunks + [chunk])[1..] == chunks[1..] + [chunk];
      ConcatAppend(chunks[1..], chunk);
    }
  }

  /** Queueing a chunk, and writing out part of the first one, both keep
      `written + Concat(queue)` in step. */
  lemma Queued(written: Bytes, queue: seq<Bytes>, data: Bytes)
    ensures written + Concat(queue + [data]) == written + Concat(queue) + data
  {
    ConcatAppend(queue, data);
  }

  lemma WrittenFront(written: Bytes, queue: seq<Bytes>, size: nat)
    requires queue != [] && size <= |queue[0]|
    ensures written + Concat(queue) == written + queue[0][..size] + Concat(AfterWrite(queue, size))
  {
    ConcatAfterWrite(queue, size);
    SplitFront(written, queue[0], size, Concat(queue[1..]));
  }

  lemma SplitFront(before: Bytes, front: Bytes, size: nat, after: Bytes)
    requires size <= |front|
    ensures before + (front + after) == before + front[..size] + (front[size..] + after)
  {
    assert front == front[..size] + front[size..];
  }

  lemma ConcatAfterWrite(queue: seq<Bytes>, size: nat)
    requires queue != [] && size <= |queue[0]|
    ensures Concat(queue) == queue[0] + Concat(queue[1..])
    ensures Concat(AfterWrite(queue, size)) == queue[0][size..] + Concat(queue[1..])
  {
    if 0 < size < |queue[0]| {
      assert AfterWrite(queue, size)[1..] == queue[1..];
    }
  }

  function AfterWrite(queue: seq<Bytes>, size: nat): seq<Bytes>
    requires queue != [] && size <= |queue[0]|
  {
    if size == 0 then queue
    else if size < |queue[0]| then [queue[0][size..]] + queue[1..]
    else queue[1..]
  }

  /** A write was started on a sink that was closed. */
  predicate LateStart(before: Option<Bytes>, after: Option<Bytes>, sinkClosed: bool) {
    before.None? && after.Some? && sinkClosed
  }

  class BufferConnection {
    const closeSinkOnEof: bool
    const discardOnSinkError: bool

    var queue: seq<Bytes>
    var closed: bool
    var terminated: bool
    var sourceOk: bool
    var sinkOk: bool

    /** What is under way outside the strand: a read, and a write of a buffer. */
    var started: bool
    var reading: bool
    var writing: Option<Bytes>
    var sinkClosed: bool

    /** Whether the handlers of written data and of read data were told about the end. */
    var endReported: bool
    var readEndReported: bool

    /** All bytes that came from the source, those of them that were queued, those that
        were not, and those the sink reported written. */
    ghost var received: Bytes
    ghost var accepted: Bytes
    ghost var refused: Bytes
    ghost var written: Bytes

    /** Whether the connection was ever closed while a read was under way, and whether a write
        was ever started on a closed sink. */
    ghost var overtaken: bool
    ghost var lateWrite: bool

    /** Whether a close found the queue empty, no read under way and the end not yet reported, and
        nothing has reported it since. */
    ghost var silent: bool

    ghost predicate Valid()
      reads this
    {
      Conserving() && Writing() && Progressing() && Orderly() && Reporting()
    }

    /** The handler of written data waits in vain only after a silent close; that of read data is
        told of the end of the source and of nothing else. */
    ghost predicate Reporting()
      reads this
    {
      (silent ==> closed && !endReported) &&
      (closed && sinkOk && !terminated && queue == [] && !reading && !endReported ==> silent) &&
      (readEndReported <==> !sourceOk)
    }

    /** A write starts on a closed sink only if a close overtook a read, or the connection was
        terminated. */
    ghost predicate Orderly()
      reads this
    {
      (closed && reading && !terminated ==> overtaken) &&
      (sinkClosed && !terminated && !overtaken ==> !reading && queue == []) &&
      (lateWrite ==> overtaken)
    }

    /** No byte is lost, repeated or reordered. Bytes are refused only after a sink error. */
    ghost predicate Conserving()
      reads this
    {
      accepted == written + Concat(queue) && received == accepted + refused &&
      (sinkOk || !discardOnSinkError ==> refused == [])
    }

    /** At most one write is under way, of the front of the queue. */
    ghost predicate Writing()
      reads this
    {
      (forall i :: 0 <= i < |queue| ==> queue[i] != []) &&
      (writing.Some? ==> sinkOk && queue != [] && writing.value == queue[0])
    }

    /** Nothing waits that could go on, and a sink is closed early only by `close`. */
    ghost predicate Progressing()
      reads this
    {
      (sinkOk && !terminated && queue != [] ==> writing.Some?) &&
      (started && sourceOk && !closed ==> reading) &&
      (sinkOk && !terminated && Due() ==> sinkClosed) &&
      (sinkClosed && !closed ==> queue == [] && !sourceOk && closeSinkOnEof && endReported) &&
      (reading ==> started && sourceOk) && (!started ==> sourceOk) && (terminated ==> closed && sinkClosed)
    }

    /** Nothing is left to write, and nothing more will come. */
    predicate Due()
      reads this
    {
      queue == [] && (closed || (!sourceOk && closeSinkOnEof))
    }

    /** The state while a read is being handled, its data queued. */
    ghost predicate Handling()
      reads this
    {
      Conserving() && Writing() && started && sourceOk && !reading && !readEndReported &&
      (sinkOk && !terminated && queue != [] ==> writing.Some?) &&
      (sinkClosed ==> closed) && (terminated ==> closed && sinkClosed) &&
      (closed && !terminated ==> overtaken) && (lateWrite ==> overtaken) && (silent ==> closed && !endReported)
    }

    /** The state while a write is being handled, what it wrote taken off the queue. */
    ghost predicate Written()
      reads this
    {
      Conserving() && Writing() && writing.None? && sinkOk &&
      (started && sourceOk && !closed ==> reading) && (sinkClosed ==> closed) &&
      (reading ==> started && sourceOk) && (!started ==> sourceOk) && (terminated ==> closed && sinkClosed) &&
      (closed && reading && !terminated ==> overtaken) && (sinkClosed && !terminated ==> overtaken) &&
      (lateWrite ==> overtaken) && (silent ==> closed && !endReported) && (readEndReported <==> !sourceOk)
    }

    /** What a read adds to the queue: with a broken sink it may be told to add nothing. */
    function Taken(data: Bytes): Bytes
      reads `sinkOk
    {
      if sinkOk || !discardOnSinkError then data else []
    }

    constructor (closeSinkOnEof: bool, discardOnSinkError: bool)
      ensures Valid() && !started && !sinkClosed && received == [] && queue == []
      ensures !terminated && !closed && sourceOk && sinkOk && !endReported && !silent
      ensures this.closeSinkOnEof == closeSinkOnEof && this.discardOnSinkError == discardOnSinkError
    {
      this.closeSinkOnEof, this.discardOnSinkError := closeSinkOnEof, discardOnSinkError;
      queue, closed, terminated, sourceOk, sinkOk := [], false, false, true, true;
      started, reading, writing, sinkClosed := false, false, None, false;
      received, accepted, refused, written := [], [], [], [];
      overtaken, lateWrite, silent := false, false, false;
      endReported, readEndReported := false, false;
    }

    method Start()
      requires Valid() && !started
      modifies this
      ensures Valid() && started && reading == !terminated
      ensures overtaken == (old(overtaken) || closed) && lateWrite == old(lateWrite)
      ensures endReported == old(endReported) && silent == old(silent)
      ensures unchanged(`queue, `closed, `terminated, `writing, `sinkClosed, `received, `accepted, `written,
          `sourceOk, `sinkOk)
    {
      started := true;
      overtaken := overtaken || closed;
      SpawnReader();
    }

    /** Stops reading. An empty queue has the sink closed at once; the handler of written data is
        told when a read still under way ends, and never if there is none. */
    method Close()
      requires Valid()
      modifies this
      ensures Valid() && closed
      ensures unchanged(`queue, `reading, `writing, `received, `accepted, `written, `terminated, `sourceOk, `sinkOk,
          `started)
      ensures sinkClosed == (old(sinkClosed) || (!old(closed) && queue == []))
      ensures overtaken == (old(overtaken) || (!old(closed) && reading)) && lateWrite == old(lateWrite)
      ensures endReported == old(endReported) && readEndReported == old(readEndReported)
      ensures silent == (old(silent) || (!old(closed) && queue == [] && !reading && !endReported))
    {
      if closed {
        return;
      }
      closed := true;
      overtaken := overtaken || reading;
      silent := queue == [] && !reading && !endReported;
      if queue == [] {
        CloseSink();
      }
    }

    /** Drops the connection. The queue stays as it is, and no further write starts. */
    method Terminate()
      requires Valid()
      modifies this
      ensures Valid() && terminated && closed && sinkClosed
      ensures overtaken == old(overtaken) && lateWrite == old(lateWrite)
      ensures endReported == old(endReported) && silent == old(silent)
      ensures unchanged(`queue, `reading, `writing, `received, `accepted, `written, `sourceOk, `sinkOk)
    {
      closed := true;
      terminated := true;
      sinkClosed := true;
    }

    /** The outstanding read ends with `data`; `error` also stands for end of file. */
    method HandleRead(error: bool, data: Bytes)
      requires Valid() && reading && |data| <= BUFFER
      modifies this
      ensures Valid()
      ensures received == old(received) + data && written == old(written)
      ensures accepted == old(accepted) + Taken(data)
      ensures queue == old(queue) + if Taken(data) == [] then [] else [data]
      ensures sourceOk == !error && reading == (!error && !closed)
      ensures unchanged(`closed, `terminated, `sinkOk)
      ensures sinkClosed == (old(sinkClosed) || Due())
      ensures endReported == (old(endReported) || Due())
      ensures readEndReported == (old(readEndReported) || error) && silent == (old(silent) && !endReported)
      ensures old(writing).Some? || terminated ==> writing == old(writing)
      ensures old(writing).None? ==> (writing.Some? <==> sinkOk && !terminated && data != [])
      ensures lateWrite == (old(lateWrite) || LateStart(old(writing), writing, old(sinkClosed)))
      ensures LateStart(old(writing), writing, old(sinkClosed)) ==> old(closed) && overtaken
      ensures overtaken == old(overtaken)
    {
      Accept(data);
      hide Taken, Concat, Conserving, Writing, Handling, Valid, Due, LateStart;
      ReadOn(error);
    }

    /** Reads on unless the source or the connection came to an end. */
    method ReadOn(error: bool)
      requires Handling()
      modifies `sourceOk, `reading, `sinkClosed, `endReported, `readEndReported, `silent
      ensures Valid()
      ensures sourceOk == !error && reading == (!error && !closed)
      ensures sinkClosed == (old(sinkClosed) || Due())
      ensures endReported == (old(endReported) || Due())
      ensures readEndReported == (old(readEndReported) || error) && silent == (old(silent) && !endReported)
    {
      hide Concat;
      if error {
        readEndReported := true;
        sourceOk := false;
      } else if !closed {
        SpawnReader();
      }
      if queue == [] {
        TryCloseSink();
      }
    }

    /** Queues what was read, unless the sink is broken and the data is to be discarded, and
        starts a writer where there was none. */
    method Accept(data: Bytes)
      requires Valid() && reading
      modifies `reading, `received, `accepted, `refused, `queue, `writing, `lateWrite
      ensures Handling()
      ensures received == old(received) + data
      ensures accepted == old(accepted) + Taken(data)
      ensures queue == old(queue) + if Taken(data) == [] then [] else [data]
      ensures old(writing).Some? || terminated ==> writing == old(writing)
      ensures old(writing).None? ==> (writing.Some? <==> sinkOk && !terminated && data != [])
      ensures lateWrite == (old(lateWrite) || LateStart(old(writing), writing, sinkClosed))
      ensures LateStart(old(writing), writing, sinkClosed) ==> closed && overtaken
    {
      hide Concat;
      reading := false;
      received := received + data;
      if data != [] && (sinkOk || !discardOnSinkError) {
        Queued(written, queue, data);
        queue := queue + [data];
        accepted := accepted + data;
        if |queue| == 1 {
          SpawnWriter();
        }
      } else {
        refused := refused + data;
      }
    }

    /** The outstanding write ends after `size` bytes, all of them unless there was an error. */
    method HandleWrite(error: bool, size: nat)
      requires Valid() && writing.Some? && size <= |writing.value|
      requires !error ==> size == |writing.value|
      modifies this
      ensures Valid()
      ensures written == old(written) + old(writing.value)[..size]
      ensures queue == AfterWrite(old(queue), size)
      ensures sinkOk == !error && (writing.Some? <==> !error && !terminated && queue != [])
      ensures lateWrite == (old(lateWrite) || (writing.Some? && old(sinkClosed)))
      ensures writing.Some? && old(sinkClosed) ==> old(closed) && overtaken
      ensures overtaken == old(overtaken)
      ensures sinkClosed == (old(sinkClosed) || (!error && Due()))
      ensures endReported == (old(endReported) || (!error && Due()))
      ensures readEndReported == old(readEndReported) && silent == (old(silent) && !endReported)
      ensures unchanged(`received, `accepted, `reading, `closed, `terminated, `sourceOk)
    {
      Take(size);
      hide Concat, Conserving, Writing, Written, Valid, Due;
      WriteOn(error);
    }

    /** Takes what has been written off the queue. */
    method Take(size: nat)
      requires Valid() && writing.Some? && size <= |writing.value|
      modifies `written, `queue, `writing
      ensures Written() && written == old(written) + old(writing.value)[..size] && queue == AfterWrite(old(queue), size)
    {
      hide Concat;
      WrittenFront(written, queue, size);
      writing := None;
      if size > 0 {
        written := written + queue[0][..size];
        if size < |queue[0]| {
          queue := [queue[0][size..]] + queue[1..];
        } else {
          assert size == |queue[0]|;
          queue := queue[1..];
        }
      }
    }

    /** Goes on with the next write, unless there was an error or nothing is left. */
    method WriteOn(error: bool)
      requires Written()
      modifies `sinkOk, `sinkClosed, `endReported, `silent, `writing, `lateWrite
      ensures Valid()
      ensures sinkOk == !error && (writing.Some? <==> !error && !terminated && queue != [])
      ensures lateWrite == (old(lateWrite) || (writing.Some? && old(sinkClosed)))
      ensures writing.Some? && old(sinkClosed) ==> closed && overtaken
      ensures sinkClosed == (old(sinkClosed) || (!error && Due()))
      ensures endReported == (old(endReported) || (!error && Due()))
      ensures silent == (old(silent) && !endReported)
    {
      hide Concat;
      if error {
        sinkOk := false;
        return;
      }
      if queue == [] {
        TryCloseSink();
      } else {
        SpawnWriter();
      }
    }

    method SpawnReader()
      modifies `reading
      ensures reading == (old(reading) || !terminated)
    {
      if terminated {
        return;
      }
      reading := true;
    }

    /** Starts a write. No caller comes here with a broken sink and the order to discard, so the
        branch of the source that drops the queue is never taken. */
    method SpawnWriter()
      requires !terminated && sinkOk ==> queue != [] && writing.None?
      requires terminated || sinkOk || !discardOnSinkError
      modifies `writing, `lateWrite
      ensures writing == if !terminated && sinkOk then Some(queue[0]) else old(writing)
      ensures lateWrite == (old(lateWrite) || (!terminated && sinkOk && sinkClosed))
    {
      if terminated {
        return;
      }
      if !sinkOk {
        if discardOnSinkError {
          assert false;
        }
        return;
      }
      lateWrite := lateWrite || sinkClosed;
      writing := Some(queue[0]);
    }

    method TryCloseSink()
      requires queue == [] && writing.None?
      requires silent ==> !endReported
      modifies `sinkClosed, `endReported, `silent
      ensures sinkClosed == (old(sinkClosed) || closed || (!sourceOk && closeSinkOnEof))
      ensures endReported == (old(endReported) || closed || (!sourceOk && closeSinkOnEof))
      ensures silent == (old(silent) && !endReported)
    {
      if closed || (!sourceOk && closeSinkOnEof) {
        endReported := true;
        silent := false;
        CloseSink();
      }
    }

    /** Every close of the sink but that of `Terminate` finds the queue empty. */
    method CloseSink()
      requires queue == [] && writing.None?
      modifies `sinkClosed
      ensures sinkClosed
    {
      sinkClosed := true;
    }
  }

  /** Once nothing is under way and the sink took no error, everything the source gave has
      been written, and the sink is closed if it was ever to be. */
  lemma DrainedWhenIdle(c: BufferConnection)
    requires c.Valid() && c.started && !c.reading && c.writing.None? && c.sinkOk && !c.terminated
    ensures c.written == c.received && c.refused == []
    ensures c.sinkClosed <==> c.closed || c.closeSinkOnEof
  {
  }

  /** Once a closed connection is at rest with a working sink, the handler of written data has been
      told exactly if the close was not silent, and that of read data exactly if the source ended. */
  lemma EndReportedWhenIdle(c: BufferConnection)
    requires c.Valid() && c.closed && !c.reading && c.writing.None? && c.sinkOk && !c.terminated
    ensures c.endReported <==> !c.silent
    ensures c.readEndReported <==> !c.sourceOk
    ensures c.sinkClosed && c.written == c.received
  {
    assert c.queue == [];
  }

  /** A close with nothing left to read or write closes the sink and tells nobody. */
  method SilentClose() returns (c: BufferConnection)
    ensures c.Valid() && c.closed && c.sinkClosed && !c.reading && c.writing.None? && c.sinkOk && !c.terminated
    ensures !c.endReported
  {
    c := new BufferConnection(false, false);
    c.Start();
    c.HandleRead(true, []);
    c.Close();
  }

  /** As long as nobody closes the connection while it reads, or starts it when it is closed, no
      write starts on a closed sink. */
  lemma NoLateWrite(c: BufferConnection)
    requires c.Valid() && !c.overtaken
    ensures !c.lateWrite
    ensures c.sinkClosed && !c.terminated ==> c.queue == [] && !c.reading && c.writing.None?
  {
  }

  /** A close during a read puts a write on a closed sink exactly when it finds the queue empty
      and the read then brings data to a working sink. */
  method ReadAfterClose(c: BufferConnection, error: bool, data: Bytes)
    requires c.Valid() && c.reading && !c.closed && |data| <= BUFFER
    modifies c
    ensures c.Valid()
    ensures c.lateWrite <==> old(c.lateWrite) || (old(c.queue) == [] && c.sinkOk && data != [])
  {
    c.Close();
    c.HandleRead(error, data);
  }

  // ----- whole objects --------------------------------------------------------------------

  class QueuedWriter<T(==)> {
    var queue: seq<T>
    var last: bool

    var writing: Option<T>
    var connectionClosed: bool

    ghost var terminated: bool
    ghost var failed: bool
    ghost var pushed: seq<T>
    ghost var completed: seq<T>

    /** Objects leave in the order they came, one write at a time. After a failed write
        nothing more is written. */
    ghost predicate Valid()
      reads this
    {
      pushed == completed + queue &&
      (writing.Some? ==> queue != [] && writing.value == queue[0] && !failed) &&
      (queue != [] && !failed ==> writing.Some?) && (failed ==> queue != []) &&
      (last && queue == [] ==> connectionClosed) &&
      (connectionClosed ==> last) && (terminated ==> connectionClosed)
    }

    constructor ()
      ensures Valid() && pushed == [] && completed == [] && !connectionClosed
    {
      queue, last, writing, connectionClosed := [], false, None, false;
      terminated, failed, pushed, completed := false, false, [], [];
    }

    method Push(item: T)
      requires Valid()
      modifies this
      ensures Valid() && pushed == old(pushed) + [item]
      ensures unchanged(`completed, `last, `connectionClosed, `terminated, `failed)
      ensures old(writing).Some? ==> writing == old(writing)
    {
      queue := queue + [item];
      pushed := pushed + [item];
      if |queue| == 1 {
        SpawnWriter();
      }
    }

    method Close()
      requires Valid()
      modifies this
      ensures Valid() && last && unchanged(`queue, `writing, `pushed, `completed, `terminated, `failed)
      ensures connectionClosed == (old(connectionClosed) || (!old(last) && queue == []))
    {
      if last {
        return;
      }
      last := true;
      if queue == [] {
        CloseConnection();
      }
    }

    method Terminate()
      requires Valid()
      modifies this
      ensures Valid() && last && connectionClosed && unchanged(`queue, `writing, `pushed, `completed, `failed)
    {
      last := true;
      connectionClosed := true;
      terminated := true;
    }

    /** The outstanding write ends; only a successful one completes its object. */
    method HandleWrite(error: bool)
      requires Valid() && writing.Some?
      modifies this
      ensures Valid() && unchanged(`pushed, `last, `terminated)
      ensures completed == old(completed) + if error then [] else [old(writing).value]
      ensures failed == error && (error ==> writing.None? && connectionClosed == old(connectionClosed))
    {
      writing := None;
      if error {
        failed := true;
        return;
      }
      completed := completed + [queue[0]];
      queue := queue[1..];
      if queue == [] {
        if last {
          CloseConnection();
        }
      } else {
        SpawnWriter();
      }
    }

    method SpawnWriter()
      requires queue != [] && writing.None?
      modifies `writing
      ensures writing == Some(queue[0])
    {
      writing := Some(queue[0]);
    }

    /** Every close of the connection but that of `Terminate` finds the queue empty. */
    method CloseConnection()
      requires queue == [] && writing.None?
      modifies `connectionClosed
      ensures connectionClosed
    {
      connectionClosed := true;
    }
  }

  /** While no write has failed, a writer at rest has completed everything pushed, and its connection
      is closed exactly when it was told that nothing more will come. */
  lemma CompletedWhenIdle<T>(w: QueuedWriter<T>)
    requires w.Valid() && w.writing.None?
    ensures w.completed == w.pushed <==> !w.failed
    ensures !w.failed ==> (w.connectionClosed <==> w.last)
  {
  }
}
