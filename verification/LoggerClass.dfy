/** The methods of `AsyncLogger`, each proved to be steps of the logger machine. */
module LoggerClass {
  import opened Streams
  import opened RimLog
  import AsyncLog

  /** What producer threads do: pass the first test of `log`, or take the lock. */
  datatype Event = Enters(t: nat, record: Record) | Commits(t: nat)

  predicate AllTyped(events: seq<Event>) {
    forall i :: 0 <= i < |events| && events[i].Enters? ==> Typed(events[i].record)
  }

  function StepOf(e: Event): AsyncLog.Step
  {
    match e case Enters(t, r) => AsyncLog.Enter(t, r) case Commits(t) => AsyncLog.Commit(t)
  }

  /** After these events, each if its thread is ready for it. */
  function AfterEvents(capacity: nat, s: AsyncLog.State, events: seq<Event>): AsyncLog.State
  {
    if events == [] then s
    else var n := |events| - 1; AsyncLog.Try(capacity, AfterEvents(capacity, s, events[..n]), StepOf(events[n]))
  }

  /** After a turn of the worker: with nothing to write it stays where it is; otherwise it swaps, writes and
      clears. */
  function AfterTurn(capacity: nat, s: AsyncLog.State, early: seq<Event>, late: seq<Event>): AsyncLog.State
  {
    var s1 := AfterEvents(capacity, s, early);
    if s1.active == [] then s1
    else
      var s2 := AsyncLog.Try(capacity, AsyncLog.Try(capacity, s1, AsyncLog.Test), AsyncLog.Swap);
      AfterWrite(capacity, AfterEvents(capacity, s2, late))
  }

  function AfterWrite(capacity: nat, s: AsyncLog.State): AsyncLog.State
  {
    AsyncLog.Try(capacity, AsyncLog.Try(capacity, s, AsyncLog.Write), AsyncLog.Clear)
  }

  function AfterTurns(capacity: nat, s: AsyncLog.State, early: seq<seq<Event>>, late: seq<seq<Event>>): AsyncLog.State
    requires |early| == |late|
  {
    if early == [] then s
    else
      var n := |early| - 1;
      AfterTurn(capacity, AfterTurns(capacity, s, early[..n], late[..n]), early[n], late[n])
  }

  /** After the worker, told to stop, has come to its end. */
  function AfterJoin(capacity: nat, s: AsyncLog.State, during: seq<Event>): AsyncLog.State
  {
    var s1 := AfterEvents(capacity, AsyncLog.Try(capacity, s, AsyncLog.Swap), during);
    AsyncLog.Try(capacity, AfterWrite(capacity, s1), AsyncLog.Test)
  }

  /** After the destructor. */
  function AfterShutdown(capacity: nat, s: AsyncLog.State, during: seq<Event>, after: seq<Event>): AsyncLog.State
  {
    var s1 := AfterJoin(capacity, AsyncLog.Try(capacity, s, AsyncLog.Stop), during);
    AsyncLog.Try(capacity, AfterEvents(capacity, s1, after), AsyncLog.Finish)
  }

  class AsyncLogger {
    const maxCapacity: nat
    var activeBuffer: seq<byte>
    var flushBuffer: seq<byte>
    var file: seq<byte>
    var droppedLogs: nat
    var running: bool
    var producers: seq<AsyncLog.Producer>   // the `log` calls in progress
    var worker: AsyncLog.Worker         // where the worker thread is in its loop
    const threads: nat
    ghost const before: seq<byte>       // what the file held when it was opened for appending
    ghost const fileOpened: bool
    ghost var model: AsyncLog.State

    ghost predicate Valid()
      reads this
    {
      && AsyncLog.Reachable(maxCapacity, threads, before, fileOpened, model)
      && activeBuffer == model.active && flushBuffer == model.flush && file == model.file
      && droppedLogs == model.dropped && running == model.running && worker == model.worker
      && producers == model.producers
    }

    constructor (maxCapacity: nat, threads: nat, before: seq<byte>, fileOpened: bool)
      ensures Valid() && this.maxCapacity == maxCapacity && this.before == before && this.fileOpened == fileOpened
      ensures running == fileOpened && file == before && activeBuffer == flushBuffer == [] && droppedLogs == 0
      ensures this.threads == threads && model == AsyncLog.Init(threads, before, fileOpened)
    {
      this.maxCapacity := maxCapacity;
      this.threads, this.before, this.fileOpened := threads, before, fileOpened;
      activeBuffer, flushBuffer, file, droppedLogs, running := [], [], before, 0, fileOpened;
      producers := seq(threads, _ => AsyncLog.Outside);
      worker := if fileOpened then AsyncLog.Testing else AsyncLog.Exited;
      model := AsyncLog.Init(threads, before, fileOpened);
      AsyncLog.ReachableInit(maxCapacity, threads, before, fileOpened);
    }

    /** The part of `log` before the lock, by thread `t` at time `now`. */
    method EnterLog(t: nat, id: nat, data: seq<byte>, now: nat)
      requires Valid() && id < TwoTo32 && now < TwoTo64 && t < |producers| && producers[t].Outside?
      modifies this
      ensures Valid()
      ensures !old(running) || data == [] ==> model == old(model)
      ensures old(running) && data != [] ==>
        && AsyncLog.Enabled(old(model), AsyncLog.Enter(t, Record(id, now, data)))
        && model == AsyncLog.Apply(maxCapacity, old(model), AsyncLog.Enter(t, Record(id, now, data)))
    {
      if !running || data == [] {
        return;
      }
      ghost var step := AsyncLog.Enter(t, Record(id, now, data));
      AsyncLog.ReachableStep(maxCapacity, threads, before, fileOpened, model, step);
      producers := producers[t := AsyncLog.Inside(Record(id, now, data))];
      model := AsyncLog.Apply(maxCapacity, model, step);
    }

    /** The part under the lock: the record is dropped, or its header and payload are appended. */
    method CommitLog(t: nat)
      requires Valid() && t < |producers| && producers[t].Inside? && !model.owner.Finished?
      modifies this
      ensures Valid() && model == AsyncLog.Apply(maxCapacity, old(model), AsyncLog.Commit(t))
      ensures var r := old(producers)[t].record;
        if |old(activeBuffer)| + 16 + |r.payload| > maxCapacity
        then droppedLogs == old(droppedLogs) + 1 && activeBuffer == old(activeBuffer)
        else droppedLogs == old(droppedLogs) && activeBuffer == old(activeBuffer) + Encode(r)
    {
      var Record(id, now, data) := producers[t].record;
      AsyncLog.ReachableStep(maxCapacity, threads, before, fileOpened, model, AsyncLog.Commit(t));
      var header := BigEndian(id, 4) + BigEndian(|data|, 4) + BigEndian(now, 8);
      if |activeBuffer| + |header| + |data| > maxCapacity {
        droppedLogs := droppedLogs + 1;
      } else {
        activeBuffer := activeBuffer + header;
        activeBuffer := activeBuffer + data;
        assert activeBuffer == old(activeBuffer) + Encode(old(producers)[t].record);
      }
      producers := producers[t := AsyncLog.Outside];
      model := AsyncLog.Apply(maxCapacity, model, AsyncLog.Commit(t));
    }

    /** `log`, undisturbed. */
    method Log(t: nat, id: nat, data: seq<byte>, now: nat)
      requires Valid() && id < TwoTo32 && now < TwoTo64 && !model.owner.Finished?
      requires t < |producers| && producers[t].Outside?
      modifies this
      ensures Valid() && producers == old(producers)
      ensures !old(running) || data == [] ==> model == old(model)
      ensures old(running) && data != [] ==>
        var enter := AsyncLog.Enter(t, Record(id, now, data));
        && AsyncLog.Enabled(old(model), enter)
        && var entered := AsyncLog.Apply(maxCapacity, old(model), enter);
           && AsyncLog.Enabled(entered, AsyncLog.Commit(t))
           && model == AsyncLog.Apply(maxCapacity, entered, AsyncLog.Commit(t))
      ensures old(running) && data != [] ==>
        if |old(activeBuffer)| + 16 + |data| > maxCapacity
        then droppedLogs == old(droppedLogs) + 1 && model.accepted == old(model).accepted
        else droppedLogs == old(droppedLogs) && model.accepted == old(model).accepted + [Record(id, now, data)]
    {
      EnterLog(t, id, data, now);
      if producers[t].Inside? {
        CommitLog(t);
      }
    }

    /** Any interleaving of `log` calls of all threads, while the worker and the owner stay where they are.
        An event that its thread is not ready for does not happen. */
    method LogAll(events: seq<Event>)
      requires Valid() && !model.owner.Finished? && AllTyped(events)
      modifies this
      ensures Valid() && worker == old(worker) && running == old(running) && model.owner == old(model).owner
      ensures |producers| == old(|producers|) && old(model).accepted <= model.accepted
      ensures file == old(file) && flushBuffer == old(flushBuffer)
      ensures model == AfterEvents(maxCapacity, old(model), events)
    {
      for i := 0 to |events|
        invariant Valid() && worker == old(worker) && running == old(running) && model.owner == old(model).owner
        invariant |producers| == old(|producers|) && old(model).accepted <= model.accepted
        invariant file == old(file) && flushBuffer == old(flushBuffer)
        invariant model == AfterEvents(maxCapacity, old(model), events[..i])
      {
        var e := events[i];
        assert events[..i + 1][..i] == events[..i];
        if e.t < |producers| {
          if e.Enters? && producers[e.t].Outside? {
            EnterLog(e.t, e.record.id, e.record.payload, e.record.timestamp);
          } else if e.Commits? && producers[e.t].Inside? {
            CommitLog(e.t);
          }
        }
      }
      assert events[..|events|] == events;
    }

    /** The worker, woken up under the lock. */
    method SwapBuffers()
      requires Valid() && AsyncLog.Enabled(model, AsyncLog.Swap)
      modifies this
      ensures Valid() && model == AsyncLog.Apply(maxCapacity, old(model), AsyncLog.Swap)
      ensures activeBuffer == []
    {
      AsyncLog.Accounting(maxCapacity, threads, before, fileOpened, model);
      AsyncLog.ReachableStep(maxCapacity, threads, before, fileOpened, model, AsyncLog.Swap);
      activeBuffer, flushBuffer, worker := flushBuffer, activeBuffer, AsyncLog.Flushing;
      model := AsyncLog.Apply(maxCapacity, model, AsyncLog.Swap);
    }

    /** The worker, outside the lock: what it stole from the producers goes to the file. */
    method FlushStolen()
      requires Valid() && worker.Flushing?
      modifies this
      ensures Valid() && worker.Testing? && model.accepted == old(model).accepted
      ensures running == old(running) && model.owner == old(model).owner && producers == old(producers)
      ensures file == old(file) + old(flushBuffer) && flushBuffer == [] && activeBuffer == old(activeBuffer)
      ensures model.saved == model.swapped == old(model).swapped && model == AfterWrite(maxCapacity, old(model))
    {
      AsyncLog.WrittenUpTo(maxCapacity, threads, before, fileOpened, model);
      AsyncLog.ReachableStep(maxCapacity, threads, before, fileOpened, model, AsyncLog.Write);
      if flushBuffer != [] {
        file := file + flushBuffer;
        worker, model := AsyncLog.Clearing, AsyncLog.Apply(maxCapacity, model, AsyncLog.Write);
        ClearFlushed();
      } else {
        worker, model := AsyncLog.Testing, AsyncLog.Apply(maxCapacity, model, AsyncLog.Write);
      }
    }

    method ClearFlushed()
      requires Valid() && worker.Clearing?
      modifies this
      ensures Valid() && model == AsyncLog.Apply(maxCapacity, old(model), AsyncLog.Clear)
    {
      AsyncLog.ReachableStep(maxCapacity, threads, before, fileOpened, model, AsyncLog.Clear);
      flushBuffer, worker := [], AsyncLog.Testing;
      model := AsyncLog.Apply(maxCapacity, model, AsyncLog.Clear);
    }

    /** The worker's loop condition: go to sleep, or end. */
    method TestRunning()
      requires Valid() && worker.Testing?
      modifies this
      ensures Valid() && model == AsyncLog.Apply(maxCapacity, old(model), AsyncLog.Test)
    {
      AsyncLog.ReachableStep(maxCapacity, threads, before, fileOpened, model, AsyncLog.Test);
      worker := if running then AsyncLog.Waiting else AsyncLog.Exited;
      model := AsyncLog.Apply(maxCapacity, model, AsyncLog.Test);
    }

    /** Turns of `process_loop`, with calls of any number of threads going on. `early[i]` happens before the
        worker is up for the i-th time, and it stays asleep while the buffer is empty; if it wakes up, `late[i]`
        happens after it has swapped the buffers and before it writes the stolen one. File and active buffer
        always are the old file and everything accepted, in lock order. */
    method ProcessLoop(early: seq<seq<Event>>, late: seq<seq<Event>>)
      requires Valid() && running && model.owner.Alive? && worker.Testing? && |early| == |late|
      requires forall i :: 0 <= i < |early| ==> AllTyped(early[i]) && AllTyped(late[i])
      modifies this
      ensures Valid() && running && model.owner.Alive? && worker.Testing?
      ensures model == AfterTurns(maxCapacity, old(model), early, late)
      ensures file + activeBuffer == before + EncodeAll(model.accepted)
      ensures old(model).accepted <= model.accepted
    {
      for i := 0 to |early|
        invariant Valid() && running && model.owner.Alive? && worker.Testing?
        invariant old(model).accepted <= model.accepted
        invariant model == AfterTurns(maxCapacity, old(model), early[..i], late[..i])
      {
        assert early[..i + 1][..i] == early[..i] && late[..i + 1][..i] == late[..i];
        LogAll(early[i]);
        if activeBuffer != [] {
          TestRunning();
          SwapBuffers();
          LogAll(late[i]);
          FlushStolen();
        }
      }
      assert early[..|early|] == early && late[..|late|] == late;
      AsyncLog.BetweenTurns(maxCapacity, threads, before, fileOpened, model);
    }

    /** The destructor, wherever the worker is when it starts and whatever `log` calls are in progress.
        `during` happens while the worker is on its way out and `after` once it is joined; calls that begin
        then are refused, others are still accepted. The file has every accepted record, in order. */
    method Shutdown(during: seq<Event>, after: seq<Event>)
      requires Valid() && model.owner.Alive? && AllTyped(during) && AllTyped(after)
      modifies this
      ensures Valid() && model.owner.Finished? && !running && old(model).accepted <= model.accepted
      ensures file == before + EncodeAll(model.accepted)
      ensures model == AfterShutdown(maxCapacity, old(model), during, after)
    {
      AsyncLog.ReachableStep(maxCapacity, threads, before, fileOpened, model, AsyncLog.Stop);
      running := false;
      model := AsyncLog.Apply(maxCapacity, model, AsyncLog.Stop);
      JoinWorker(during);
      LogAll(after);
      AsyncLog.ReachableStep(maxCapacity, threads, before, fileOpened, model, AsyncLog.Finish);
      if activeBuffer != [] {
        file := file + activeBuffer;
      }
      model := AsyncLog.Apply(maxCapacity, model, AsyncLog.Finish);
      AsyncLog.FileHoldsWholeRecords(maxCapacity, threads, before, fileOpened, model);
    }

    /** What the worker still does after `running` is cleared, until its thread can be joined. */
    method JoinWorker(during: seq<Event>)
      requires Valid() && model.owner.Joining? && !running && AllTyped(during)
      modifies this
      ensures Valid() && worker.Exited? && model.owner.Joining? && !running && old(model).accepted <= model.accepted
      ensures model == AfterJoin(maxCapacity, old(model), during)
    {
      if worker.Waiting? {
        SwapBuffers();
      }
      LogAll(during);
      if worker.Flushing? {
        FlushStolen();
      }
      if worker.Clearing? {
        ClearFlushed();
      }
      if worker.Testing? {
        TestRunning();
      }
    }
  }
}
