/** `AsyncLogger` as a step machine: producer threads that append under a lock, a worker that swaps the
    two buffers under the lock and writes outside it, and a destructor that stops the worker and writes
    the rest. */
module AsyncLog {
  import opened Streams
  import opened RimLog

  /** A `log` call between its first test and the lock. */
  datatype Producer = Outside | Inside(record: Record)

  datatype Worker = Testing | Waiting | Flushing | Clearing | Exited

  datatype Owner = Alive | Joining | Finished

  datatype State = State(
    producers: seq<Producer>,
    active: seq<byte>,
    flush: seq<byte>,
    file: seq<byte>,
    running: bool,
    worker: Worker,
    owner: Owner,
    dropped: nat,
    // History
    passed: nat,                // calls that passed the running and non-empty test
    accepted: seq<Record>,      // in lock order
    swapped: nat,               // accepted records that a swap has taken from the active buffer
    saved: nat)                 // accepted records that are in the file

  /** `before` is what the file held when it was opened; if opening failed no worker is started. */
  function Init(threads: nat, before: seq<byte>, isOpen: bool): State
  {
    State(seq(threads, _ => Outside), [], [], before, isOpen, if isOpen then Testing else Exited, Alive,
          0, 0, [], 0, 0)
  }

  datatype Step =
    | Enter(t: nat, record: Record)   // passes the test and takes its timestamp
    | Commit(t: nat)                  // under the lock: drop or append
    | Test                            // the worker's loop condition
    | Swap                            // it wakes up and swaps
    | Write
    | Clear
    | Stop                            // the destructor clears `running`
    | Finish                          // ... and writes the rest once the worker has exited

  predicate Enabled(s: State, step: Step)
  {
    match step
    case Enter(t, r) =>
      t < |s.producers| && s.producers[t].Outside? && s.running && r.payload != [] && Typed(r)
    case Commit(t) => t < |s.producers| && s.producers[t].Inside? && !s.owner.Finished?
    case Test => s.worker.Testing?
    case Swap => s.worker.Waiting? && (s.active != [] || !s.running)
    case Write => s.worker.Flushing?
    case Clear => s.worker.Clearing?
    case Stop => s.owner.Alive?
    case Finish => s.owner.Joining? && s.worker.Exited?
  }

  function Apply(capacity: nat, s: State, step: Step): State
    requires Enabled(s, step)
  {
    match step
    case Enter(t, r) => s.(producers := s.producers[t := Inside(r)], passed := s.passed + 1)
    case Commit(t) =>
      var r := s.producers[t].record;
      var s1 := s.(producers := s.producers[t := Outside]);
      if |s.active| + 16 + |r.payload| > capacity then s1.(dropped := s.dropped + 1)
      else s1.(active := s.active + Encode(r), accepted := s.accepted + [r])
    case Test => s.(worker := if s.running then Waiting else Exited)
    case Swap => s.(active := s.flush, flush := s.active, worker := Flushing, swapped := |s.accepted|)
    case Write =>
      if s.flush != [] then s.(file := s.file + s.flush, worker := Clearing, saved := s.swapped)
      else s.(worker := Testing)
    case Clear => s.(flush := [], worker := Testing)
    case Stop => s.(running := false, owner := Joining)
    case Finish =>
      s.(file := if s.active != [] then s.file + s.active else s.file, owner := Finished,
         saved := |s.accepted|)
  }

  /** The step, if it can be taken now. */
  function Try(capacity: nat, s: State, step: Step): State
  {
    if Enabled(s, step) then Apply(capacity, s, step) else s
  }

  // ---- Invariants.

  /** The flush buffer is empty except between a swap and the clearing after its write. */
  predicate Idle(w: Worker) { w.Testing? || w.Waiting? || w.Exited? }

  ghost predicate BytesHold(before: seq<byte>, s: State) {
    && s.saved <= |s.accepted| && s.swapped <= |s.accepted|
    && s.file == before + EncodeAll(s.accepted[..s.saved])
    && s.active == EncodeAll(s.accepted[s.swapped..])
    && (Idle(s.worker) ==> s.flush == [])
    && (s.worker.Flushing? ==> s.saved <= s.swapped && s.flush == EncodeAll(s.accepted[s.saved..s.swapped]))
    && (!s.worker.Flushing? && !s.owner.Finished? ==> s.saved == s.swapped)
    && (s.owner.Finished? ==> s.worker.Exited? && s.saved == |s.accepted|)
  }

  /** A record the logger may accept. */
  predicate Loggable(capacity: nat, r: Record) {
    Typed(r) && r.payload != [] && Acceptable(capacity, r)
  }

  function CallsInside(producers: seq<Producer>): nat
  {
    if producers == [] then 0 else (if producers[0].Inside? then 1 else 0) + CallsInside(producers[1..])
  }

  ghost predicate CountsHold(capacity: nat, s: State) {
    && |s.active| <= capacity && |s.flush| <= capacity
    && s.passed == |s.accepted| + s.dropped + CallsInside(s.producers)
    && (forall i :: 0 <= i < |s.accepted| ==> Loggable(capacity, s.accepted[i]))
    && (forall t :: 0 <= t < |s.producers| && s.producers[t].Inside? ==>
          Typed(s.producers[t].record) && s.producers[t].record.payload != [])
    && (s.running ==> s.owner.Alive?)
  }

  ghost predicate Invariant(capacity: nat, before: seq<byte>, s: State) {
    BytesHold(before, s) && CountsHold(capacity, s)
  }

  lemma EncodeAllSnoc(rs: seq<Record>, r: Record)
    ensures EncodeAll(rs + [r]) == EncodeAll(rs) + Encode(r)
  {
    EncodeAllAppend(rs, [r]);
    assert EncodeAll([r]) == Encode(r) + EncodeAll([r][1..]);
  }

  lemma EncodeAllSplit(rs: seq<Record>, i: nat, j: nat)
    requires i <= j <= |rs|
    ensures EncodeAll(rs[..j]) == EncodeAll(rs[..i]) + EncodeAll(rs[i..j])
  {
    EncodeAllAppend(rs[..i], rs[i..j]);
    assert rs[..j] == rs[..i] + rs[i..j];
  }

  lemma {:induction false} InsideUpdate(producers: seq<Producer>, t: nat, x: Producer)
    requires t < |producers|
    ensures CallsInside(producers[t := x]) + (if producers[t].Inside? then 1 else 0)
         == CallsInside(producers) + (if x.Inside? then 1 else 0)
  {
    if t == 0 {
      assert producers[t := x][1..] == producers[1..];
    } else {
      assert producers[t := x][1..] == producers[1..][t - 1 := x];
      InsideUpdate(producers[1..], t - 1, x);
    }
  }

  predicate HasRoom(capacity: nat, s: State, t: nat)
    requires Enabled(s, Commit(t))
  {
    |s.active| + 16 + |s.producers[t].record.payload| <= capacity
  }

  lemma AppendBytes(capacity: nat, before: seq<byte>, s: State, t: nat)
    requires BytesHold(before, s) && Enabled(s, Commit(t)) && HasRoom(capacity, s, t)
    ensures BytesHold(before, Apply(capacity, s, Commit(t)))
  {
    var r, all := s.producers[t].record, s.accepted;
    SnocAt(all, r, s.swapped);
    SnocAt(all, r, s.saved);
    EncodeAllSnoc(all[s.swapped..], r);
    assert s.saved <= s.swapped ==> (all + [r])[s.saved..s.swapped] == all[s.saved..s.swapped];
  }

  lemma SnocAt<T>(s: seq<T>, x: T, k: nat)
    requires k <= |s|
    ensures (s + [x])[k..] == s[k..] + [x] && (s + [x])[..k] == s[..k]
  {
  }

  lemma SwapBytes(capacity: nat, before: seq<byte>, s: State)
    requires BytesHold(before, s) && Enabled(s, Swap)
    ensures BytesHold(before, Apply(capacity, s, Swap))
  {
    var n := |s.accepted|;
    assert s.accepted[n..] == [];
    assert s.accepted[s.swapped..n] == s.accepted[s.swapped..];
  }

  lemma WriteBytes(capacity: nat, before: seq<byte>, s: State)
    requires BytesHold(before, s) && Enabled(s, Write)
    ensures BytesHold(before, Apply(capacity, s, Write))
  {
    EncodeAllSplit(s.accepted, s.saved, s.swapped);
    Associative(before, EncodeAll(s.accepted[..s.saved]), s.flush);
    if s.saved < s.swapped {
      assert s.flush == Encode(s.accepted[s.saved..s.swapped][0]) + EncodeAll(s.accepted[s.saved..s.swapped][1..]);
    }
  }

  lemma FinishBytes(capacity: nat, before: seq<byte>, s: State)
    requires BytesHold(before, s) && Enabled(s, Finish)
    ensures BytesHold(before, Apply(capacity, s, Finish))
  {
    var n := |s.accepted|;
    EncodeAllSplit(s.accepted, s.saved, n);
    assert s.accepted[s.saved..n] == s.accepted[s.saved..];
    Associative(before, EncodeAll(s.accepted[..s.saved]), s.active);
  }

  lemma BytesStep(capacity: nat, before: seq<byte>, s: State, step: Step)
    requires BytesHold(before, s) && Enabled(s, step)
    ensures BytesHold(before, Apply(capacity, s, step))
  {
    match step
    case Commit(t) => if HasRoom(capacity, s, t) { AppendBytes(capacity, before, s, t); }
    case Swap => SwapBytes(capacity, before, s);
    case Write => WriteBytes(capacity, before, s);
    case Finish => FinishBytes(capacity, before, s);
    case _ =>
  }

  lemma CountsStep(capacity: nat, s: State, step: Step)
    requires CountsHold(capacity, s) && Enabled(s, step)
    ensures CountsHold(capacity, Apply(capacity, s, step))
  {
    match step
    case Enter(t, r) => InsideUpdate(s.producers, t, Inside(r));
    case Commit(t) => InsideUpdate(s.producers, t, Outside);
    case _ =>
  }

  lemma InvariantStep(capacity: nat, before: seq<byte>, s: State, step: Step)
    requires Invariant(capacity, before, s) && Enabled(s, step)
    ensures Invariant(capacity, before, Apply(capacity, s, step))
  {
    BytesStep(capacity, before, s, step);
    CountsStep(capacity, s, step);
  }

  // ---- Runs.

  predicate IsRun(capacity: nat, s: State, run: seq<Step>)
    decreases |run|
  {
    run == [] || (Enabled(s, run[0]) && IsRun(capacity, Apply(capacity, s, run[0]), run[1..]))
  }

  function Exec(capacity: nat, s: State, run: seq<Step>): State
    requires IsRun(capacity, s, run)
    decreases |run|
  {
    if run == [] then s else Exec(capacity, Apply(capacity, s, run[0]), run[1..])
  }

  lemma {:induction false} InvariantRun(capacity: nat, before: seq<byte>, s: State, run: seq<Step>)
    requires Invariant(capacity, before, s) && IsRun(capacity, s, run)
    ensures Invariant(capacity, before, Exec(capacity, s, run))
    decreases |run|
  {
    if run != [] {
      InvariantStep(capacity, before, s, run[0]);
      InvariantRun(capacity, before, Apply(capacity, s, run[0]), run[1..]);
    }
  }

  lemma {:induction false} NobodyInside(threads: nat)
    ensures CallsInside(seq(threads, _ => Outside)) == 0
  {
    if threads > 0 {
      NobodyInside(threads - 1);
      assert seq(threads, _ => Outside)[1..] == seq(threads - 1, _ => Outside);
    }
  }

  lemma InvariantInit(capacity: nat, threads: nat, before: seq<byte>, isOpen: bool)
    ensures Invariant(capacity, before, Init(threads, before, isOpen))
  {
    NobodyInside(threads);
    assert before + [] == before;
  }

  /** A state that some interleaving of producers, worker and destructor leads to. */
  ghost predicate Reachable(capacity: nat, threads: nat, before: seq<byte>, isOpen: bool, s: State) {
    exists run :: IsRun(capacity, Init(threads, before, isOpen), run) && s == Exec(capacity, Init(threads, before, isOpen), run)
  }

  lemma ReachableInvariant(capacity: nat, threads: nat, before: seq<byte>, isOpen: bool, s: State)
    requires Reachable(capacity, threads, before, isOpen, s)
    ensures Invariant(capacity, before, s)
  {
    var init := Init(threads, before, isOpen);
    var run :| IsRun(capacity, init, run) && s == Exec(capacity, init, run);
    InvariantInit(capacity, threads, before, isOpen);
    InvariantRun(capacity, before, init, run);
  }

  lemma ReachableInit(capacity: nat, threads: nat, before: seq<byte>, isOpen: bool)
    ensures Reachable(capacity, threads, before, isOpen, Init(threads, before, isOpen))
  {
    assert IsRun(capacity, Init(threads, before, isOpen), []);
  }

  lemma {:induction false} ExecAppend(capacity: nat, s: State, xs: seq<Step>, ys: seq<Step>)
    requires IsRun(capacity, s, xs) && IsRun(capacity, Exec(capacity, s, xs), ys)
    ensures IsRun(capacity, s, xs + ys) && Exec(capacity, s, xs + ys) == Exec(capacity, Exec(capacity, s, xs), ys)
    decreases |xs|
  {
    if xs == [] {
      assert xs + ys == ys;
    } else {
      assert (xs + ys)[0] == xs[0] && (xs + ys)[1..] == xs[1..] + ys;
      ExecAppend(capacity, Apply(capacity, s, xs[0]), xs[1..], ys);
    }
  }

  lemma ReachableStep(capacity: nat, threads: nat, before: seq<byte>, isOpen: bool, s: State, step: Step)
    requires Reachable(capacity, threads, before, isOpen, s) && Enabled(s, step)
    ensures Reachable(capacity, threads, before, isOpen, Apply(capacity, s, step))
  {
    var init := Init(threads, before, isOpen);
    var run :| IsRun(capacity, init, run) && s == Exec(capacity, init, run);
    assert [step][1..] == [];
    assert Exec(capacity, Apply(capacity, s, step), []) == Apply(capacity, s, step);
    ExecAppend(capacity, init, run, [step]);
    assert IsRun(capacity, init, run + [step]);
  }

  // ---- What the logger guarantees.

  /** A worker about to write nothing has nothing to save. */
  lemma WrittenUpTo(capacity: nat, threads: nat, before: seq<byte>, isOpen: bool, s: State)
    requires Reachable(capacity, threads, before, isOpen, s) && s.worker.Flushing?
    ensures s.saved <= s.swapped <= |s.accepted| && (s.flush == [] <==> s.saved == s.swapped)
  {
    ReachableInvariant(capacity, threads, before, isOpen, s);
    if s.saved < s.swapped {
      assert s.flush == Encode(s.accepted[s.saved..s.swapped][0]) + EncodeAll(s.accepted[s.saved..s.swapped][1..]);
    }
  }

  /** The bytes of the flush buffer that are not in the file yet. */
  function Unwritten(s: State): seq<byte> { if s.worker.Clearing? then [] else s.flush }

  /** At every moment before the last flush, the file, the flush buffer and the active buffer together
      are the old file followed by every accepted record in lock order. */
  lemma NothingLostOrReordered(capacity: nat, threads: nat, before: seq<byte>, isOpen: bool, s: State)
    requires Reachable(capacity, threads, before, isOpen, s) && !s.owner.Finished?
    ensures s.file + Unwritten(s) + s.active == before + EncodeAll(s.accepted)
  {
    ReachableInvariant(capacity, threads, before, isOpen, s);
    var n := |s.accepted|;
    assert s.accepted[..n] == s.accepted && s.accepted[s.swapped..n] == s.accepted[s.swapped..];
    EncodeAllSplit(s.accepted, s.swapped, n);
    if s.worker.Flushing? {
      EncodeAllSplit(s.accepted, s.saved, s.swapped);
      Associative(before, EncodeAll(s.accepted[..s.saved]), s.flush);
    }
    assert s.file + Unwritten(s) == before + EncodeAll(s.accepted[..s.swapped]);
    Associative(before, EncodeAll(s.accepted[..s.swapped]), s.active);
  }

  /** Between two turns of the worker the flush buffer is empty. */
  lemma BetweenTurns(capacity: nat, threads: nat, before: seq<byte>, isOpen: bool, s: State)
    requires Reachable(capacity, threads, before, isOpen, s) && s.worker.Testing? && !s.owner.Finished?
    ensures s.file + s.active == before + EncodeAll(s.accepted)
  {
    ReachableInvariant(capacity, threads, before, isOpen, s);
    NothingLostOrReordered(capacity, threads, before, isOpen, s);
    assert s.file + [] == s.file;
  }

  /** The file always ends on a record boundary, and after shutdown it holds every accepted record. */
  lemma FileHoldsWholeRecords(capacity: nat, threads: nat, before: seq<byte>, isOpen: bool, s: State)
    requires Reachable(capacity, threads, before, isOpen, s)
    ensures s.saved <= |s.accepted| && s.file == before + EncodeAll(s.accepted[..s.saved])
    ensures s.owner.Finished? ==> s.file == before + EncodeAll(s.accepted)
  {
    ReachableInvariant(capacity, threads, before, isOpen, s);
    assert s.accepted[..|s.accepted|] == s.accepted;
  }

  /** Reading a fresh log file gives back a prefix of the accepted records at any time, and all of them
      after shutdown, if the capacity keeps lengths within the 32-bit field. */
  lemma FileDecodes(capacity: nat, threads: nat, isOpen: bool, s: State)
    requires Reachable(capacity, threads, [], isOpen, s) && capacity < TwoTo32 + 16
    ensures s.saved <= |s.accepted| && DecodeAll(s.file) == Some(s.accepted[..s.saved])
    ensures s.owner.Finished? ==> DecodeAll(s.file) == Some(s.accepted)
  {
    ReachableInvariant(capacity, threads, [], isOpen, s);
    var rs := s.accepted[..s.saved];
    forall i | 0 <= i < |rs| ensures Fits(rs[i]) {
      assert Loggable(capacity, s.accepted[i]);
    }
    RoundTrip(rs);
    assert s.file == EncodeAll(rs);
    assert s.owner.Finished? ==> rs == s.accepted;
  }

  /** Neither buffer outgrows the capacity, a swap always hands over an empty buffer, and every call
      that passed the first test was either logged or counted as dropped, once it is over. */
  lemma Accounting(capacity: nat, threads: nat, before: seq<byte>, isOpen: bool, s: State)
    requires Reachable(capacity, threads, before, isOpen, s)
    ensures |s.active| <= capacity && |s.flush| <= capacity
    ensures Enabled(s, Swap) ==> s.flush == [] && Apply(capacity, s, Swap).active == []
    ensures s.passed == |s.accepted| + s.dropped + CallsInside(s.producers)
  {
    ReachableInvariant(capacity, threads, before, isOpen, s);
  }

  /** A call is dropped exactly when its record does not fit behind what is waiting, and then leaves no
      byte behind. */
  lemma DropsAreExact(capacity: nat, threads: nat, before: seq<byte>, isOpen: bool, s: State, t: nat)
    requires Reachable(capacity, threads, before, isOpen, s) && Enabled(s, Commit(t))
    ensures s.swapped <= |s.accepted|
    ensures var r, s' := s.producers[t].record, Apply(capacity, s, Commit(t));
      var waiting := EncodeAll(s.accepted[s.swapped..]);
      if |waiting + Encode(r)| > capacity
      then s'.dropped == s.dropped + 1 && s'.accepted == s.accepted && s'.active == waiting
      else s'.dropped == s.dropped && s'.accepted == s.accepted + [r] && s'.active == waiting + Encode(r)
  {
    ReachableInvariant(capacity, threads, before, isOpen, s);
  }

  /** If the file cannot be opened the logger never accepts a record and writes nothing. */
  lemma {:induction false} ClosedFileStaysAsItWas(capacity: nat, s: State, run: seq<Step>)
    requires !s.running && s.worker.Exited? && s.active == [] && s.accepted == [] && IsRun(capacity, s, run)
    requires forall t :: 0 <= t < |s.producers| ==> s.producers[t].Outside?
    ensures Exec(capacity, s, run).file == s.file && Exec(capacity, s, run).accepted == []
    decreases |run|
  {
    if run != [] {
      ClosedFileStaysAsItWas(capacity, Apply(capacity, s, run[0]), run[1..]);
    }
  }
}
