/** What the past of a logger says, told by its events alone: which records are kept, where they are, and
    what can happen next. The machine of `AsyncLog` moves bytes; here there are only records. */
module LoggerHistory {
  import opened Streams
  import opened RimLog
  import opened AsyncLog

  /** The call thread `t` is in: begun, and its turn under the lock still to come. */
  function InCall(past: seq<Step>, t: nat): Option<Record>
  {
    if past == [] then None
    else
      var n := |past| - 1;
      if past[n] == Commit(t) then None
      else if past[n].Enter? && past[n].t == t then Some(past[n].record)
      else InCall(past[..n], t)
  }

  /** Records kept since the last swap: each call's that fits behind those before it, header included. */
  function Kept(capacity: nat, past: seq<Step>): seq<Record>
    decreases |past|, 0
  {
    if past == [] then []
    else
      var n := |past| - 1;
      if past[n].Swap? then []
      else Kept(capacity, past[..n]) + Admitted(capacity, past[..n], past[n])
  }

  /** What a commit keeps of its call: the record, or nothing. */
  function Admitted(capacity: nat, past: seq<Step>, step: Step): seq<Record>
    decreases |past|, 1
  {
    if step.Commit? && InCall(past, step.t).Some?
       && Size(Kept(capacity, past)) + 16 + |InCall(past, step.t).value.payload| <= capacity
    then [InCall(past, step.t).value] else []
  }

  /** Bytes a list of records takes. */
  function Size(rs: seq<Record>): nat
  {
    if rs == [] then 0 else 16 + |rs[0].payload| + Size(rs[1..])
  }

  /** All records ever kept. */
  function Ever(capacity: nat, past: seq<Step>): seq<Record>
  {
    if past == [] then []
    else var n := |past| - 1; Ever(capacity, past[..n]) + Admitted(capacity, past[..n], past[n])
  }

  /** What the last swap took from the producers, until the worker has cleared it. */
  function Stolen(capacity: nat, past: seq<Step>): seq<Record>
  {
    if past == [] then []
    else
      var n := |past| - 1;
      if past[n].Swap? then Kept(capacity, past[..n])
      else if past[n].Clear? then []
      else Stolen(capacity, past[..n])
  }

  /** What was written to the file: each stolen batch, and at the end what was left. */
  function Written(capacity: nat, past: seq<Step>): seq<Record>
  {
    if past == [] then []
    else
      var n := |past| - 1;
      Written(capacity, past[..n])
        + (if past[n].Write? then Stolen(capacity, past[..n])
           else if past[n].Finish? then Kept(capacity, past[..n]) else [])
  }

  /** Where the worker is: without a file there is none. */
  function WorkerAt(capacity: nat, isOpen: bool, past: seq<Step>): Worker
  {
    if past == [] then if isOpen then Testing else Exited
    else
      var n := |past| - 1;
      match past[n]
      case Test => if Stop in past then Exited else Waiting
      case Swap => Flushing
      case Write => if Stolen(capacity, past[..n]) == [] then Testing else Clearing
      case Clear => Testing
      case _ => WorkerAt(capacity, isOpen, past[..n])
  }

  /** What can happen next. A call begins only on a logger whose file is open and that was not stopped. */
  predicate Possible(capacity: nat, threads: nat, isOpen: bool, past: seq<Step>, step: Step) {
    match step
    case Enter(t, r) =>
      t < threads && InCall(past, t).None? && isOpen && Stop !in past && r.payload != [] && Typed(r)
    case Commit(t) => t < threads && InCall(past, t).Some? && Finish !in past
    case Test => WorkerAt(capacity, isOpen, past) == Testing
    case Swap => WorkerAt(capacity, isOpen, past) == Waiting && (Kept(capacity, past) != [] || Stop in past)
    case Write => WorkerAt(capacity, isOpen, past) == Flushing
    case Clear => WorkerAt(capacity, isOpen, past) == Clearing
    case Stop => Stop !in past
    case Finish => Stop in past && Finish !in past && WorkerAt(capacity, isOpen, past) == Exited
  }

  ghost predicate Lawful(capacity: nat, threads: nat, isOpen: bool, run: seq<Step>) {
    forall i :: 0 <= i < |run| ==> Possible(capacity, threads, isOpen, run[..i], run[i])
  }

  ghost predicate BytesTold(capacity: nat, before: seq<byte>, past: seq<Step>, s: State) {
    && s.active == EncodeAll(Kept(capacity, past)) && s.flush == EncodeAll(Stolen(capacity, past))
    && s.file == before + EncodeAll(Written(capacity, past)) && s.accepted == Ever(capacity, past)
  }

  ghost predicate ControlTold(capacity: nat, threads: nat, isOpen: bool, past: seq<Step>, s: State) {
    && s.running == (isOpen && Stop !in past) && s.worker == WorkerAt(capacity, isOpen, past)
    && s.owner == (if Finish in past then Finished else if Stop in past then Joining else Alive)
    && (Finish in past ==> Stop in past) && (!isOpen ==> s.worker.Exited?)
    && |s.producers| == threads
    && forall t :: 0 <= t < threads ==>
         s.producers[t] == (if InCall(past, t).None? then Outside else Inside(InCall(past, t).value))
  }

  lemma {:induction false} SizeIsBytes(rs: seq<Record>)
    ensures Size(rs) == |EncodeAll(rs)| && (EncodeAll(rs) == [] <==> rs == [])
  {
    if rs != [] { SizeIsBytes(rs[1..]); }
  }

  lemma EnabledIsPossible(capacity: nat, threads: nat, isOpen: bool, before: seq<byte>, past: seq<Step>, s: State,
                          x: Step)
    requires ControlTold(capacity, threads, isOpen, past, s) && BytesTold(capacity, before, past, s)
    ensures Enabled(s, x) <==> Possible(capacity, threads, isOpen, past, x)
  {
    SizeIsBytes(Kept(capacity, past));
  }

  // ---- One more event.

  /** Every function of the past looks at its last event. */
  lemma Front(past: seq<Step>, x: Step)
    ensures (past + [x])[..|past|] == past && (past + [x])[|past|] == x && |past + [x]| - 1 == |past|
  {
  }

  lemma CommitTold(capacity: nat, threads: nat, isOpen: bool, before: seq<byte>, past: seq<Step>, s: State, t: nat)
    requires ControlTold(capacity, threads, isOpen, past, s) && BytesTold(capacity, before, past, s)
    requires Enabled(s, Commit(t))
    ensures var s', kept := Apply(capacity, s, Commit(t)), Admitted(capacity, past, Commit(t));
      && s'.active == s.active + EncodeAll(kept) && s'.accepted == s.accepted + kept
      && s'.flush == s.flush && s'.file == s.file
  {
    SizeIsBytes(Kept(capacity, past));
    var r := s.producers[t].record;
    assert EncodeAll([r]) == Encode(r) + EncodeAll([r][1..]);
  }

  /** What each event does to the lists of records. */
  lemma ListsNext(capacity: nat, past: seq<Step>, x: Step)
    ensures var all, kept := past + [x], Admitted(capacity, past, x);
      && Kept(capacity, all) == (if x.Swap? then [] else Kept(capacity, past) + kept)
      && Ever(capacity, all) == Ever(capacity, past) + kept
      && Stolen(capacity, all) ==
           (if x.Swap? then Kept(capacity, past) else if x.Clear? then [] else Stolen(capacity, past))
      && Written(capacity, all) == Written(capacity, past) + Saved(capacity, past, x)
  {
    Front(past, x);
  }

  /** What an event adds to the file. */
  function Saved(capacity: nat, past: seq<Step>, x: Step): seq<Record>
  {
    if x.Write? then Stolen(capacity, past) else if x.Finish? then Kept(capacity, past) else []
  }

  lemma SavedTold(capacity: nat, before: seq<byte>, past: seq<Step>, s: State, x: Step)
    requires BytesTold(capacity, before, past, s) && Enabled(s, x)
    ensures Apply(capacity, s, x).file == s.file + EncodeAll(Saved(capacity, past, x))
    ensures x.Write? && s.flush == [] ==> Saved(capacity, past, x) == []
  {
    SizeIsBytes(Stolen(capacity, past));
    SizeIsBytes(Kept(capacity, past));
  }

  lemma KeptNext(capacity: nat, threads: nat, isOpen: bool, before: seq<byte>, past: seq<Step>, s: State, x: Step)
    requires ControlTold(capacity, threads, isOpen, past, s) && BytesTold(capacity, before, past, s)
    requires Enabled(s, x) && (x.Swap? ==> Stolen(capacity, past) == [])
    ensures Apply(capacity, s, x).active == EncodeAll(Kept(capacity, past + [x]))
    ensures Apply(capacity, s, x).accepted == Ever(capacity, past + [x])
  {
    ListsNext(capacity, past, x);
    if x.Commit? {
      CommitTold(capacity, threads, isOpen, before, past, s, x.t);
      EncodeAllAppend(Kept(capacity, past), Admitted(capacity, past, x));
    } else {
      assert Ever(capacity, past + [x]) == Ever(capacity, past);
      assert !x.Swap? ==> Kept(capacity, past + [x]) == Kept(capacity, past);
    }
  }

  lemma FileNext(capacity: nat, before: seq<byte>, past: seq<Step>, s: State, x: Step)
    requires BytesTold(capacity, before, past, s) && Enabled(s, x)
    ensures Apply(capacity, s, x).file == before + EncodeAll(Written(capacity, past + [x]))
  {
    ListsNext(capacity, past, x);
    SavedTold(capacity, before, past, s, x);
    EncodeAllAppend(Written(capacity, past), Saved(capacity, past, x));
    Associative(before, EncodeAll(Written(capacity, past)), EncodeAll(Saved(capacity, past, x)));
  }

  lemma BytesNext(capacity: nat, threads: nat, isOpen: bool, before: seq<byte>, past: seq<Step>, s: State, x: Step)
    requires ControlTold(capacity, threads, isOpen, past, s) && BytesTold(capacity, before, past, s)
    requires Enabled(s, x) && (x.Swap? ==> Stolen(capacity, past) == [])
    ensures BytesTold(capacity, before, past + [x], Apply(capacity, s, x))
  {
    KeptNext(capacity, threads, isOpen, before, past, s, x);
    FileNext(capacity, before, past, s, x);
    ListsNext(capacity, past, x);
  }

  lemma ControlNext(capacity: nat, threads: nat, isOpen: bool, before: seq<byte>, past: seq<Step>, s: State, x: Step)
    requires ControlTold(capacity, threads, isOpen, past, s) && BytesTold(capacity, before, past, s) && Enabled(s, x)
    ensures ControlTold(capacity, threads, isOpen, past + [x], Apply(capacity, s, x))
  {
    Front(past, x);
    SizeIsBytes(Stolen(capacity, past));
  }

  lemma LawfulLast(capacity: nat, threads: nat, isOpen: bool, past: seq<Step>, x: Step)
    ensures Lawful(capacity, threads, isOpen, past + [x])
        <==> Lawful(capacity, threads, isOpen, past) && Possible(capacity, threads, isOpen, past, x)
  {
    var all, n := past + [x], |past|;
    assert all[..n] == past && all[n] == x;
    assert forall i :: 0 <= i < n ==> all[..i] == past[..i] && all[i] == past[i];
    if Lawful(capacity, threads, isOpen, all) {
      assert Possible(capacity, threads, isOpen, all[..n], all[n]);
      forall i | 0 <= i < n ensures Possible(capacity, threads, isOpen, past[..i], past[i]) {
        assert Possible(capacity, threads, isOpen, all[..i], all[i]);
      }
    }
  }

  lemma {:induction false} RunLast(capacity: nat, s: State, run: seq<Step>)
    requires run != []
    ensures var n := |run| - 1;
      && (IsRun(capacity, s, run) <==> IsRun(capacity, s, run[..n]) && Enabled(Exec(capacity, s, run[..n]), run[n]))
      && (IsRun(capacity, s, run) ==> Exec(capacity, s, run) == Apply(capacity, Exec(capacity, s, run[..n]), run[n]))
    decreases |run|
  {
    var n := |run| - 1;
    if n == 0 {
      assert run[..0] == [] && run[1..] == [];
    } else if Enabled(s, run[0]) {
      assert run[1..][..n - 1] == run[..n][1..] && run[..n][0] == run[0];
      RunLast(capacity, Apply(capacity, s, run[0]), run[1..]);
    }
  }

  /** The runs of the logger are exactly the lawful ones; its buffers and its file hold the records, and its
      threads are where, the past says. */
  lemma {:induction false} RunsAreExact(capacity: nat, threads: nat, before: seq<byte>, isOpen: bool, run: seq<Step>)
    ensures IsRun(capacity, AsyncLog.Init(threads, before, isOpen), run) <==> Lawful(capacity, threads, isOpen, run)
    ensures var init := AsyncLog.Init(threads, before, isOpen);
      IsRun(capacity, init, run) ==>
        && ControlTold(capacity, threads, isOpen, run, Exec(capacity, init, run))
        && BytesTold(capacity, before, run, Exec(capacity, init, run))
    decreases |run|
  {
    var init := AsyncLog.Init(threads, before, isOpen);
    if run != [] {
      var n := |run| - 1;
      var past, x := run[..n], run[n];
      assert run == past + [x];
      RunsAreExact(capacity, threads, before, isOpen, past);
      RunLast(capacity, init, run);
      LawfulLast(capacity, threads, isOpen, past, x);
      if IsRun(capacity, init, past) {
        var s := Exec(capacity, init, past);
        EnabledIsPossible(capacity, threads, isOpen, before, past, s, x);
        if Enabled(s, x) {
          if x.Swap? { NothingStolen(capacity, threads, before, isOpen, past); }
          BytesNext(capacity, threads, isOpen, before, past, s, x);
          ControlNext(capacity, threads, isOpen, before, past, s, x);
        }
      }
    }
  }

  lemma NothingStolen(capacity: nat, threads: nat, before: seq<byte>, isOpen: bool, past: seq<Step>)
    requires IsRun(capacity, AsyncLog.Init(threads, before, isOpen), past)
    requires var s := Exec(capacity, AsyncLog.Init(threads, before, isOpen), past);
      BytesTold(capacity, before, past, s) && s.worker.Waiting?
    ensures Stolen(capacity, past) == []
  {
    var s := Exec(capacity, AsyncLog.Init(threads, before, isOpen), past);
    assert Reachable(capacity, threads, before, isOpen, s);
    ReachableInvariant(capacity, threads, before, isOpen, s);
    SizeIsBytes(Stolen(capacity, past));
  }

  // ---- What that gives.

  lemma {:induction false} NoCallWithoutEntry(past: seq<Step>, t: nat)
    requires forall i :: 0 <= i < |past| ==> !past[i].Enter?
    ensures InCall(past, t).None?
  {
    if past != [] { NoCallWithoutEntry(past[..|past| - 1], t); }
  }

  /** A logger whose file did not open lets no call in, whatever happens: nothing is kept and the file is not
      touched. */
  lemma ClosedFileLogsNothing(capacity: nat, threads: nat, before: seq<byte>, run: seq<Step>)
    requires IsRun(capacity, AsyncLog.Init(threads, before, false), run)
    ensures forall i :: 0 <= i < |run| ==> !run[i].Enter? && !run[i].Commit?
    ensures var s := Exec(capacity, AsyncLog.Init(threads, before, false), run); s.file == before && s.accepted == []
  {
    RunsAreExact(capacity, threads, before, false, run);
    forall i | 0 <= i < |run| ensures !run[i].Enter? {
      assert Possible(capacity, threads, false, run[..i], run[i]);
    }
    forall i | 0 <= i < |run| ensures !run[i].Commit? {
      assert Possible(capacity, threads, false, run[..i], run[i]);
      if run[i].Commit? { NoCallWithoutEntry(run[..i], run[i].t); }
    }
    assert forall t :: 0 <= t < threads ==> AsyncLog.Init(threads, before, false).producers[t].Outside?;
    ClosedFileStaysAsItWas(capacity, AsyncLog.Init(threads, before, false), run);
  }
}
