/** Gathering in lock step: until a write fails the pipeline that writes one buffer at a time can look like
    the pipeline with any batch limit after every step, handlers waiting on the strand included. */
module Batching {
  import opened Streams
  import opened SendPipeline
  import opened PipelineInvariants
  import opened PipelineTheorems

  /** The same buffers and the same ring, but one buffer to a write. */
  function Unbatched(c: Setup): Setup { c.(batch := 1) }

  /** Everything a sender, a handler, the peer or the owner of the socket can see. */
  predicate LooksLike<U(==)>(s: State<U>, s1: State<U>) {
    && s1.senders == s.senders && s1.memory == s.memory && s1.posted == s.posted
    && s1.log == s.log && s1.authors == s.authors && s1.issued == s.issued
    && s1.wire == s.wire && s1.open == s.open && s1.failed == s.failed
  }

  predicate Failing<U>(step: Step<U>) { step.Complete? && !step.ok }

  /** The steps of `run` are answered one by one by runs of the unbatched pipeline from `s1`, and the two
      look the same before the first step and after each. */
  ghost predicate Mimics<U>(c: Setup, s: State<U>, run: seq<Step<U>>, s1: State<U>, runs: seq<seq<Step<U>>>)
    requires IsRun(c, s, run)
    decreases |run|
  {
    && LooksLike(s, s1) && |runs| == |run|
    && (run != [] ==>
          && IsRun(Unbatched(c), s1, runs[0])
          && Mimics(c, Apply(c, s, run[0]), run[1..], Exec(Unbatched(c), s1, runs[0]), runs[1..]))
  }

  /** `s1` has recycled more of the queue than `s`, but for that and the wire nothing differs. */
  ghost predicate Ahead<U>(s: State<U>, s1: State<U>) {
    && LooksLike(s.(wire := s1.wire), s1)
    && s.recycled <= s1.recycled <= s.recycled + |s.queue|
    && s1.queue == s.queue[s1.recycled - s.recycled..]
  }

  /** An unbatched pipeline in order, with no buffer lost. */
  ghost predicate Good<U>(c: Setup, s1: State<U>) {
    Invariant(Unbatched(c), s1) && !s1.failed && s1.deleted == {}
  }

  /** The unbatched pipeline is ahead, but still inside the batch of the outstanding write. */
  ghost predicate Tracks<U>(s: State<U>, s1: State<U>) {
    Ahead(s, s1) && s1.wire == s.wire && (s.write.Writing? ==> s1.recycled < s.recycled + s.active)
  }

  ghost predicate Related<U>(c: Setup, s: State<U>, s1: State<U>) {
    Invariant(c, s) && !s.failed && Good(c, s1) && Tracks(s, s1)
  }

  lemma AheadTwice<U>(s: State<U>, s1: State<U>, s2: State<U>)
    requires Ahead(s, s1) && Ahead(s1, s2)
    ensures Ahead(s, s2)
  {
  }

  lemma {:induction false} CountSuffix(q: seq<nat>, j: nat, b: nat)
    requires j <= |q|
    ensures Count(q[j..], b) <= Count(q, b)
  {
    assert q == q[..j] + q[j..];
    CountAppend(q[..j], q[j..], b);
  }

  /** What it recycled early is in its pool, so it never lacks a buffer that the batched one has. */
  lemma PoolIsLarger<U>(c: Setup, s: State<U>, s1: State<U>, b: nat)
    requires Related(c, s, s1) && b in s.pool
    ensures b in s1.pool
  {
    CountSuffix(s.queue, s1.recycled - s.recycled, b);
    assert Places(s, b) == One(b < c.pool);
    assert Places(s1, b) == One(b < c.pool);
  }

  // ---- The writer of the unbatched pipeline.

  /** Its outstanding write ends where the payload it is working on ends. */
  lemma EndOfWrite<U>(c: Setup, s1: State<U>)
    requires Good(c, s1) && s1.queue != []
    ensures s1.write.Writing? && s1.recycled + 1 <= |s1.log|
    ensures |s1.wire| + Unsent(s1) == |Flatten(s1.log[..s1.recycled + 1])| && Unsent(s1) >= 0
  {
    BatchIsLogged(Unbatched(c), s1);
  }

  lemma CompleteOne<U>(c: Setup, s1: State<U>)
    requires Good(c, s1) && c.ring >= c.pool && s1.queue != [] && s1.write.Writing? && Unsent(s1) == 0
    ensures var s2 := Apply(Unbatched(c), s1, Complete(true, {}));
      Good(c, s2) && Ahead(s1, s2) && s2.recycled == s1.recycled + 1 && s2.wire == s1.wire
  {
    InvariantStep(Unbatched(c), s1, Complete(true, {}));
    assert |Batch(s1)| == 1;
  }

  lemma EmitSome<U>(c: Setup, s1: State<U>, n: nat)
    requires Good(c, s1) && c.ring >= c.pool && s1.open && s1.write.Writing? && n <= Unsent(s1)
    ensures var s2 := Apply(Unbatched(c), s1, Emit(n));
      && Good(c, s2) && Ahead(s1, s2) && s2.recycled == s1.recycled && |s2.wire| == |s1.wire| + n
      && s2.queue == s1.queue && s2.write.Writing? && Unsent(s2) == Unsent(s1) - n
  {
    InvariantStep(Unbatched(c), s1, Emit(n));
  }

  /** It can bring its wire to any length up to the end of payload `e`, completing the writes between. */
  lemma {:induction false} EmitTo<U>(c: Setup, s1: State<U>, length: nat, e: nat) returns (run: seq<Step<U>>)
    requires Good(c, s1) && c.ring >= c.pool && s1.open
    requires s1.recycled < e <= s1.recycled + |s1.queue| && e <= |s1.log|
    requires |s1.wire| <= length <= |Flatten(s1.log[..e])|
    ensures IsRun(Unbatched(c), s1, run)
    ensures var s2 := Exec(Unbatched(c), s1, run);
      Good(c, s2) && Ahead(s1, s2) && s2.recycled < e && |s2.wire| == length
    decreases e - s1.recycled
  {
    EndOfWrite(c, s1);
    var n := Min(Unsent(s1), length - |s1.wire|);
    EmitSome(c, s1, n);
    var s2 := Apply(Unbatched(c), s1, Emit(n));
    var rest := [];
    if |s2.wire| < length {
      CompleteOne(c, s2);
      var s3 := Apply(Unbatched(c), s2, Complete(true, {}));
      AheadTwice(s1, s2, s3);
      var more := EmitTo(c, s3, length, e);
      AheadTwice(s1, s3, Exec(Unbatched(c), s3, more));
      ExecOne(Unbatched(c), s2, Complete(true, {}), more);
      rest := [Complete(true, {})] + more;
    }
    ExecOne(Unbatched(c), s1, Emit(n), rest);
    run := [Emit(n)] + rest;
  }

  /** With its wire at the end of payload `e - 1` it can recycle all payloads before `e`, empty ones too. */
  lemma {:induction false} CatchUp<U>(c: Setup, s1: State<U>, e: nat) returns (run: seq<Step<U>>)
    requires Good(c, s1) && c.ring >= c.pool
    requires s1.recycled <= e <= s1.recycled + |s1.queue| && e <= |s1.log|
    requires |s1.wire| == |Flatten(s1.log[..e])|
    ensures IsRun(Unbatched(c), s1, run)
    ensures var s2 := Exec(Unbatched(c), s1, run);
      Good(c, s2) && Ahead(s1, s2) && s2.recycled == e && s2.wire == s1.wire
    decreases e - s1.recycled
  {
    run := [];
    if s1.recycled < e {
      EndOfWrite(c, s1);
      FlattenPrefix(s1.log[..s1.recycled + 1], s1.log[..e]);
      CompleteOne(c, s1);
      var s2 := Apply(Unbatched(c), s1, Complete(true, {}));
      var rest := CatchUp(c, s2, e);
      AheadTwice(s1, s2, Exec(Unbatched(c), s2, rest));
      ExecOne(Unbatched(c), s1, Complete(true, {}), rest);
      run := [Complete(true, {})] + rest;
    }
  }

  // ---- One step of the batched pipeline.

  predicate OfSender<U>(step: Step<U>) {
    step.Begin? || step.Pop? || step.Scribble? || step.Fill? || step.Post? || step.Close?
  }

  lemma MimicSender<U>(c: Setup, s: State<U>, step: Step<U>, s1: State<U>)
    requires Related(c, s, s1) && SoundSetup(c) && Enabled(c, s, step) && OfSender(step)
    ensures Enabled(Unbatched(c), s1, step)
    ensures Tracks(Apply(c, s, step), Apply(Unbatched(c), s1, step))
  {
    if step.Pop? { PoolIsLarger(c, s, s1, step.b); }
  }

  lemma StrandTracks<U>(c: Setup, s: State<U>, s1: State<U>)
    requires Tracks(s, s1) && c.batch >= 1 && s.posted != [] && (s.write.NoWrite? ==> s.queue == [])
    requires s.write.Writing? ==> s.active <= |s.queue|
    requires |s.queue| < c.ring && |s1.queue| < c.ring
    ensures Tracks(Apply(c, s, RunPost), Apply(Unbatched(c), s1, RunPost))
  {
  }

  lemma MimicStrand<U>(c: Setup, s: State<U>, s1: State<U>)
    requires Related(c, s, s1) && SoundSetup(c) && s.posted != []
    ensures Tracks(Apply(c, s, RunPost), Apply(Unbatched(c), s1, RunPost))
  {
    RingHasRoom(c, s);
    RingHasRoom(Unbatched(c), s1);
    StrandTracks(c, s, s1);
  }

  lemma MimicPlainly<U>(c: Setup, s: State<U>, step: Step<U>, s1: State<U>)
    requires Related(c, s, s1) && SoundSetup(c) && Enabled(c, s, step) && (OfSender(step) || step.RunPost?)
    ensures Enabled(Unbatched(c), s1, step)
    ensures Related(c, Apply(c, s, step), Apply(Unbatched(c), s1, step))
  {
    if step.RunPost? { MimicStrand(c, s, s1); } else { MimicSender(c, s, step, s1); }
    InvariantStep(c, s, step);
    InvariantStep(Unbatched(c), s1, step);
  }

  /** Both wires are prefixes of the log, so equal lengths make them equal. */
  lemma WiresAgree<U>(c: Setup, s: State<U>, s1: State<U>)
    requires Invariant(c, s) && Good(c, s1) && s1.log == s.log && |s1.wire| == |s.wire|
    ensures s1.wire == s.wire
  {
    InvariantGivesPrefix(c, s);
    InvariantGivesPrefix(Unbatched(c), s1);
    PrefixesCompare(s.wire, s1.wire, Flatten(s.log));
  }

  /** The outstanding write ends at or before the end of its batch in the log. */
  lemma WireInBatch<U>(c: Setup, s: State<U>)
    requires Invariant(c, s) && !s.failed && s.write.Writing?
    ensures s.recycled + s.active <= |s.log|
    ensures |s.wire| + Unsent(s) == |Flatten(s.log[..s.recycled + s.active])|
  {
    BatchIsLogged(c, s);
  }

  lemma EmissionTracks<U>(c: Setup, s: State<U>, n: nat, s1: State<U>, s2: State<U>)
    requires Invariant(c, s) && SoundSetup(c) && Enabled(c, s, Emit(n)) && Ahead(s, s1)
    requires Good(c, s2) && Ahead(s1, s2) && s2.recycled < s.recycled + s.active && |s2.wire| == |s.wire| + n
    ensures Tracks(Apply(c, s, Emit(n)), s2)
  {
    AheadTwice(s, s1, s2);
    InvariantStep(c, s, Emit(n));
    WiresAgree(c, Apply(c, s, Emit(n)), s2);
  }

  lemma MimicEmit<U>(c: Setup, s: State<U>, n: nat, s1: State<U>) returns (run: seq<Step<U>>)
    requires Related(c, s, s1) && SoundSetup(c) && Enabled(c, s, Emit(n))
    ensures IsRun(Unbatched(c), s1, run)
    ensures Good(c, Exec(Unbatched(c), s1, run)) && Tracks(Apply(c, s, Emit(n)), Exec(Unbatched(c), s1, run))
  {
    WireInBatch(c, s);
    run := EmitTo(c, s1, |s.wire| + n, s.recycled + s.active);
    EmissionTracks(c, s, n, s1, Exec(Unbatched(c), s1, run));
  }

  lemma CompletionCatchesUp<U>(c: Setup, s: State<U>, lost: set<nat>, s2: State<U>)
    requires WriterHolds(c, s) && !s.failed && SoundSetup(c) && Enabled(c, s, Complete(true, lost))
    requires Ahead(s, s2) && s2.wire == s.wire && s2.recycled == s.recycled + s.active
    ensures Tracks(Apply(c, s, Complete(true, lost)), s2)
  {
    assert |Batch(s)| == s.active;
  }

  lemma MimicComplete<U>(c: Setup, s: State<U>, lost: set<nat>, s1: State<U>) returns (run: seq<Step<U>>)
    requires Related(c, s, s1) && SoundSetup(c) && Enabled(c, s, Complete(true, lost))
    ensures IsRun(Unbatched(c), s1, run)
    ensures Good(c, Exec(Unbatched(c), s1, run))
    ensures Tracks(Apply(c, s, Complete(true, lost)), Exec(Unbatched(c), s1, run))
  {
    WireInBatch(c, s);
    run := CatchUp(c, s1, s.recycled + s.active);
    AheadTwice(s, s1, Exec(Unbatched(c), s1, run));
    CompletionCatchesUp(c, s, lost, Exec(Unbatched(c), s1, run));
  }

  /** A step that is no failed completion is answered by a run that keeps the relation. */
  lemma MimicStep<U>(c: Setup, s: State<U>, step: Step<U>, s1: State<U>) returns (run: seq<Step<U>>)
    requires Related(c, s, s1) && SoundSetup(c) && Enabled(c, s, step) && !Failing(step)
    ensures IsRun(Unbatched(c), s1, run)
    ensures Related(c, Apply(c, s, step), Exec(Unbatched(c), s1, run))
  {
    InvariantStep(c, s, step);
    if step.Emit? {
      run := MimicEmit(c, s, step.n, s1);
    } else if step.Complete? {
      run := MimicComplete(c, s, step.lost, s1);
    } else {
      MimicPlainly(c, s, step, s1);
      ExecOne(Unbatched(c), s1, step, []);
      run := [step] + [];
    }
  }

  /** A failed completion is answered by one: both sockets are closed with the same wire. (What the two
      have recycled differs from then on, and with it their pools.) */
  lemma MimicFailure<U>(c: Setup, s: State<U>, step: Step<U>, s1: State<U>) returns (run: seq<Step<U>>)
    requires Related(c, s, s1) && Enabled(c, s, step) && Failing(step)
    ensures IsRun(Unbatched(c), s1, run)
    ensures LooksLike(Apply(c, s, step), Exec(Unbatched(c), s1, run))
  {
    EndOfWrite(c, s1);
    ExecOne(Unbatched(c), s1, Complete(false, {}), []);
    run := [Complete(false, {})] + [];
  }

  lemma MimicsStep<U>(c: Setup, s: State<U>, run: seq<Step<U>>, s1: State<U>, first: seq<Step<U>>,
      rest: seq<seq<Step<U>>>)
    requires LooksLike(s, s1) && IsRun(c, s, run) && run != [] && IsRun(Unbatched(c), s1, first)
    requires Mimics(c, Apply(c, s, run[0]), run[1..], Exec(Unbatched(c), s1, first), rest)
    ensures Mimics(c, s, run, s1, [first] + rest)
  {
    assert ([first] + rest)[1..] == rest;
  }

  lemma RelatedLooksLike<U>(c: Setup, s: State<U>, s1: State<U>)
    requires Related(c, s, s1)
    ensures LooksLike(s, s1)
  {
  }

  lemma MimicLast<U>(c: Setup, s: State<U>, run: seq<Step<U>>, s1: State<U>) returns (runs: seq<seq<Step<U>>>)
    requires Related(c, s, s1) && IsRun(c, s, run) && |run| == 1 && Failing(run[0])
    ensures Mimics(c, s, run, s1, runs)
  {
    RelatedLooksLike(c, s, s1);
    var first := MimicFailure(c, s, run[0], s1);
    MimicsStep(c, s, run, s1, first, []);
    runs := [first] + [];
  }

  lemma {:induction false} MimicRun<U>(c: Setup, s: State<U>, run: seq<Step<U>>, s1: State<U>)
    returns (runs: seq<seq<Step<U>>>)
    requires Related(c, s, s1) && SoundSetup(c) && IsRun(c, s, run)
    requires forall i :: 0 <= i < |run| - 1 ==> !Failing(run[i])
    ensures Mimics(c, s, run, s1, runs)
    decreases |run|
  {
    RelatedLooksLike(c, s, s1);
    runs := [];
    if run != [] && Failing(run[0]) {
      runs := MimicLast(c, s, run, s1);
    } else if run != [] {
      var first := MimicStep(c, s, run[0], s1);
      var rest := MimicRun(c, Apply(c, s, run[0]), run[1..], Exec(Unbatched(c), s1, first));
      MimicsStep(c, s, run, s1, first, rest);
      runs := [first] + rest;
    }
  }

  /** Every run of the pipeline, up to and with the first write that fails, is matched step by step by a run
      of the pipeline that writes one buffer at a time. `LockStep` shows that it ends there. */
  lemma LockStepUntilFailure<U>(c: Setup, threads: nat, run: seq<Step<U>>) returns (runs: seq<seq<Step<U>>>)
    requires SoundSetup(c) && IsRun(c, Init<U>(c, threads), run)
    requires forall i :: 0 <= i < |run| - 1 ==> !Failing(run[i])
    ensures Mimics(c, Init<U>(c, threads), run, Init<U>(Unbatched(c), threads), runs)
  {
    InvariantInit<U>(c, threads);
    InvariantInit<U>(Unbatched(c), threads);
    runs := MimicRun(c, Init<U>(c, threads), run, Init<U>(Unbatched(c), threads));
  }
}
