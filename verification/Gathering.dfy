/** Whatever can be seen of a pipeline that gathers buffers into one write can be seen of the same pipeline
    that writes one buffer at a time: on every run, with failures, closes and later posts. The unbatched
    pipeline puts off the handlers on its strand until their payload is due on the wire, so that a failed
    write strands nothing in its ring. */
module Gathering {
  import opened Streams
  import opened SendPipeline
  import opened PipelineInvariants
  import opened Batching

  /** Everything a sender, the peer or the owner of the socket can see: all but what waits on the strand. */
  predicate SeenAlike<U(==)>(s: State<U>, s1: State<U>) {
    LooksLike(s.(posted := s1.posted), s1)
  }

  /** The steps of `run` are answered one by one by runs of the unbatched pipeline from `s1`, and the two
      are seen alike before the first step and after each. */
  ghost predicate Follows<U>(c: Setup, s: State<U>, run: seq<Step<U>>, s1: State<U>, runs: seq<seq<Step<U>>>)
    requires IsRun(c, s, run)
    decreases |run|
  {
    && SeenAlike(s, s1) && |runs| == |run|
    && (run != [] ==>
          && IsRun(Unbatched(c), s1, runs[0])
          && Follows(c, Apply(c, s, run[0]), run[1..], Exec(Unbatched(c), s1, runs[0]), runs[1..]))
  }

  /** The buffers on their way, oldest first: in the ring and in posted handlers. */
  function Line<U>(s: State<U>): seq<nat> { s.queue + s.posted }

  /** `s1` has more of its line recycled than `s`; but for that, the strand and the wire nothing differs. */
  ghost predicate Onward<U>(s: State<U>, s1: State<U>) {
    && SeenAlike(s.(wire := s1.wire), s1)
    && s.recycled <= s1.recycled <= s.recycled + |Line(s)|
    && Line(s1) == Line(s)[s1.recycled - s.recycled..]
  }

  function InWrite<U>(s: State<U>): nat { if s.write.Writing? then s.active else 0 }

  /** Until a write fails: the unbatched pipeline is inside the batch of the outstanding write, and has run
      no handler beyond it and at most one that it is not through with. */
  ghost predicate Tracking<U>(s: State<U>, s1: State<U>) {
    && Onward(s, s1) && s1.wire == s.wire && |s1.queue| <= 1
    && s1.recycled + |s1.queue| <= s.recycled + InWrite(s)
    && (s.write.Writing? ==> s1.recycled < s.recycled + s.active)
  }

  ghost predicate BeforeFailure<U>(c: Setup, s: State<U>, s1: State<U>) {
    Invariant(c, s) && !s.failed && Good(c, s1) && Tracking(s, s1)
  }

  /** Nothing in its ring, no buffer lost. */
  ghost predicate AtRest<U>(c: Setup, s1: State<U>) {
    Invariant(Unbatched(c), s1) && s1.deleted == {} && s1.queue == [] && s1.write.NoWrite?
  }

  ghost predicate AfterFailure<U>(c: Setup, s: State<U>, s1: State<U>) {
    Invariant(c, s) && s.failed && AtRest(c, s1) && LooksLike(s, s1)
  }

  ghost predicate Linked<U>(c: Setup, s: State<U>, s1: State<U>) {
    BeforeFailure(c, s, s1) || AfterFailure(c, s, s1)
  }

  lemma OnwardTwice<U>(s: State<U>, s1: State<U>, s2: State<U>)
    requires Onward(s, s1) && Onward(s1, s2)
    ensures Onward(s, s2)
  {
  }

  /** It never lacks a buffer that the batched pipeline has: less of its line is left. */
  lemma HasTheBuffer<U>(c: Setup, s: State<U>, s1: State<U>, j: nat, b: nat)
    requires Conserved(c, s) && Conserved(Unbatched(c), s1) && s1.deleted == {} && s1.senders == s.senders
    requires j <= |Line(s)| && Line(s1) == Line(s)[j..] && b in s.pool
    ensures b in s1.pool
  {
    CountSuffix(Line(s), j, b);
    CountAppend(s.queue, s.posted, b);
    CountAppend(s1.queue, s1.posted, b);
    assert Places(s, b) == One(b < c.pool);
    assert Places(s1, b) == One(b < c.pool);
  }

  // ---- What the unbatched pipeline does.

  /** It runs a handler it has put off and starts the write of that buffer. */
  lemma StartNext<U>(c: Setup, s1: State<U>)
    requires Invariant(Unbatched(c), s1) && c.ring >= c.pool && s1.queue == [] && s1.posted != []
    ensures var s2 := Apply(Unbatched(c), s1, RunPost);
      && Invariant(Unbatched(c), s2) && Onward(s1, s2) && s2.recycled == s1.recycled && s2.wire == s1.wire
      && s2.queue == [s1.posted[0]] && s2.posted == s1.posted[1..] && s2.write.Writing?
      && s2.deleted == s1.deleted && s2.failed == s1.failed
  {
    RingHasRoom(Unbatched(c), s1);
    InvariantStep(Unbatched(c), s1, RunPost);
  }

  lemma AheadIsOnward<U>(s1: State<U>, s2: State<U>)
    requires Ahead(s1, s2)
    ensures Onward(s1, s2)
  {
  }

  /** It can bring its wire to any length up to the end of payload `e`, and runs no handler beyond. */
  lemma {:induction false} WriteTo<U>(c: Setup, s1: State<U>, length: nat, e: nat) returns (run: seq<Step<U>>)
    requires Good(c, s1) && c.ring >= c.pool && s1.open && |s1.queue| <= 1
    requires s1.recycled < e <= s1.recycled + |Line(s1)| && e <= |s1.log|
    requires |s1.wire| <= length <= |Flatten(s1.log[..e])|
    ensures IsRun(Unbatched(c), s1, run)
    ensures var s2 := Exec(Unbatched(c), s1, run);
      && Good(c, s2) && Onward(s1, s2) && |s2.queue| <= 1
      && s2.recycled < e && s2.recycled + |s2.queue| <= e && |s2.wire| == length
    decreases e - s1.recycled, 1 - |s1.queue|
  {
    if s1.queue == [] {
      StartNext(c, s1);
      run := AndThenWriteTo(c, s1, RunPost, length, e);
    } else {
      EndOfWrite(c, s1);
      var n := Min(Unsent(s1), length - |s1.wire|);
      EmitSome(c, s1, n);
      var s2 := Apply(Unbatched(c), s1, Emit(n));
      AheadIsOnward(s1, s2);
      var rest := [];
      if |s2.wire| < length {
        CompleteOne(c, s2);
        AheadIsOnward(s2, Apply(Unbatched(c), s2, Complete(true, {})));
        rest := AndThenWriteTo(c, s2, Complete(true, {}), length, e);
        OnwardTwice(s1, s2, Exec(Unbatched(c), s2, rest));
      }
      ExecOne(Unbatched(c), s1, Emit(n), rest);
      run := [Emit(n)] + rest;
    }
  }

  lemma {:induction false} AndThenWriteTo<U>(c: Setup, s1: State<U>, step: Step<U>, length: nat, e: nat)
    returns (run: seq<Step<U>>)
    requires Enabled(Unbatched(c), s1, step) && c.ring >= c.pool && e <= |s1.log|
    requires var s2 := Apply(Unbatched(c), s1, step);
      && Good(c, s2) && Onward(s1, s2) && s2.open && |s2.queue| <= 1 && s2.recycled < e <= s2.recycled + |Line(s2)|
      && |s2.wire| <= length <= |Flatten(s2.log[..e])|
      && (s1.recycled < s2.recycled || (s1.recycled == s2.recycled && |s1.queue| < |s2.queue|))
    requires s1.recycled < e
    ensures IsRun(Unbatched(c), s1, run)
    ensures var s3 := Exec(Unbatched(c), s1, run);
      && Good(c, s3) && Onward(s1, s3) && |s3.queue| <= 1
      && s3.recycled < e && s3.recycled + |s3.queue| <= e && |s3.wire| == length
    decreases e - s1.recycled, 1 - |s1.queue|, 0
  {
    var s2 := Apply(Unbatched(c), s1, step);
    var rest := WriteTo(c, s2, length, e);
    ExecOne(Unbatched(c), s1, step, rest);
    OnwardTwice(s1, s2, Exec(Unbatched(c), s2, rest));
    run := [step] + rest;
  }

  /** With its wire at the end of payload `e - 1` it can recycle all payloads before `e`, empty ones too. */
  lemma {:induction false} RecycleTo<U>(c: Setup, s1: State<U>, e: nat) returns (run: seq<Step<U>>)
    requires Good(c, s1) && c.ring >= c.pool && |s1.queue| <= 1
    requires s1.recycled + |s1.queue| <= e <= s1.recycled + |Line(s1)| && e <= |s1.log|
    requires |s1.wire| == |Flatten(s1.log[..e])|
    ensures IsRun(Unbatched(c), s1, run)
    ensures var s2 := Exec(Unbatched(c), s1, run);
      Good(c, s2) && Onward(s1, s2) && s2.recycled == e && s2.queue == [] && s2.wire == s1.wire
    decreases e - s1.recycled, 1 - |s1.queue|
  {
    run := [];
    if s1.recycled < e {
      var step;
      if s1.queue == [] {
        StartNext(c, s1);
        step := RunPost;
      } else {
        EndOfWrite(c, s1);
        FlattenPrefix(s1.log[..s1.recycled + 1], s1.log[..e]);
        CompleteOne(c, s1);
        step := Complete(true, {});
        AheadIsOnward(s1, Apply(Unbatched(c), s1, step));
      }
      var s2 := Apply(Unbatched(c), s1, step);
      var rest := RecycleTo(c, s2, e);
      OnwardTwice(s1, s2, Exec(Unbatched(c), s2, rest));
      ExecOne(Unbatched(c), s1, step, rest);
      run := [step] + rest;
    }
  }

  /** The handlers it has put off down to the last `m`: the end of a stretch of its run. */
  ghost predicate Leaves<U>(s1: State<U>, s2: State<U>, m: nat) {
    && m <= |s1.posted| && s2.posted == s1.posted[|s1.posted| - m..]
    && s2.senders == s1.senders && s2.memory == s1.memory && s2.wire == s1.wire
    && s2.log == s1.log && s2.authors == s1.authors && s2.issued == s1.issued
  }

  lemma LeavesTwice<U>(s1: State<U>, s2: State<U>, s3: State<U>, m: nat)
    requires Leaves(s1, s2, |s2.posted|) && Leaves(s2, s3, m)
    ensures Leaves(s1, s3, m)
  {
  }

  /** One step of `FailAll`. */
  lemma FailStep<U>(c: Setup, s1: State<U>, m: nat) returns (step: Step<U>)
    requires Failable(c, s1, m) && c.ring >= c.pool && (s1.queue != [] || |s1.posted| > m)
    ensures Enabled(Unbatched(c), s1, step)
    ensures var s2 := Apply(Unbatched(c), s1, step);
      && Failable(c, s2, m) && Leaves(s1, s2, |s2.posted|)
      && (|s2.posted| < |s1.posted| || (|s2.posted| == |s1.posted| && |s2.queue| < |s1.queue|))
  {
    if s1.queue == [] {
      StartNext(c, s1);
      step := RunPost;
    } else {
      FailOne(c, s1);
      step := Complete(false, {});
    }
  }

  /** At most one buffer in the ring, and something to fail or a failure already. */
  ghost predicate Failable<U>(c: Setup, s1: State<U>, m: nat) {
    && Invariant(Unbatched(c), s1) && s1.deleted == {} && |s1.queue| <= 1 && m <= |s1.posted|
    && (s1.queue == [] <==> s1.write.NoWrite?) && (s1.failed || |Line(s1)| > m)
  }

  lemma FailOne<U>(c: Setup, s1: State<U>)
    requires Invariant(Unbatched(c), s1) && c.ring >= c.pool && s1.deleted == {} && |s1.queue| <= 1 && s1.write.Writing?
    ensures var s2 := Apply(Unbatched(c), s1, Complete(false, {}));
      AtRest(c, s2) && s2.failed && !s2.open && Leaves(s1, s2, |s1.posted|)
  {
    InvariantStep(Unbatched(c), s1, Complete(false, {}));
  }

  /** Every write it starts may fail: so it gives back all buffers but those of the last `m` handlers. */
  lemma {:induction false} FailAll<U>(c: Setup, s1: State<U>, m: nat) returns (run: seq<Step<U>>)
    requires Failable(c, s1, m) && c.ring >= c.pool
    ensures IsRun(Unbatched(c), s1, run)
    ensures var s2 := Exec(Unbatched(c), s1, run);
      AtRest(c, s2) && s2.failed && !s2.open && Leaves(s1, s2, m)
    decreases |s1.posted|, |s1.queue|
  {
    run := [];
    if s1.queue != [] || |s1.posted| > m {
      var step := FailStep(c, s1, m);
      var s2 := Apply(Unbatched(c), s1, step);
      var rest := FailAll(c, s2, m);
      LeavesTwice(s1, s2, Exec(Unbatched(c), s2, rest), m);
      ExecOne(Unbatched(c), s1, step, rest);
      run := [step] + rest;
    }
  }

  lemma RunOne<U>(c: Setup, s1: State<U>)
    requires Good(c, s1) && c.ring >= c.pool && s1.posted != []
    ensures var s2 := Apply(Unbatched(c), s1, RunPost);
      && Good(c, s2) && s2.open == s1.open && Leaves(s1, s2, |s1.posted| - 1)
  {
    InvariantStep(Unbatched(c), s1, RunPost);
  }

  /** It can run the handlers it has put off at any time. */
  lemma {:induction false} RunHandlers<U>(c: Setup, s1: State<U>, m: nat) returns (run: seq<Step<U>>)
    requires Good(c, s1) && c.ring >= c.pool && m <= |s1.posted|
    ensures IsRun(Unbatched(c), s1, run)
    ensures var s2 := Exec(Unbatched(c), s1, run);
      Good(c, s2) && s2.open == s1.open && Leaves(s1, s2, m)
    decreases |s1.posted|
  {
    run := [];
    if |s1.posted| > m {
      RunOne(c, s1);
      var s2 := Apply(Unbatched(c), s1, RunPost);
      var rest := RunHandlers(c, s2, m);
      LeavesTwice(s1, s2, Exec(Unbatched(c), s2, rest), m);
      ExecOne(Unbatched(c), s1, RunPost, rest);
      run := [RunPost] + rest;
    }
  }

  // ---- One step of the batched pipeline, before a failure.

  lemma SenderTracks<U>(c: Setup, s: State<U>, step: Step<U>, s1: State<U>)
    requires Tracking(s, s1) && OfSender(step) && Enabled(c, s, step) && Enabled(Unbatched(c), s1, step)
    requires s1.recycled - s.recycled <= |s.queue|
    ensures Tracking(Apply(c, s, step), Apply(Unbatched(c), s1, step))
  {
    if step.Post? {
      var b := s.senders[step.t].buf;
      assert s.queue + (s.posted + [b]) == Line(s) + [b];
      assert s1.queue + (s1.posted + [b]) == Line(s1) + [b];
    }
  }

  lemma SenderAllowed<U>(c: Setup, s: State<U>, step: Step<U>, s1: State<U>)
    requires BeforeFailure(c, s, s1) && Enabled(c, s, step) && OfSender(step)
    ensures Enabled(Unbatched(c), s1, step)
  {
    if step.Pop? { HasTheBuffer(c, s, s1, s1.recycled - s.recycled, step.b); }
  }

  lemma FollowSender<U>(c: Setup, s: State<U>, step: Step<U>, s1: State<U>)
    requires BeforeFailure(c, s, s1) && SoundSetup(c) && Enabled(c, s, step) && OfSender(step)
    ensures Enabled(Unbatched(c), s1, step)
    ensures Good(c, Apply(Unbatched(c), s1, step)) && Tracking(Apply(c, s, step), Apply(Unbatched(c), s1, step))
  {
    SenderAllowed(c, s, step, s1);
    SenderTracks(c, s, step, s1);
    InvariantStep(Unbatched(c), s1, step);
  }

  lemma WaitingTracks<U>(s: State<U>, s': State<U>, s1: State<U>)
    requires Tracking(s, s1) && SeenAlike(s, s') && Line(s') == Line(s) && s'.recycled == s.recycled
    requires if s.write.Writing? then s'.write.Writing? && s'.active == s.active else s1.recycled == s.recycled
    requires s'.write.Writing? ==> s'.active >= 1
    ensures Tracking(s', s1)
  {
  }

  /** When the batched pipeline runs a handler the other one waits. */
  lemma FollowStrand<U>(c: Setup, s: State<U>, s1: State<U>)
    requires Conserved(c, s) && WriterHolds(c, s) && !s.failed && SoundSetup(c) && s.posted != [] && Tracking(s, s1)
    ensures Tracking(Apply(c, s, RunPost), s1)
  {
    RingHasRoom(c, s);
    assert s.queue + [s.posted[0]] + s.posted[1..] == Line(s);
    WaitingTracks(s, Apply(c, s, RunPost), s1);
  }

  lemma WireAfterEmission<U>(c: Setup, s: State<U>, n: nat, s2: State<U>)
    requires Invariant(c, s) && SoundSetup(c) && Enabled(c, s, Emit(n)) && Good(c, s2)
    requires s2.log == s.log && |s2.wire| == |s.wire| + n
    ensures Apply(c, s, Emit(n)).wire == s2.wire
  {
    InvariantStep(c, s, Emit(n));
    WiresAgree(c, Apply(c, s, Emit(n)), s2);
  }

  lemma EmissionIsTracked<U>(c: Setup, s: State<U>, n: nat, s1: State<U>, s2: State<U>)
    requires Enabled(c, s, Emit(n)) && Onward(s, s1) && Onward(s1, s2) && |s2.queue| <= 1
    requires Apply(c, s, Emit(n)).wire == s2.wire
    requires s2.recycled < s.recycled + s.active && s2.recycled + |s2.queue| <= s.recycled + s.active
    ensures Tracking(Apply(c, s, Emit(n)), s2)
  {
    OnwardTwice(s, s1, s2);
  }

  /** The batch of the outstanding write is the front of the line of both. */
  lemma BatchIsInLine<U>(c: Setup, s: State<U>, s1: State<U>)
    requires BeforeFailure(c, s, s1) && s.write.Writing?
    ensures s.recycled + s.active <= |s.log| && s.recycled + s.active <= s1.recycled + |Line(s1)|
    ensures |s.wire| + Unsent(s) == |Flatten(s.log[..s.recycled + s.active])|
  {
    WireInBatch(c, s);
  }

  lemma FollowEmit<U>(c: Setup, s: State<U>, n: nat, s1: State<U>) returns (run: seq<Step<U>>)
    requires BeforeFailure(c, s, s1) && SoundSetup(c) && Enabled(c, s, Emit(n))
    ensures IsRun(Unbatched(c), s1, run)
    ensures Good(c, Exec(Unbatched(c), s1, run)) && Tracking(Apply(c, s, Emit(n)), Exec(Unbatched(c), s1, run))
  {
    BatchIsInLine(c, s, s1);
    run := WriteTo(c, s1, |s.wire| + n, s.recycled + s.active);
    WireAfterEmission(c, s, n, Exec(Unbatched(c), s1, run));
    EmissionIsTracked(c, s, n, s1, Exec(Unbatched(c), s1, run));
  }

  lemma CompletionShape<U>(c: Setup, s: State<U>, lost: set<nat>)
    requires WriterHolds(c, s) && SoundSetup(c) && Enabled(c, s, Complete(true, lost))
    ensures var s' := Apply(c, s, Complete(true, lost));
      && SeenAlike(s, s') && s'.posted == s.posted && s.active <= |s.queue| && s'.queue == s.queue[s.active..]
      && s'.recycled == s.recycled + s.active && (s'.write.Writing? ==> s'.active >= 1)
  {
    assert |Batch(s)| == s.active;
  }

  lemma CompletionTracks<U>(s: State<U>, s': State<U>, s2: State<U>)
    requires SeenAlike(s, s') && s'.posted == s.posted && s.active <= |s.queue| && s'.queue == s.queue[s.active..]
    requires s'.recycled == s.recycled + s.active && (s'.write.Writing? ==> s'.active >= 1)
    requires Onward(s, s2) && s2.wire == s.wire && s2.recycled == s'.recycled && s2.queue == []
    ensures Tracking(s', s2)
  {
    assert s.queue[s.active..] + s.posted == Line(s)[s.active..];
  }

  lemma FollowComplete<U>(c: Setup, s: State<U>, lost: set<nat>, s1: State<U>) returns (run: seq<Step<U>>)
    requires BeforeFailure(c, s, s1) && SoundSetup(c) && Enabled(c, s, Complete(true, lost))
    ensures IsRun(Unbatched(c), s1, run)
    ensures Good(c, Exec(Unbatched(c), s1, run))
    ensures Tracking(Apply(c, s, Complete(true, lost)), Exec(Unbatched(c), s1, run))
  {
    BatchIsInLine(c, s, s1);
    run := RecycleTo(c, s1, s.recycled + s.active);
    OnwardTwice(s, s1, Exec(Unbatched(c), s1, run));
    CompletionShape(c, s, lost);
    CompletionTracks(s, Apply(c, s, Complete(true, lost)), Exec(Unbatched(c), s1, run));
  }

  /** What the batched pipeline has posted are the last of the handlers that the other one has. */
  lemma PostedIsSuffix<U>(c: Setup, s: State<U>, s1: State<U>)
    requires WriterHolds(c, s) && Tracking(s, s1)
    ensures |s.posted| <= |s1.posted| && s1.posted[|s1.posted| - |s.posted|..] == s.posted
    ensures s.write.Writing? ==> |Line(s1)| > |s.posted|
  {
    var j := s1.recycled - s.recycled;
    assert s1.posted == Line(s1)[|s1.queue|..] == Line(s)[j + |s1.queue|..];
    assert |s1.posted| - |s.posted| == |s.queue| - j - |s1.queue|;
  }

  lemma CanFail<U>(c: Setup, s: State<U>, s1: State<U>)
    requires BeforeFailure(c, s, s1) && s.write.Writing?
    ensures Failable(c, s1, |s.posted|) && s1.posted[|s1.posted| - |s.posted|..] == s.posted
  {
    PostedIsSuffix(c, s, s1);
  }

  lemma FollowFailure<U>(c: Setup, s: State<U>, s1: State<U>) returns (run: seq<Step<U>>)
    requires BeforeFailure(c, s, s1) && SoundSetup(c) && s.write.Writing?
    ensures IsRun(Unbatched(c), s1, run)
    ensures var s2 := Exec(Unbatched(c), s1, run);
      AtRest(c, s2) && s2.failed && !s2.open && s2.posted == s.posted && Leaves(s1, s2, |s.posted|)
  {
    CanFail(c, s, s1);
    run := FailAll(c, s1, |s.posted|);
  }

  lemma FailuresLookAlike<U>(c: Setup, s: State<U>, lost: set<nat>, s1: State<U>, s2: State<U>)
    requires Enabled(c, s, Complete(false, lost)) && SeenAlike(s, s1) && Leaves(s1, s2, |s.posted|)
    requires s2.posted == s.posted && s2.failed && !s2.open && s1.wire == s.wire
    ensures LooksLike(Apply(c, s, Complete(false, lost)), s2)
  {
  }

  // ---- ... and after one.

  lemma SenderAllowedAfter<U>(c: Setup, s: State<U>, step: Step<U>, s1: State<U>)
    requires AfterFailure(c, s, s1) && Enabled(c, s, step) && OfSender(step)
    ensures Enabled(Unbatched(c), s1, step)
  {
    if step.Pop? {
      assert Line(s)[|s.queue|..] == s.posted == Line(s1);
      HasTheBuffer(c, s, s1, |s.queue|, step.b);
    }
  }

  lemma FollowSenderAfter<U>(c: Setup, s: State<U>, step: Step<U>, s1: State<U>)
    requires AfterFailure(c, s, s1) && SoundSetup(c) && Enabled(c, s, step) && OfSender(step)
    ensures Enabled(Unbatched(c), s1, step)
    ensures AtRest(c, Apply(Unbatched(c), s1, step)) && LooksLike(Apply(c, s, step), Apply(Unbatched(c), s1, step))
  {
    SenderAllowedAfter(c, s, step, s1);
    InvariantStep(Unbatched(c), s1, step);
  }

  /** A handler is answered by running it and failing the write it starts. */
  lemma FollowStrandAfter<U>(c: Setup, s: State<U>, s1: State<U>) returns (run: seq<Step<U>>)
    requires AfterFailure(c, s, s1) && SoundSetup(c) && s.posted != []
    ensures IsRun(Unbatched(c), s1, run)
    ensures AtRest(c, Exec(Unbatched(c), s1, run)) && LooksLike(Apply(c, s, RunPost), Exec(Unbatched(c), s1, run))
  {
    run := FailAll(c, s1, |s1.posted| - 1);
  }

  lemma FollowAfter<U>(c: Setup, s: State<U>, step: Step<U>, s1: State<U>) returns (run: seq<Step<U>>)
    requires AfterFailure(c, s, s1) && SoundSetup(c) && Enabled(c, s, step)
    ensures IsRun(Unbatched(c), s1, run)
    ensures AfterFailure(c, Apply(c, s, step), Exec(Unbatched(c), s1, run))
  {
    InvariantStep(c, s, step);
    run := [];
    if step.RunPost? {
      run := FollowStrandAfter(c, s, s1);
    } else if OfSender(step) {
      FollowSenderAfter(c, s, step, s1);
      ExecOne(Unbatched(c), s1, step, []);
      run := [step] + [];
    }
  }

  lemma FollowBefore<U>(c: Setup, s: State<U>, step: Step<U>, s1: State<U>) returns (run: seq<Step<U>>)
    requires BeforeFailure(c, s, s1) && SoundSetup(c) && Enabled(c, s, step)
    ensures IsRun(Unbatched(c), s1, run)
    ensures Linked(c, Apply(c, s, step), Exec(Unbatched(c), s1, run))
  {
    InvariantStep(c, s, step);
    if Failing(step) {
      run := FollowFailure(c, s, s1);
      FailuresLookAlike(c, s, step.lost, s1, Exec(Unbatched(c), s1, run));
    } else if step.Emit? {
      run := FollowEmit(c, s, step.n, s1);
    } else if step.Complete? {
      run := FollowComplete(c, s, step.lost, s1);
    } else if step.RunPost? {
      FollowStrand(c, s, s1);
      run := [];
    } else {
      FollowSender(c, s, step, s1);
      ExecOne(Unbatched(c), s1, step, []);
      run := [step] + [];
    }
  }

  /** Every step is answered by a run that keeps the two related. */
  lemma FollowStep<U>(c: Setup, s: State<U>, step: Step<U>, s1: State<U>) returns (run: seq<Step<U>>)
    requires Linked(c, s, s1) && SoundSetup(c) && Enabled(c, s, step)
    ensures IsRun(Unbatched(c), s1, run)
    ensures Linked(c, Apply(c, s, step), Exec(Unbatched(c), s1, run))
  {
    if s.failed {
      run := FollowAfter(c, s, step, s1);
    } else {
      run := FollowBefore(c, s, step, s1);
    }
  }

  lemma FollowsOne<U>(c: Setup, s: State<U>, run: seq<Step<U>>, s1: State<U>, first: seq<Step<U>>,
                      rest: seq<seq<Step<U>>>)
    requires SeenAlike(s, s1) && IsRun(c, s, run) && run != [] && IsRun(Unbatched(c), s1, first)
    requires Follows(c, Apply(c, s, run[0]), run[1..], Exec(Unbatched(c), s1, first), rest)
    ensures Follows(c, s, run, s1, [first] + rest)
  {
    assert ([first] + rest)[1..] == rest;
  }

  lemma {:induction false} FollowRun<U>(c: Setup, s: State<U>, run: seq<Step<U>>, s1: State<U>)
    returns (runs: seq<seq<Step<U>>>)
    requires Linked(c, s, s1) && SoundSetup(c) && IsRun(c, s, run)
    ensures Follows(c, s, run, s1, runs)
    ensures IsRun(Unbatched(c), s1, Flatten(runs))
    ensures Linked(c, Exec(c, s, run), Exec(Unbatched(c), s1, Flatten(runs)))
    decreases |run|
  {
    runs := [];
    if run != [] {
      var first := FollowStep(c, s, run[0], s1);
      var s2 := Exec(Unbatched(c), s1, first);
      var rest := FollowRun(c, Apply(c, s, run[0]), run[1..], s2);
      FollowsOne(c, s, run, s1, first, rest);
      ExecAppend(Unbatched(c), s1, first, Flatten(rest));
      runs := [first] + rest;
    }
  }

  lemma RelatedInit<U>(c: Setup, threads: nat)
    ensures BeforeFailure(c, Init<U>(c, threads), Init<U>(Unbatched(c), threads))
  {
    InvariantInit<U>(c, threads);
    InvariantInit<U>(Unbatched(c), threads);
  }

  /** Refinement: every run of the pipeline, whatever fails or closes and whatever is posted after that, is
      followed step by step by a run of the pipeline that writes one buffer at a time. */
  lemma GatheringIsInvisible<U>(c: Setup, threads: nat, run: seq<Step<U>>) returns (runs: seq<seq<Step<U>>>)
    requires SoundSetup(c) && IsRun(c, Init<U>(c, threads), run)
    ensures Follows(c, Init<U>(c, threads), run, Init<U>(Unbatched(c), threads), runs)
  {
    RelatedInit<U>(c, threads);
    runs := FollowRun(c, Init<U>(c, threads), run, Init<U>(Unbatched(c), threads));
  }

  /** The two can be brought to look the same, what waits on the strand included. */
  lemma CatchUpOnStrand<U>(c: Setup, s: State<U>, s1: State<U>) returns (run: seq<Step<U>>)
    requires Linked(c, s, s1) && SoundSetup(c)
    ensures IsRun(Unbatched(c), s1, run) && LooksLike(s, Exec(Unbatched(c), s1, run))
  {
    run := [];
    if !s.failed {
      PostedIsSuffix(c, s, s1);
      run := RunHandlers(c, s1, |s.posted|);
    }
  }

  /** So every state that gathering leads to looks like one that is reached without it. */
  lemma SeenUnbatched<U(!new)>(c: Setup, threads: nat, s: State<U>) returns (s1: State<U>)
    requires SoundSetup(c) && Reachable(c, threads, s)
    ensures Reachable(Unbatched(c), threads, s1) && LooksLike(s, s1)
  {
    var init, init1 := Init<U>(c, threads), Init<U>(Unbatched(c), threads);
    var run :| IsRun(c, init, run) && s == Exec(c, init, run);
    RelatedInit<U>(c, threads);
    var runs := FollowRun(c, init, run, init1);
    var s2 := Exec(Unbatched(c), init1, Flatten(runs));
    var last := CatchUpOnStrand(c, s, s2);
    ExecAppend(Unbatched(c), init1, Flatten(runs), last);
    s1 := Exec(Unbatched(c), s2, last);
    assert IsRun(Unbatched(c), init1, Flatten(runs) + last);
  }
}
