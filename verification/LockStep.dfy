/** Lock step ends at the first failed write: a run with three buffers that no run of single buffers can
    match step by step. The write of two gathered buffers fails and gives both back; a writer of single
    buffers gives back one and strands the other, which is missed as soon as three threads hold a buffer. */
module LockStep {
  import opened Streams
  import opened SendPipeline
  import opened PipelineInvariants
  import opened PipelineTheorems
  import opened Batching

  const Three := Setup(3, 3, 2)

  // ---- The run.

  /** One of three one-unit messages written, the other two in the outstanding write. */
  function WritingTwo<U>(): seq<Step<U>> { [Emit(1), Complete(true, {})] }

  /** All threads pass the open check. */
  function Callers<U>(): seq<Step<U>> { [Begin(0, []), Begin(1, []), Begin(2, [])] }

  /** The write fails, and every thread gets a buffer. */
  function Holders<U>(): seq<Step<U>> { [Pop(0, 0), Pop(1, 1), Pop(2, 2)] }

  /** The outstanding write holds the last two of three messages `x` and has transmitted nothing of them. */
  ghost predicate TwoInWrite<U>(s: State<U>, x: seq<U>) {
    && s.open && !s.failed && s.posted == [] && s.wire == x && s.log == [x, x, x]
    && s.queue == [1, 2] && s.write == Writing(0) && s.active == 2 && s.pool == {0} && |s.senders| == |s.issued| == 3
  }

  lemma FirstIsInFlight<U>(s: State<U>, x: seq<U>)
    requires Invariant(Three, s) && Backlog(Three, 3, s, x, 3)
    ensures s.write == Writing(0) && Gather(s.memory, s.slices) == x
    ensures s.queue == [0, 1, 2] && s.log == [x, x, x]
  {
    InFlightIsLogged(Three, s);
    assert s.log[0..1] == [x];
    FlattenOne(x);
  }

  lemma OneWritten<U>(s: State<U>, x: seq<U>)
    requires Invariant(Three, s) && Backlog(Three, 3, s, x, 3) && |x| == 1
    ensures IsRun(Three, s, WritingTwo<U>())
    ensures var s' := Exec(Three, s, WritingTwo<U>());
      TwoInWrite(s', x) && forall t :: 0 <= t < 3 ==> s'.senders[t].Idle?
  {
    FirstIsInFlight(s, x);
    assert x[0..][..1] == x && [] + x == x;
    var s1 := Apply(Three, s, Emit(1));
    assert Batch(s1) == [0];
    CompletesOne(s1, x);
    ExecOne(Three, s1, Complete(true, {}), []);
    ExecOne(Three, s, Emit(1), [Complete(true, {})]);
    assert WritingTwo<U>() == [Emit(1)] + [Complete(true, {})];
  }

  lemma CompletesOne<U>(s: State<U>, x: seq<U>)
    requires s.write.Writing? && Unsent(s) == 0 && Batch(s) == [0] && s.queue == [0, 1, 2] && s.pool == {}
    requires s.open && !s.failed && s.posted == [] && s.wire == x && s.log == [x, x, x]
    requires |s.senders| == |s.issued| == 3
    ensures TwoInWrite(Apply(Three, s, Complete(true, {})), x)
  {
    assert ToSet(Batch(s)) == {0};
    assert s.queue[1..] == [1, 2];
  }

  lemma CallersRun<U>(s: State<U>, x: seq<U>)
    requires TwoInWrite(s, x) && forall t :: 0 <= t < 3 ==> s.senders[t].Idle?
    ensures IsRun(Three, s, Callers<U>())
    ensures var s' := Exec(Three, s, Callers<U>());
      TwoInWrite(s', x) && forall t :: 0 <= t < 3 ==> s'.senders[t].Spinning?
  {
    var s1 := Apply(Three, s, Begin(0, []));
    var s2 := Apply(Three, s1, Begin(1, []));
    ExecOne(Three, s2, Begin(2, []), []);
    ExecOne(Three, s1, Begin(1, []), [Begin(2, [])]);
    ExecOne(Three, s, Begin(0, []), [Begin(1, []), Begin(2, [])]);
    assert Callers<U>() == [Begin(0, [])] + [Begin(1, []), Begin(2, [])];
  }

  lemma HoldersRun<U>(s: State<U>)
    requires |s.senders| == 3 && s.pool == {0, 1, 2} && forall t :: 0 <= t < 3 ==> s.senders[t].Spinning?
    ensures IsRun(Three, s, Holders<U>())
    ensures var s' := Exec(Three, s, Holders<U>());
      |s'.senders| == 3 && forall t :: 0 <= t < 3 ==> Holds(s'.senders[t], t)
  {
    var s1 := Apply(Three, s, Pop(0, 0));
    var s2 := Apply(Three, s1, Pop(1, 1));
    ExecOne(Three, s2, Pop(2, 2), []);
    ExecOne(Three, s1, Pop(1, 1), [Pop(2, 2)]);
    ExecOne(Three, s, Pop(0, 0), [Pop(1, 1), Pop(2, 2)]);
    assert Holders<U>() == [Pop(0, 0)] + [Pop(1, 1), Pop(2, 2)];
  }

  /** From the failure on. */
  function Tail<U>(): seq<Step<U>> { [Complete(false, {})] + Holders() }

  lemma TailRuns<U>(s: State<U>, x: seq<U>)
    requires TwoInWrite(s, x) && forall t :: 0 <= t < 3 ==> s.senders[t].Spinning?
    ensures Enabled(Three, s, Complete(false, {})) && IsRun(Three, s, Tail<U>())
    ensures var s' := Apply(Three, s, Complete(false, {}));
      && s'.failed && s'.posted == [] && s'.log == s.log && s'.wire == s.wire
      && IsRun(Three, s', Holders<U>())
    ensures var s' := Exec(Three, Apply(Three, s, Complete(false, {})), Holders<U>());
      |s'.senders| == 3 && forall t :: 0 <= t < 3 ==> Holds(s'.senders[t], t)
  {
    var s' := Apply(Three, s, Complete(false, {}));
    assert Batch(s) == [1, 2] && ToSet(Batch(s)) == {1, 2};
    assert s'.pool == {0, 1, 2};
    HoldersRun(s');
    ExecOne(Three, s, Complete(false, {}), Holders<U>());
  }

  // ---- What the unbatched pipeline can do about it.

  /** With two messages not on the wire and no handler to run, it cannot fail without leaving one behind. */
  ghost predicate Due<U>(s1: State<U>) {
    && s1.posted == [] && |s1.log| == 3 && (forall i :: 0 <= i < 3 ==> |s1.log[i]| == 1) && |s1.wire| <= 1
    && (s1.failed ==> s1.write.NoWrite? && s1.queue != [])
  }

  lemma TwoAreQueued<U>(s1: State<U>)
    requires Invariant(Unbatched(Three), s1) && Due(s1) && !s1.failed
    ensures |s1.queue| >= 2
  {
    var r := s1.recycled;
    assert |s1.log[r..]| == |s1.queue + s1.posted|;
    assert s1.log[..2] == [s1.log[0]] + [s1.log[1]];
    FlattenAppend([s1.log[0]], [s1.log[1]]);
    FlattenOne(s1.log[0]);
    FlattenOne(s1.log[1]);
    if r >= 2 { FlattenPrefix(s1.log[..2], s1.log[..r]); }
  }

  lemma DueStep<U>(s1: State<U>, step: Step<U>)
    requires Invariant(Unbatched(Three), s1) && Due(s1) && Enabled(Unbatched(Three), s1, step)
    requires var s2 := Apply(Unbatched(Three), s1, step); |s2.log| == 3 && |s2.wire| <= 1
    ensures Due(Apply(Unbatched(Three), s1, step))
  {
    if !s1.failed { TwoAreQueued(s1); }
  }

  lemma {:induction false} HistoryGrows<U>(c: Setup, s: State<U>, run: seq<Step<U>>)
    requires IsRun(c, s, run)
    ensures |s.log| <= |Exec(c, s, run).log| && |s.wire| <= |Exec(c, s, run).wire|
    decreases |run|
  {
    if run != [] { HistoryGrows(c, Apply(c, s, run[0]), run[1..]); }
  }

  lemma {:induction false} StaysDue<U>(s1: State<U>, run: seq<Step<U>>)
    requires Invariant(Unbatched(Three), s1) && Due(s1) && IsRun(Unbatched(Three), s1, run)
    requires var s2 := Exec(Unbatched(Three), s1, run); |s2.log| == 3 && |s2.wire| <= 1
    ensures Due(Exec(Unbatched(Three), s1, run))
    decreases |run|
  {
    if run != [] {
      var s2 := Apply(Unbatched(Three), s1, run[0]);
      HistoryGrows(Unbatched(Three), s2, run[1..]);
      HistoryGrows(Unbatched(Three), s1, [run[0]]);
      InvariantStep(Unbatched(Three), s1, run[0]);
      DueStep(s1, run[0]);
      StaysDue(s2, run[1..]);
    }
  }

  // ---- The two together.

  lemma {:induction false} MimicsEnds<U>(c: Setup, s: State<U>, run: seq<Step<U>>, s1: State<U>, runs: seq<seq<Step<U>>>)
    requires IsRun(c, s, run) && Mimics(c, s, run, s1, runs)
    ensures IsRun(Unbatched(c), s1, Flatten(runs))
    ensures LooksLike(Exec(c, s, run), Exec(Unbatched(c), s1, Flatten(runs)))
    decreases |run|
  {
    if run != [] {
      var s2 := Exec(Unbatched(c), s1, runs[0]);
      MimicsEnds(c, Apply(c, s, run[0]), run[1..], s2, runs[1..]);
      ExecAppend(Unbatched(c), s1, runs[0], Flatten(runs[1..]));
    }
  }

  lemma {:induction false} MimicsSplit<U>(c: Setup, s: State<U>, xs: seq<Step<U>>, ys: seq<Step<U>>, s1: State<U>,
                                          runs: seq<seq<Step<U>>>) returns (s2: State<U>, rest: seq<seq<Step<U>>>)
    requires IsRun(c, s, xs) && IsRun(c, Exec(c, s, xs), ys) && IsRun(c, s, xs + ys)
    requires Mimics(c, s, xs + ys, s1, runs) && Invariant(Unbatched(c), s1) && SoundSetup(c)
    ensures Invariant(Unbatched(c), s2) && Mimics(c, Exec(c, s, xs), ys, s2, rest)
    decreases |xs|
  {
    if xs == [] {
      assert xs + ys == ys;
      s2, rest := s1, runs;
    } else {
      assert (xs + ys)[0] == xs[0] && (xs + ys)[1..] == xs[1..] + ys;
      InvariantRun(Unbatched(c), s1, runs[0]);
      s2, rest := MimicsSplit(c, Apply(c, s, xs[0]), xs[1..], ys, Exec(Unbatched(c), s1, runs[0]), runs[1..]);
    }
  }

  /** All three buffers in threads' hands: none is left to be stranded. */
  lemma AllAreHeld<U>(s1: State<U>)
    requires Invariant(Unbatched(Three), s1) && |s1.senders| == 3 && forall t :: 0 <= t < 3 ==> Holds(s1.senders[t], t)
    ensures s1.queue == []
  {
    if s1.queue != [] {
      var b := s1.queue[0];
      CountIn(s1.queue, b);
      assert Places(s1, b) == One(b < 3);
      HeldIsExclusive(Unbatched(Three), s1, b, b);
      assert false;
    }
  }

  lemma NoLockStep<U>(s: State<U>, x: seq<U>, s1: State<U>, runs: seq<seq<Step<U>>>)
    requires TwoInWrite(s, x) && |x| == 1 && forall t :: 0 <= t < 3 ==> s.senders[t].Spinning?
    requires Invariant(Unbatched(Three), s1) && IsRun(Three, s, Tail<U>())
    ensures !Mimics(Three, s, Tail<U>(), s1, runs)
  {
    TailRuns(s, x);
    if Mimics(Three, s, Tail<U>(), s1, runs) {
      var s' := Apply(Three, s, Complete(false, {}));
      assert Tail<U>()[1..] == Holders<U>();
      var s2 := Exec(Unbatched(Three), s1, runs[0]);
      LeavesOneBehind(s1, x, runs[0]);
      MimicsEnds(Three, s', Holders<U>(), s2, runs[1..]);
      CannotHoldAll(s2, Flatten(runs[1..]));
      assert false;
    }
  }

  lemma LeavesOneBehind<U>(s1: State<U>, x: seq<U>, run: seq<Step<U>>)
    requires Invariant(Unbatched(Three), s1) && IsRun(Unbatched(Three), s1, run)
    requires |x| == 1 && s1.log == [x, x, x] && s1.wire == x && s1.posted == [] && !s1.failed
    requires var s2 := Exec(Unbatched(Three), s1, run); s2.log == s1.log && s2.wire == x && s2.failed
    ensures var s2 := Exec(Unbatched(Three), s1, run);
      Invariant(Unbatched(Three), s2) && s2.write.NoWrite? && s2.queue != []
  {
    StaysDue(s1, run);
    InvariantRun(Unbatched(Three), s1, run);
  }

  lemma CannotHoldAll<U>(s2: State<U>, run: seq<Step<U>>)
    requires Invariant(Unbatched(Three), s2) && s2.write.NoWrite? && s2.queue != [] && IsRun(Unbatched(Three), s2, run)
    ensures var s3 := Exec(Unbatched(Three), s2, run);
      !(|s3.senders| == 3 && forall t :: 0 <= t < 3 ==> Holds(s3.senders[t], t))
  {
    LeftoverIsStranded(Unbatched(Three), s2, run);
    InvariantRun(Unbatched(Three), s2, run);
    var s3 := Exec(Unbatched(Three), s2, run);
    if |s3.senders| == 3 && forall t :: 0 <= t < 3 ==> Holds(s3.senders[t], t) { AllAreHeld(s3); }
  }

  /** The run: three messages, the write of the last two fails, three threads take the three buffers. */
  lemma LockStepEndsAtFailure<U(!new)>(x: seq<U>) returns (run: seq<Step<U>>)
    requires |x| == 1
    ensures IsRun(Three, Init<U>(Three, 3), run)
    ensures forall runs :: !Mimics(Three, Init<U>(Three, 3), run, Init<U>(Unbatched(Three), 3), runs)
  {
    var init, init1 := Init<U>(Three, 3), Init<U>(Unbatched(Three), 3);
    InvariantInit<U>(Three, 3);
    InvariantInit<U>(Unbatched(Three), 3);
    var first := ReachTwoInWrite(x);
    var s := Exec(Three, init, first);
    TailRuns(s, x);
    ExecAppend(Three, init, first, Tail<U>());
    run := first + Tail<U>();
    forall runs ensures !Mimics(Three, init, run, init1, runs) {
      if Mimics(Three, init, run, init1, runs) {
        var s1, rest := MimicsSplit(Three, init, first, Tail<U>(), init1, runs);
        NoLockStep(s, x, s1, rest);
        assert false;
      }
    }
  }

  lemma ReachTwoInWrite<U>(x: seq<U>) returns (run: seq<Step<U>>)
    requires |x| == 1
    ensures IsRun(Three, Init<U>(Three, 3), run)
    ensures var s := Exec(Three, Init<U>(Three, 3), run);
      TwoInWrite(s, x) && forall t :: 0 <= t < 3 ==> s.senders[t].Spinning?
  {
    var init := Init<U>(Three, 3);
    InvariantInit<U>(Three, 3);
    var before := BacklogReachable<U>(Three, 3, 0, x, 3);
    var s := Exec(Three, init, before);
    InvariantRun(Three, init, before);
    OneWritten(s, x);
    CallersRun(Exec(Three, s, WritingTwo<U>()), x);
    ExecAppend(Three, s, WritingTwo<U>(), Callers<U>());
    ExecAppend(Three, init, before, WritingTwo<U>() + Callers<U>());
    run := before + (WritingTwo<U>() + Callers<U>());
  }
}
