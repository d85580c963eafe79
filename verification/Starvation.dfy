/** When a thread that spins on the empty pool can be helped at all, failures and closes included. */
module Starvation {
  import opened SendPipeline
  import opened PipelineInvariants
  import opened PipelineTheorems
  import Progress

  /** Some continuation of `s` brings a buffer into the pool. */
  ghost predicate CanRefill<U(!new)>(c: Setup, s: State<U>) {
    exists run :: IsRun(c, s, run) && Exec(c, s, run).pool != {}
  }

  ghost predicate SomeAlive<U>(c: Setup, s: State<U>) {
    exists b: nat :: b < c.pool && b !in s.deleted
  }

  /** What a thread looking at the writer could check: it is at work, or has nothing left over. */
  predicate WriterUsable<U>(s: State<U>) { s.write.Writing? || s.queue == [] }

  lemma {:induction false} DeletedStayDeleted<U>(c: Setup, s: State<U>, run: seq<Step<U>>)
    requires IsRun(c, s, run)
    ensures s.deleted <= Exec(c, s, run).deleted
    decreases |run|
  {
    if run != [] {
      DeletedStayDeleted(c, Apply(c, s, run[0]), run[1..]);
    }
  }

  /** With every buffer deleted the pool is empty for ever. */
  lemma AllDeletedIsFinal<U>(c: Setup, s: State<U>, run: seq<Step<U>>)
    requires Invariant(c, s) && SoundSetup(c) && !SomeAlive(c, s) && IsRun(c, s, run)
    ensures Exec(c, s, run).pool == {}
  {
    InvariantRun(c, s, run);
    DeletedStayDeleted(c, s, run);
    var s' := Exec(c, s, run);
    forall b: nat ensures b !in s'.pool {
      assert Places(s', b) == One(b < c.pool);
      assert b < c.pool ==> b in s.deleted;
    }
  }

  /** No new call, no buffer taken, no close but by a failed write. */
  predicate Calm<U>(run: seq<Step<U>>) {
    forall i :: 0 <= i < |run| ==> !run[i].Begin? && !run[i].Pop? && !run[i].Close?
  }

  /** Any completion of the write, a failed one at worst, gives a buffer back. */
  lemma RefillFromWrite<U>(c: Setup, s: State<U>) returns (run: seq<Step<U>>)
    requires Invariant(c, s) && s.write.Writing?
    ensures IsRun(c, s, run) && Exec(c, s, run).pool != {} && Exec(c, s, run).deleted == s.deleted && Calm(run)
  {
    assert s.queue[0] in Batch(s);
    assert s.queue[0] in Apply(c, s, Complete(false, {})).pool;
    ExecOne(c, s, Complete(false, {}), []);
    run := [Complete(false, {})] + [];
  }

  /** A posted handler starts a write when nothing is queued. */
  lemma RefillFromStrand<U>(c: Setup, s: State<U>) returns (run: seq<Step<U>>)
    requires Invariant(c, s) && SoundSetup(c) && WriterUsable(s) && s.posted != []
    ensures IsRun(c, s, run) && Exec(c, s, run).pool != {} && Exec(c, s, run).deleted == s.deleted && Calm(run)
  {
    if s.write.Writing? {
      run := RefillFromWrite(c, s);
    } else {
      InvariantStep(c, s, RunPost);
      var rest := RefillFromWrite(c, Apply(c, s, RunPost));
      ExecOne(c, s, RunPost, rest);
      run := [RunPost] + rest;
    }
  }

  /** A thread with a buffer in hand can always fill it and post it, on a closed socket too. */
  lemma RefillFromSender<U>(c: Setup, s: State<U>, t: nat) returns (run: seq<Step<U>>)
    requires Invariant(c, s) && SoundSetup(c) && WriterUsable(s)
    requires t < |s.senders| && (s.senders[t].Filling? || s.senders[t].Filled?) && s.senders[t].buf < c.pool
    ensures IsRun(c, s, run) && Exec(c, s, run).pool != {} && Exec(c, s, run).deleted == s.deleted && Calm(run)
    decreases s.senders[t].Filling?
  {
    var step := if s.senders[t].Filling? then Fill(t) else Post(t);
    InvariantStep(c, s, step);
    var rest;
    if step.Fill? {
      rest := RefillFromSender(c, Apply(c, s, step), t);
    } else {
      rest := RefillFromStrand(c, Apply(c, s, step));
    }
    ExecOne(c, s, step, rest);
    run := [step] + rest;
  }

  /** A usable writer and a buffer alive, wherever it is, suffice. */
  lemma RefillRun<U>(c: Setup, s: State<U>, b: nat) returns (run: seq<Step<U>>)
    requires Invariant(c, s) && SoundSetup(c) && WriterUsable(s) && s.pool == {}
    requires b < c.pool && b !in s.deleted
    ensures IsRun(c, s, run) && Exec(c, s, run).pool != {} && Exec(c, s, run).deleted == s.deleted && Calm(run)
  {
    if s.write.Writing? {
      run := RefillFromWrite(c, s);
    } else if s.posted != [] {
      run := RefillFromStrand(c, s);
    } else {
      assert Places(s, b) == 1;
      var t := Progress.HeldSomewhere(s.senders, b);
      run := RefillFromSender(c, s, t);
    }
  }

  /** The empty pool can be refilled exactly if the writer is usable and a buffer is alive. */
  lemma RefillIsExact<U(!new)>(c: Setup, s: State<U>)
    requires Invariant(c, s) && SoundSetup(c) && s.pool == {}
    ensures CanRefill(c, s) <==> WriterUsable(s) && SomeAlive(c, s)
  {
    if WriterUsable(s) && SomeAlive(c, s) {
      var b: nat :| b < c.pool && b !in s.deleted;
      var run := RefillRun(c, s, b);
      assert CanRefill(c, s);
    } else {
      forall run | IsRun(c, s, run) ensures Exec(c, s, run).pool == {} {
        if WriterUsable(s) { AllDeletedIsFinal(c, s, run); } else { LeftoverIsStranded(c, s, run); }
      }
    }
  }

  lemma NoRefillStays<U(!new)>(c: Setup, s: State<U>, step: Step<U>)
    requires Enabled(c, s, step) && !CanRefill(c, s)
    ensures Apply(c, s, step).pool == {} && !CanRefill(c, Apply(c, s, step))
  {
    var s' := Apply(c, s, step);
    forall run | IsRun(c, s', run) ensures Exec(c, s', run).pool == {} {
      ExecOne(c, s, step, run);
      assert IsRun(c, s, [step] + run);
    }
    assert IsRun(c, s', []);
  }

  // ---- How far it can come in a run of the code.

  /** A thread spins on an empty pool, no buffer was ever deleted, and yet no continuation helps it. */
  ghost predicate StarvedForEver<U(!new)>(c: Setup, s: State<U>) {
    && s.pool == {} && s.deleted == {} && (exists t :: 0 <= t < |s.senders| && s.senders[t].Spinning?)
    && !CanRefill(c, s)
  }

  /** Threads `u` and `t` pass the open check, and the first of several queued buffers fails to be written. */
  function FailingSteps<U>(u: nat, t: nat, data: seq<U>): seq<Step<U>>
  {
    [Begin(u, []), Begin(t, data), Complete(false, {})]
  }

  /** `u` queues the one buffer that gave back behind the rest. */
  function StrandingSteps<U>(u: nat): seq<Step<U>>
  {
    [Pop(u, 0), Fill(u), Post(u), RunPost]
  }

  /** The write has failed and given back its one buffer, and both threads are past the open check. */
  ghost predicate AfterFailure<U>(c: Setup, s: State<U>, u: nat, t: nat, data: seq<U>) {
    && u < |s.senders| && t < |s.senders| && u != t && s.senders[u] == Spinning([]) && s.senders[t] == Spinning(data)
    && s.pool == {0} && s.deleted == {} && s.posted == [] && s.queue != [] && s.write.NoWrite?
    && |s.memory| == c.pool && |s.queue| < c.ring
  }

  /** Thread `t` spins, the pool is empty, and buffers are left over from a failed write. */
  ghost predicate Stranded<U>(s: State<U>, t: nat, data: seq<U>) {
    && t < |s.senders| && s.senders[t] == Spinning(data)
    && s.pool == {} && s.deleted == {} && s.write.NoWrite? && s.queue != []
  }

  lemma FailureRuns<U>(c: Setup, threads: nat, s: State<U>, u: nat, t: nat, data: seq<U>)
    requires SoundSetup(c) && c.pool >= 2 && u < threads && t < threads && u != t
    requires Backlog(c, threads, s, [], c.pool)
    ensures IsRun(c, s, FailingSteps(u, t, data)) && AfterFailure(c, Exec(c, s, FailingSteps(u, t, data)), u, t, data)
  {
    var s1 := Apply(c, s, Begin(u, []));
    var s2 := Apply(c, s1, Begin(t, data));
    assert Batch(s2) == [0];
    var s3 := Apply(c, s2, Complete(false, {}));
    assert s3.pool == {0};
    ExecOne(c, s2, Complete(false, {}), []);
    ExecOne(c, s1, Begin(t, data), [Complete(false, {})]);
    ExecOne(c, s, Begin(u, []), [Begin(t, data), Complete(false, {})]);
    assert FailingSteps(u, t, data) == [Begin(u, [])] + [Begin(t, data), Complete(false, {})];
  }

  lemma StrandingRuns<U>(c: Setup, s: State<U>, u: nat, t: nat, data: seq<U>)
    requires AfterFailure(c, s, u, t, data) && c.pool >= 2
    ensures IsRun(c, s, StrandingSteps<U>(u)) && Stranded(Exec(c, s, StrandingSteps<U>(u)), t, data)
  {
    var s1 := Apply(c, s, Pop(u, 0));
    var s2 := Apply(c, s1, Fill(u));
    var s3 := Apply(c, s2, Post(u));
    var s4 := Apply(c, s3, RunPost);
    ExecOne(c, s3, RunPost, []);
    ExecOne(c, s2, Post(u), [RunPost]);
    ExecOne(c, s1, Fill(u), [Post(u), RunPost]);
    ExecOne(c, s, Pop(u, 0), [Fill(u), Post(u), RunPost]);
    assert StrandingSteps<U>(u) == [Pop(u, 0)] + [Fill(u), Post(u), RunPost];
    assert s4.pool == {};
  }

  /** With two buffers or more, any thread can be starved for ever with the help of any other. */
  lemma StarvationHappens<U(!new)>(c: Setup, threads: nat, u: nat, t: nat) returns (run: seq<Step<U>>)
    requires SoundSetup(c) && c.pool >= 2 && u < threads && t < threads && u != t
    ensures IsRun(c, Init<U>(c, threads), run) && StarvedForEver(c, Exec(c, Init<U>(c, threads), run))
    ensures var s := Exec(c, Init<U>(c, threads), run); t < |s.senders| && s.senders[t].Spinning?
  {
    var init := Init<U>(c, threads);
    var before := BacklogReachable<U>(c, threads, u, [], c.pool);
    var s := Exec(c, init, before);
    FailureRuns(c, threads, s, u, t, []);
    StrandingRuns(c, Exec(c, s, FailingSteps<U>(u, t, [])), u, t, []);
    ExecAppend(c, s, FailingSteps<U>(u, t, []), StrandingSteps<U>(u));
    var rest := FailingSteps<U>(u, t, []) + StrandingSteps<U>(u);
    ExecAppend(c, init, before, rest);
    run := before + rest;
    InvariantInit<U>(c, threads);
    InvariantRun(c, init, run);
    RefillIsExact(c, Exec(c, init, run));
  }

  /** With a single buffer nothing is ever left over: the batch is the whole queue. */
  lemma {:induction false} OneBufferKeepsWriterUsable<U>(c: Setup, s: State<U>, run: seq<Step<U>>)
    requires Invariant(c, s) && SoundSetup(c) && c.pool == 1 && WriterUsable(s) && IsRun(c, s, run)
    ensures WriterUsable(Exec(c, s, run))
    decreases |run|
  {
    if run != [] {
      InvariantStep(c, s, run[0]);
      QueueFits(c, s);
      OneBufferKeepsWriterUsable(c, Apply(c, s, run[0]), run[1..]);
    }
  }

  lemma QueueFits<U>(c: Setup, s: State<U>)
    requires Conserved(c, s)
    ensures |s.queue| <= c.pool
  {
    forall x: nat ensures Count(s.queue, x) <= One(x in AllBuffers(c.pool)) {
      assert Places(s, x) == One(x < c.pool);
    }
    NoRepeats(s.queue, AllBuffers(c.pool));
  }

  /** A buffer is left for the only thread if it was past the open check when the write failed. */
  ghost predicate LoneThreadIsServed<U>(s: State<U>) {
    |s.senders| <= 1 && (s.failed && s.senders != [] && s.senders[0].Spinning? ==> s.pool != {} || s.deleted != {})
  }

  lemma LoneThreadStep<U>(c: Setup, s: State<U>, step: Step<U>)
    requires WriterHolds(c, s) && LoneThreadIsServed(s) && Enabled(c, s, step)
    ensures LoneThreadIsServed(Apply(c, s, step))
  {
    if step.Complete? {
      var b := s.queue[0];
      assert b in Batch(s);
      assert b in Apply(c, s, step).pool || b in Apply(c, s, step).deleted;
    }
  }

  lemma {:induction false} OneThreadIsServed<U>(c: Setup, s: State<U>, run: seq<Step<U>>)
    requires Invariant(c, s) && SoundSetup(c) && LoneThreadIsServed(s) && IsRun(c, s, run)
    ensures LoneThreadIsServed(Exec(c, s, run))
    decreases |run|
  {
    if run != [] {
      InvariantStep(c, s, run[0]);
      LoneThreadStep(c, s, run[0]);
      OneThreadIsServed(c, Apply(c, s, run[0]), run[1..]);
    }
  }

  /** Without two buffers and two threads the code starves nobody for ever, unless buffers were deleted. */
  lemma NobodyStarves<U(!new)>(c: Setup, threads: nat, s: State<U>)
    requires SoundSetup(c) && c.pool >= 1 && Reachable(c, threads, s)
    requires c.pool == 1 || threads <= 1
    ensures !StarvedForEver(c, s)
  {
    var init := Init<U>(c, threads);
    var run :| IsRun(c, init, run) && s == Exec(c, init, run);
    InvariantInit<U>(c, threads);
    InvariantRun(c, init, run);
    if c.pool == 1 {
      OneBufferKeepsWriterUsable(c, init, run);
    } else {
      OneThreadIsServed(c, init, run);
    }
    if s.pool == {} && s.deleted == {} {
      assert 0 !in s.deleted;
      RefillIsExact(c, s);
    }
  }

  /** A run that starves a thread for ever, without any buffer deleted, exists exactly if there are two
      buffers and two threads or more. */
  lemma StarvationIsExact<U(!new)>(c: Setup, threads: nat)
    requires SoundSetup(c) && c.pool >= 1
    ensures (exists s: State<U> :: Reachable(c, threads, s) && StarvedForEver(c, s)) <==> c.pool >= 2 && threads >= 2
  {
    if c.pool >= 2 && threads >= 2 {
      var run := StarvationHappens<U>(c, threads, 0, 1);
      assert Reachable(c, threads, Exec(c, Init<U>(c, threads), run));
    } else {
      forall s: State<U> | Reachable(c, threads, s) ensures !StarvedForEver(c, s) {
        NobodyStarves(c, threads, s);
      }
    }
  }

  // ---- A callback that sends: while it runs, its strand runs nothing else.

  /** Steps that go on while a handler occupies the strand. */
  predicate OffStrand<U>(step: Step<U>) {
    !step.RunPost? && !step.Complete? && !step.Close?
  }

  predicate AllOffStrand<U>(run: seq<Step<U>>) {
    forall i :: 0 <= i < |run| ==> OffStrand(run[i])
  }

  /** How many `send` calls of thread `t` return in the run. */
  function Returns<U>(run: seq<Step<U>>, t: nat): nat
  {
    if run == [] then 0 else One(run[0] == Post(t)) + Returns(run[1..], t)
  }

  lemma {:induction false} ReturnsAppend<U>(xs: seq<Step<U>>, ys: seq<Step<U>>, t: nat)
    ensures Returns(xs + ys, t) == Returns(xs, t) + Returns(ys, t)
  {
    if xs == [] {
      assert xs + ys == ys;
    } else {
      assert (xs + ys)[1..] == xs[1..] + ys;
      ReturnsAppend(xs[1..], ys, t);
    }
  }

  predicate HasBuffer<U>(s: State<U>, t: nat) {
    t < |s.senders| && (s.senders[t].Filling? || s.senders[t].Filled?)
  }

  lemma ReturnTakesBuffer<U>(c: Setup, s: State<U>, step: Step<U>, t: nat)
    requires Enabled(c, s, step) && OffStrand(step)
    ensures var s' := Apply(c, s, step);
      One(step == Post(t)) + One(HasBuffer(s', t)) + |s'.pool| <= One(HasBuffer(s, t)) + |s.pool|
  {
  }

  /** Every `send` that returns has cost the pool a buffer, and nothing gives one back. */
  lemma {:induction false} ReturnsNeedBuffers<U>(c: Setup, s: State<U>, run: seq<Step<U>>, t: nat)
    requires IsRun(c, s, run) && AllOffStrand(run)
    ensures Returns(run, t) <= One(HasBuffer(s, t)) + |s.pool|
    decreases |run|
  {
    if run != [] {
      ReturnTakesBuffer(c, s, run[0], t);
      ReturnsNeedBuffers(c, Apply(c, s, run[0]), run[1..], t);
    }
  }

  /** One `send` after the other, each with a buffer of its own. */
  lemma {:induction false} SendMany<U>(c: Setup, s: State<U>, t: nat, k: nat) returns (run: seq<Step<U>>)
    requires t < |s.senders| == |s.issued| && s.senders[t].Idle? && s.open
    requires k <= |s.pool| && forall b :: b in s.pool ==> b < |s.memory|
    ensures IsRun(c, s, run) && AllOffStrand(run) && Returns(run, t) == k
    decreases k
  {
    run := [];
    if k > 0 {
      var b :| b in s.pool;
      OneSend(c, s, t, b, []);
      var s' := Exec(c, s, Sending<U>(t, b, []));
      var rest := SendMany(c, s', t, k - 1);
      ExecAppend(c, s, Sending<U>(t, b, []), rest);
      ReturnsAppend(Sending<U>(t, b, []), rest, t);
      OneReturn<U>(t, b, []);
      run := Sending<U>(t, b, []) + rest;
    }
  }

  lemma OneReturn<U>(t: nat, b: nat, data: seq<U>)
    ensures Returns(Sending(t, b, data), t) == 1
  {
    var steps := Sending(t, b, data);
    assert Returns(steps[4..], t) == 0;
    assert Returns(steps[3..], t) == 1 by { assert steps[3..][1..] == steps[4..]; }
    assert Returns(steps[2..], t) == 1 by { assert steps[2..][1..] == steps[3..]; }
    assert Returns(steps[1..], t) == 1 by { assert steps[1..][1..] == steps[2..]; }
  }

  /** A callback on the strand can send `k` messages exactly if so many buffers are free when it starts:
      whatever the other threads do meanwhile, one more `send` never returns, and its strand hangs with it. */
  lemma CallbackSendsAreExact<U(!new)>(c: Setup, threads: nat, s: State<U>, t: nat, k: nat)
    requires Reachable(c, threads, s) && SoundSetup(c)
    requires t < |s.senders| && s.senders[t].Idle? && s.open
    ensures (exists run :: IsRun(c, s, run) && AllOffStrand(run) && Returns(run, t) == k) <==> k <= |s.pool|
  {
    if k <= |s.pool| {
      ReachableInvariant(c, threads, s);
      forall b | b in s.pool ensures b < |s.memory| {
        assert Places(s, b) == One(b < c.pool);
      }
      var run := SendMany(c, s, t, k);
    } else {
      forall run | IsRun(c, s, run) && AllOffStrand(run) ensures Returns(run, t) != k {
        ReturnsNeedBuffers(c, s, run, t);
      }
    }
  }
}
