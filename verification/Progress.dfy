/** Back-pressure ends: while a thread spins on the empty pool of an error-free connection there is
    always a step that brings a buffer closer to the pool, and only boundedly many such steps are left. */
module Progress {
  import opened SendPipeline
  import opened PipelineInvariants

  /** Steps of buffer holders, the strand and the writer that move a buffer or a unit on its way. */
  predicate Helpful<U>(step: Step<U>) {
    step.Fill? || step.Post? || step.RunPost? || (step.Emit? && step.n >= 1) || (step.Complete? && step.ok)
  }

  /** Steps of an error-free connection. */
  predicate ErrorFree<U>(step: Step<U>) {
    !step.Close? && (step.Complete? ==> step.ok)
  }

  function Weight<U>(x: Sender<U>): nat
  {
    match x
    case Filling(_, p) => 4 + |p|
    case Filled(_, p) => 3 + |p|
    case _ => 0
  }

  function Weights<U>(senders: seq<Sender<U>>): nat
  {
    if senders == [] then 0 else Weight(senders[0]) + Weights(senders[1..])
  }

  /** `stage` steps for each buffer in `q`, and one for each unit in it. */
  function Load<U>(memory: seq<seq<U>>, q: seq<nat>, stage: nat): nat
  {
    if q == [] then 0 else stage + |At(memory, q[0])| + Load(memory, q[1..], stage)
  }

  /** An upper bound on the helpful steps left while no buffer returns to the pool. */
  function Work<U>(s: State<U>): int
  {
    Weights(s.senders) + Load(s.memory, s.posted, 2) + Load(s.memory, s.queue, 1)
      - (if s.write.Writing? then s.write.sent else 0)
  }

  lemma {:induction false} WeightsUpdate<U>(senders: seq<Sender<U>>, t: nat, x: Sender<U>)
    requires t < |senders|
    ensures Weights(senders[t := x]) == Weights(senders) - Weight(senders[t]) + Weight(x)
  {
    if t == 0 {
      assert senders[t := x][1..] == senders[1..];
    } else {
      assert senders[t := x][1..] == senders[1..][t - 1 := x];
      WeightsUpdate(senders[1..], t - 1, x);
    }
  }

  lemma {:induction false} LoadAppend<U>(memory: seq<seq<U>>, p: seq<nat>, q: seq<nat>, stage: nat)
    ensures Load(memory, p + q, stage) == Load(memory, p, stage) + Load(memory, q, stage)
  {
    if p == [] {
      assert p + q == q;
    } else {
      assert (p + q)[1..] == p[1..] + q;
      LoadAppend(memory, p[1..], q, stage);
    }
  }

  lemma {:induction false} LoadFrame<U>(memory: seq<seq<U>>, q: seq<nat>, stage: nat, b: nat, x: seq<U>)
    requires b < |memory| && b !in q
    ensures Load(memory[b := x], q, stage) == Load(memory, q, stage)
  {
    if q != [] {
      LoadFrame(memory, q[1..], stage, b, x);
    }
  }

  lemma {:induction false} LoadIsGather<U>(memory: seq<seq<U>>, q: seq<nat>)
    ensures Load(memory, q, 1) == |q| + |Gather(memory, SlicesOf(memory, q))|
  {
    if q != [] {
      LoadIsGather(memory, q[1..]);
      assert SlicesOf(memory, q)[1..] == SlicesOf(memory, q[1..]);
    }
  }

  /** The load of the queue splits into the outstanding batch and the rest. */
  lemma QueueLoad<U>(c: Setup, s: State<U>)
    requires WriterHolds(c, s) && s.write.Writing?
    ensures Load(s.memory, s.queue, 1)
         == s.active + |Gather(s.memory, s.slices)| + Load(s.memory, s.queue[s.active..], 1)
  {
    assert s.queue == s.queue[..s.active] + s.queue[s.active..];
    LoadAppend(s.memory, s.queue[..s.active], s.queue[s.active..], 1);
    LoadIsGather(s.memory, s.queue[..s.active]);
  }

  lemma WorkIsNatural<U>(c: Setup, s: State<U>)
    requires WriterHolds(c, s)
    ensures Work(s) >= 0
  {
    if s.write.Writing? { QueueLoad(c, s); }
  }

  lemma FillWork<U>(c: Setup, s: State<U>, t: nat)
    requires Conserved(c, s) && Enabled(c, s, Fill(t))
    ensures Work(Apply(c, s, Fill(t))) < Work(s)
  {
    var Filling(b, p) := s.senders[t];
    HeldIsExclusive(c, s, t, b);
    WeightsUpdate(s.senders, t, Filled(b, p));
    LoadFrame(s.memory, s.posted, 2, b, p);
    LoadFrame(s.memory, s.queue, 1, b, p);
  }

  lemma ScribbleWork<U>(c: Setup, s: State<U>, t: nat, junk: seq<U>)
    requires Conserved(c, s) && Enabled(c, s, Scribble(t, junk))
    ensures Work(Apply(c, s, Scribble(t, junk))) == Work(s)
  {
    var b := s.senders[t].buf;
    HeldIsExclusive(c, s, t, b);
    LoadFrame(s.memory, s.posted, 2, b, junk);
    LoadFrame(s.memory, s.queue, 1, b, junk);
  }

  lemma PostWork<U>(c: Setup, s: State<U>, t: nat)
    requires HistoryHolds(s) && Enabled(c, s, Post(t))
    ensures Work(Apply(c, s, Post(t))) < Work(s)
  {
    var b := s.senders[t].buf;
    WeightsUpdate(s.senders, t, Idle);
    LoadAppend(s.memory, s.posted, [b], 2);
    assert Load(s.memory, [b], 2) == 2 + |At(s.memory, b)| + Load(s.memory, [b][1..], 2);
  }

  lemma RunPostWork<U>(c: Setup, s: State<U>)
    requires Conserved(c, s) && WriterHolds(c, s) && Enabled(c, s, Step<U>.RunPost) && c.ring >= c.pool
    ensures Work(Apply(c, s, RunPost)) < Work(s)
  {
    var b := s.posted[0];
    RingHasRoom(c, s);
    LoadAppend(s.memory, s.queue, [b], 1);
    assert Load(s.memory, [b], 1) == 1 + |At(s.memory, b)| + Load(s.memory, [b][1..], 1);
  }

  lemma CompleteWork<U>(c: Setup, s: State<U>, lost: set<nat>)
    requires WriterHolds(c, s) && Enabled(c, s, Complete(true, lost))
    ensures Work(Apply(c, s, Complete(true, lost))) < Work(s)
  {
    QueueLoad(c, s);
  }

  lemma HelpfulWork<U>(c: Setup, s: State<U>, step: Step<U>)
    requires Invariant(c, s) && SoundSetup(c) && Enabled(c, s, step) && Helpful(step)
    ensures Work(Apply(c, s, step)) < Work(s)
  {
    match step
    case Fill(t) => FillWork(c, s, t);
    case Post(t) => PostWork(c, s, t);
    case RunPost => RunPostWork(c, s);
    case Emit(_) =>
    case Complete(_, lost) => CompleteWork(c, s, lost);
  }

  /** Every helpful step reduces the work and no error-free step adds to it while the pool is empty. */
  lemma WorkStep<U>(c: Setup, s: State<U>, step: Step<U>)
    requires Invariant(c, s) && SoundSetup(c) && s.pool == {}
    requires Enabled(c, s, step) && ErrorFree(step)
    ensures Work(Apply(c, s, step)) <= Work(s) - One(Helpful(step))
  {
    if Helpful(step) {
      HelpfulWork(c, s, step);
    } else if step.Begin? {
      WeightsUpdate(s.senders, step.t, Spinning(step.payload));
    } else if step.Scribble? {
      ScribbleWork(c, s, step.t, step.junk);
    }
  }

  /** Whatever is posted or queued on an open connection, the strand or the writer can go on with it. */
  lemma StrandHelps<U>(c: Setup, s: State<U>) returns (step: Step<U>)
    requires Invariant(c, s) && SoundSetup(c) && s.open && (s.posted != [] || s.queue != [])
    ensures Enabled(c, s, step) && Helpful(step) && !step.Fill? && !step.Post? && (step.Complete? ==> step.lost == {})
    ensures var s' := Apply(c, s, step);
      Invariant(c, s') && s'.open && s'.log == s.log && 0 <= Work(s') < Work(s)
  {
    step := if s.posted != [] then RunPost
            else if Unsent(s) >= 1 then Emit(Unsent(s)) else Complete(true, {});
    HelpfulWork(c, s, step);
    InvariantStep(c, s, step);
    WorkIsNatural(c, Apply(c, s, step));
  }

  lemma {:induction false} HeldSomewhere<U>(senders: seq<Sender<U>>, b: nat) returns (t: nat)
    requires Held(senders, b) >= 1
    ensures t < |senders| && Holds(senders[t], b)
  {
    if Holds(senders[0], b) {
      t := 0;
    } else {
      t := HeldSomewhere(senders[1..], b);
      t := t + 1;
    }
  }

  /** On an error-free connection with an empty pool and a buffer left alive, a helpful step is enabled.
      None of them waits for a spinning thread. */
  lemma HelpIsEnabled<U>(c: Setup, s: State<U>, b: nat) returns (step: Step<U>)
    requires Invariant(c, s) && SoundSetup(c) && s.open && s.pool == {}
    requires b < c.pool && b !in s.deleted
    ensures Enabled(c, s, step) && Helpful(step) && ErrorFree(step) && (step.Complete? ==> step.lost == {})
  {
    assert Places(s, b) == 1;
    if s.posted != [] || s.queue != [] {
      step := StrandHelps(c, s);
    } else {
      var t := HeldSomewhere(s.senders, b);
      HeldIsExclusive(c, s, t, b);
      step := if s.senders[t].Filling? then Fill(t) else Post(t);
    }
  }

  /** The pool is empty in every state of the run before its end, and nothing fails or closes. */
  ghost predicate Starved<U>(c: Setup, s: State<U>, run: seq<Step<U>>)
    requires IsRun(c, s, run)
    decreases |run|
  {
    run != [] ==> s.pool == {} && ErrorFree(run[0]) && Starved(c, Apply(c, s, run[0]), run[1..])
  }

  function Helps<U>(run: seq<Step<U>>): nat
  {
    if run == [] then 0 else One(Helpful(run[0])) + Helps(run[1..])
  }

  /** However the steps are interleaved, at most `Work(s)` helpful ones happen before a buffer is back. */
  lemma {:induction false} StarvationIsBounded<U>(c: Setup, s: State<U>, run: seq<Step<U>>)
    requires Invariant(c, s) && SoundSetup(c) && IsRun(c, s, run) && Starved(c, s, run)
    ensures Helps(run) <= Work(s)
    decreases |run|
  {
    if run == [] {
      WorkIsNatural(c, s);
    } else {
      WorkStep(c, s, run[0]);
      InvariantStep(c, s, run[0]);
      StarvationIsBounded(c, Apply(c, s, run[0]), run[1..]);
    }
  }

  lemma HelpKeepsOpen<U>(c: Setup, s: State<U>, step: Step<U>)
    requires WriterHolds(c, s) && Enabled(c, s, step) && Helpful(step) && s.open && (step.Complete? ==> step.lost == {})
    ensures var s' := Apply(c, s, step);
      s'.open && s'.deleted == s.deleted && (step.Complete? ==> s'.pool != {})
  {
    if step.Complete? {
      assert s.queue[0] in Batch(s);
      assert s.queue[0] in Apply(c, s, step).pool;
    }
  }

  /** One more helpful step: the work goes down, or a buffer is back in the pool. */
  lemma HelpOnce<U>(c: Setup, s: State<U>, b: nat) returns (step: Step<U>)
    requires Invariant(c, s) && SoundSetup(c) && s.open && s.pool == {}
    requires b < c.pool && b !in s.deleted
    ensures Enabled(c, s, step) && Helpful(step) && Work(s) >= 1
    ensures var s' := Apply(c, s, step);
      && Invariant(c, s') && s'.open && s'.deleted == s.deleted && 0 <= Work(s') < Work(s)
      && (step.Complete? ==> s'.pool != {})
  {
    step := HelpIsEnabled(c, s, b);
    WorkStep(c, s, step);
    InvariantStep(c, s, step);
    WorkIsNatural(c, Apply(c, s, step));
    HelpKeepsOpen(c, s, step);
  }

  /** ... and so many of them do lead to a buffer in the pool, whatever was deleted before, as long as
      one buffer is alive. */
  lemma {:induction false} PoolRefills<U>(c: Setup, s: State<U>, b: nat) returns (run: seq<Step<U>>)
    requires Invariant(c, s) && SoundSetup(c) && s.open && b < c.pool && b !in s.deleted
    ensures IsRun(c, s, run) && Exec(c, s, run).pool != {} && |run| <= Work(s)
    ensures forall i :: 0 <= i < |run| ==> Helpful(run[i])
    ensures Exec(c, s, run).open && Exec(c, s, run).deleted == s.deleted
    decreases Work(s)
  {
    WorkIsNatural(c, s);
    run := [];
    if s.pool == {} {
      var step := HelpOnce(c, s, b);
      var rest := PoolRefills(c, Apply(c, s, step), b);
      run := [step] + rest;
      assert run[1..] == rest;
    }
  }
}
