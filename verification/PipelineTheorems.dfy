/** What the send pipeline guarantees, in every state of every run. */
module PipelineTheorems {
  import opened Streams
  import opened SendPipeline
  import opened PipelineInvariants

  /** Exclusive ownership: a buffer is in the pool, in one thread's hand, in one posted handler, once in
      the ring, or deleted; and none of the constructor's buffers is anywhere else. */
  lemma ExclusiveOwnership<U(!new)>(c: Setup, threads: nat, s: State<U>, b: nat)
    requires Reachable(c, threads, s) && SoundSetup(c) && b < c.pool
    ensures One(b in s.pool) + Held(s.senders, b) + Count(s.posted, b) + Count(s.queue, b) + One(b in s.deleted) == 1
    ensures forall t, u :: 0 <= t < u < |s.senders| ==> !(Holds(s.senders[t], b) && Holds(s.senders[u], b))
  {
    ReachableInvariant(c, threads, s);
    assert Places(s, b) == 1;
    forall t, u | 0 <= t < u < |s.senders| ensures !(Holds(s.senders[t], b) && Holds(s.senders[u], b)) {
      if Holds(s.senders[t], b) { HeldIsExclusive(c, s, t, b); }
    }
  }

  /** A pushed buffer never displaces a queued one. */
  lemma NoOverwrite<U(!new)>(c: Setup, threads: nat, s: State<U>)
    requires Reachable(c, threads, s) && SoundSetup(c) && s.posted != []
    ensures |s.queue| < c.ring && Apply(c, s, RunPost).queue == s.queue + [s.posted[0]]
  {
    ReachableInvariant(c, threads, s);
    RingHasRoom(c, s);
  }

  /** The wire is a prefix of the payloads in post order: no bytes of different payloads are mixed,
      repeated or skipped, whatever fails or closes and whenever it does. */
  lemma WireIsPrefixOfLog<U(!new)>(c: Setup, threads: nat, s: State<U>)
    requires Reachable(c, threads, s) && SoundSetup(c)
    ensures s.wire <= Flatten(s.log)
  {
    ReachableInvariant(c, threads, s);
    InvariantGivesPrefix(c, s);
  }

  lemma InvariantGivesPrefix<U>(c: Setup, s: State<U>)
    requires Invariant(c, s)
    ensures s.wire <= Flatten(s.log)
  {
    FlattenPrefix(s.log[..s.recycled], s.log);
    if !s.failed && s.write.Writing? {
      BatchIsLogged(c, s);
      var k := s.recycled + s.active;
      FlattenPrefix(s.log[..k], s.log);
      var done, g := Flatten(s.log[..s.recycled]), Gather(s.memory, s.slices);
      assert Transmitted(s) <= g;
      assert s.wire <= done + g == Flatten(s.log[..k]);
    }
  }

  /** All of it arrives on the wire once every payload has been recycled and no write has failed. */
  lemma WireIsLogWhenDrained<U(!new)>(c: Setup, threads: nat, s: State<U>)
    requires Reachable(c, threads, s) && SoundSetup(c)
    requires !s.failed && s.posted == [] && s.queue == []
    ensures s.wire == Flatten(s.log)
  {
    ReachableInvariant(c, threads, s);
    DrainedWire(c, s);
  }

  lemma DrainedWire<U>(c: Setup, s: State<U>)
    requires Invariant(c, s) && !s.failed && s.posted == [] && s.queue == []
    ensures s.wire == Flatten(s.log)
  {
    assert |s.log[s.recycled..]| == |s.queue + s.posted|;
    assert s.log[..s.recycled] == s.log;
  }

  /** In-flight stability: an outstanding write refers to exactly the oldest `active` buffers with the
      sizes they still have, and no step of any sender changes a byte it will transmit. */
  lemma InFlightStability<U(!new)>(c: Setup, threads: nat, s: State<U>, step: Step<U>)
    requires Reachable(c, threads, s) && SoundSetup(c) && s.write.Writing?
    requires Enabled(c, s, step) && !step.Complete?
    ensures 1 <= s.active <= Min(c.batch, |s.queue|) && s.slices == SlicesOf(s.memory, s.queue[..s.active])
    ensures var s' := Apply(c, s, step);
      && s'.write.Writing? && s'.active == s.active && s'.slices == s.slices
      && Gather(s'.memory, s'.slices) == Gather(s.memory, s.slices)
      && s'.queue[..Min(s.active, |s'.queue|)] == s.queue[..s.active]
  {
    ReachableInvariant(c, threads, s);
    match step
    case Scribble(t, junk) => FillFrame(c, s, t, junk);
    case Fill(t) => FillFrame(c, s, t, s.senders[t].payload);
    case RunPost => RingHasRoom(c, s);
    case _ =>
  }

  /** Completion takes exactly the gathered batch off the queue and gives each of its buffers back
      (or deletes it when the pool refuses it). */
  lemma CompletionRecyclesTheBatch<U(!new)>(c: Setup, threads: nat, s: State<U>, ok: bool, lost: set<nat>)
    requires Reachable(c, threads, s) && SoundSetup(c) && Enabled(c, s, Complete(ok, lost))
    ensures var s' := Apply(c, s, Complete(ok, lost));
      && s.active <= |s.queue| && s.queue == s.queue[..s.active] + s'.queue
      && (forall b :: b in s'.pool <==> b in s.pool || (b in s.queue[..s.active] && b !in lost))
      && (forall b :: b in s'.deleted <==> b in s.deleted || b in lost)
  {
    assert s.active <= |s.queue| && Batch(s) == s.queue[..s.active] by {
      ReachableInvariant(c, threads, s);
    }
  }

  /** With that, what is on the wire are exactly the payloads recycled so far: each to its last byte, and
      no byte of the next one. */
  lemma CompletionEndsOnBoundary<U(!new)>(c: Setup, threads: nat, s: State<U>, lost: set<nat>)
    requires Reachable(c, threads, s) && SoundSetup(c) && Enabled(c, s, Complete(true, lost)) && !s.failed
    ensures var s' := Apply(c, s, Complete(true, lost));
      && s'.recycled == s.recycled + s.active <= |s.log| && s'.wire == s.wire == Flatten(s.log[..s'.recycled])
  {
    ReachableInvariant(c, threads, s);
    BatchIsLogged(c, s);
    WholeBatchSent(s);
  }

  lemma WholeBatchSent<U>(s: State<U>)
    requires s.write.Writing? && Unsent(s) == 0
    ensures Transmitted(s) == Gather(s.memory, s.slices)
  {
  }

  /** The writer: an outstanding write has something to write; a queue that nobody writes is left over
      from a failed write, and then the socket is closed. */
  lemma NoMessageForgotten<U(!new)>(c: Setup, threads: nat, s: State<U>)
    requires Reachable(c, threads, s) && SoundSetup(c)
    ensures s.write.Writing? ==> s.queue != []
    ensures s.write.NoWrite? && s.queue != [] ==> s.failed && !s.open
    ensures s.failed ==> !s.open
  {
    ReachableInvariant(c, threads, s);
  }

  /** After the socket is closed the wire stays as it is, whatever is still posted or completes. */
  lemma {:induction false} ClosedWireIsFrozen<U>(c: Setup, s: State<U>, run: seq<Step<U>>)
    requires !s.open && IsRun(c, s, run)
    ensures Exec(c, s, run).wire == s.wire && !Exec(c, s, run).open
    decreases |run|
  {
    if run != [] {
      ClosedWireIsFrozen(c, Apply(c, s, run[0]), run[1..]);
    }
  }

  /** A queue left over by a failed write is stranded: no later step of any run writes it or gives a
      buffer back to the pool. `Starvation` says when this happens and what it does to senders. */
  lemma {:induction false} LeftoverIsStranded<U>(c: Setup, s: State<U>, run: seq<Step<U>>)
    requires Invariant(c, s) && SoundSetup(c) && s.write.NoWrite? && s.queue != [] && IsRun(c, s, run)
    ensures var s' := Exec(c, s, run);
      s'.write.NoWrite? && s.queue <= s'.queue && s'.wire == s.wire && s'.pool <= s.pool
    decreases |run|
  {
    if run != [] {
      InvariantStep(c, s, run[0]);
      if run[0].RunPost? { RingHasRoom(c, s); }
      LeftoverIsStranded(c, Apply(c, s, run[0]), run[1..]);
    }
  }

  lemma {:induction false} ByThreadPlace<U>(log: seq<seq<U>>, authors: seq<nat>, t: nat, i: nat) returns (p: nat)
    requires |log| == |authors| && i < |ByThread(log, authors, t)|
    ensures p < |log| && authors[p] == t && log[p] == ByThread(log, authors, t)[i]
    ensures |ByThread(log[..p], authors[..p], t)| == i
  {
    var k := |log| - 1;
    if i < |ByThread(log[..k], authors[..k], t)| {
      p := ByThreadPlace(log[..k], authors[..k], t, i);
      assert log[..k][..p] == log[..p] && authors[..k][..p] == authors[..p];
    } else {
      p := k;
    }
  }

  lemma {:induction false} ByThreadGrows<U>(log: seq<seq<U>>, authors: seq<nat>, t: nat, p: nat, q: nat)
    requires |log| == |authors| && p <= q <= |log|
    ensures |ByThread(log[..p], authors[..p], t)| <= |ByThread(log[..q], authors[..q], t)|
    decreases q - p
  {
    if p < q {
      ByThreadGrows(log, authors, t, p, q - 1);
      assert log[..q][..q - 1] == log[..q - 1] && authors[..q][..q - 1] == authors[..q - 1];
    }
  }

  /** Program order: what a thread has posted is a prefix of what its calls accepted, and two of its
      messages stand in the log, hence on the wire, in the order of the calls. */
  lemma ProgramOrder<U(!new)>(c: Setup, threads: nat, s: State<U>, t: nat, i: nat, j: nat) returns (p: nat, q: nat)
    requires Reachable(c, threads, s) && SoundSetup(c) && t < |s.senders|
    requires |s.log| == |s.authors| && i < j < |ByThread(s.log, s.authors, t)|
    ensures |s.issued| == |s.senders| && j < |s.issued[t]|
    ensures p < q < |s.log| && s.log[p] == s.issued[t][i] && s.log[q] == s.issued[t][j]
    ensures s.authors[p] == s.authors[q] == t
  {
    ReachableInvariant(c, threads, s);
    assert ByThread(s.log, s.authors, t) + Current(s.senders[t]) == s.issued[t];
    p := ByThreadPlace(s.log, s.authors, t, i);
    q := ByThreadPlace(s.log, s.authors, t, j);
    if q <= p {
      ByThreadGrows(s.log, s.authors, t, q, p);
    }
  }

  // ---- The ring must be as large as the pool.

  /** After `k` messages `x` of one thread that the strand has taken, with nothing of the first written. */
  ghost predicate Backlog<U>(c: Setup, threads: nat, s: State<U>, x: seq<U>, k: nat) {
    && |s.senders| == |s.issued| == threads && (forall t :: 0 <= t < threads ==> s.senders[t].Idle?)
    && s.open && !s.failed && |s.memory| == c.pool && s.recycled == 0 && s.wire == []
    && (forall b: nat :: b in s.pool <==> k <= b < c.pool)
    && s.posted == [] && s.deleted == {}
    && |s.queue| == |s.log| == k && (forall i :: 0 <= i < k ==> s.queue[i] == i && s.log[i] == x)
    && (k > 0 ==> s.write == Writing(0) && s.active == 1)
  }

  /** The steps of one call of `send` that finds buffer `b`. */
  function Sending<U>(t: nat, b: nat, data: seq<U>): seq<Step<U>>
  {
    [Begin(t, data), Pop(t, b), Fill(t), Post(t)]
  }

  lemma OneSend<U>(c: Setup, s: State<U>, t: nat, b: nat, data: seq<U>)
    requires t < |s.senders| == |s.issued| && s.senders[t].Idle? && s.open && b in s.pool && b < |s.memory|
    ensures IsRun(c, s, Sending(t, b, data))
    ensures Exec(c, s, Sending(t, b, data))
         == s.(memory := s.memory[b := data], pool := s.pool - {b}, posted := s.posted + [b], log := s.log + [data],
               authors := s.authors + [t], issued := s.issued[t := s.issued[t] + [data]])
  {
    var s1 := Apply(c, s, Begin(t, data));
    var s2 := Apply(c, s1, Pop(t, b));
    var s3 := Apply(c, s2, Fill(t));
    ExecOne(c, s3, Post(t), []);
    ExecOne(c, s2, Fill(t), [Post(t)]);
    ExecOne(c, s1, Pop(t, b), [Fill(t), Post(t)]);
    ExecOne(c, s, Begin(t, data), [Pop(t, b), Fill(t), Post(t)]);
    assert Sending(t, b, data) == [Begin(t, data)] + [Pop(t, b), Fill(t), Post(t)];
    assert Apply(c, s3, Post(t)).senders == s.senders;
  }

  function OneMessage<U>(t: nat, b: nat, x: seq<U>): seq<Step<U>> { Sending(t, b, x) + [RunPost] }

  lemma OneMessageRuns<U>(c: Setup, threads: nat, s: State<U>, t: nat, x: seq<U>, k: nat)
    requires Backlog(c, threads, s, x, k) && k < c.pool && t < threads
    ensures IsRun(c, s, OneMessage(t, k, x))
    ensures var s' := Exec(c, s, OneMessage(t, k, x));
      && s'.queue == RingPush(c.ring, s.queue, k) && s'.pool == s.pool - {k} && s'.posted == []
      && s'.deleted == {} && s'.senders == s.senders && |s'.issued| == threads && s'.open && !s'.failed
      && |s'.memory| == c.pool && s'.recycled == 0 && s'.wire == [] && s'.log == s.log + [x]
      && (if k == 0 then s'.write == Writing(0) && s'.active == Min(c.batch, |s'.queue|)
          else s'.write == s.write && s'.active == s.active)
  {
    OneSend(c, s, t, k, x);
    var s4 := Exec(c, s, Sending(t, k, x));
    ExecOne(c, s4, RunPost, []);
    assert [RunPost] + [] == [Step<U>.RunPost];
    ExecAppend(c, s, Sending(t, k, x), [RunPost]);
  }

  lemma BacklogGrows<U>(c: Setup, threads: nat, s: State<U>, t: nat, x: seq<U>, k: nat)
    requires Backlog(c, threads, s, x, k) && k < c.pool && k < c.ring && t < threads && c.batch >= 1
    ensures IsRun(c, s, OneMessage(t, k, x)) && Backlog(c, threads, Exec(c, s, OneMessage(t, k, x)), x, k + 1)
  {
    OneMessageRuns(c, threads, s, t, x, k);
  }

  /** No thread but `t` calls `send`. */
  predicate OnlySends<U>(run: seq<Step<U>>, t: nat) {
    forall i :: 0 <= i < |run| && run[i].Begin? ==> run[i].t == t
  }

  lemma {:induction false} BacklogReachable<U>(c: Setup, threads: nat, t: nat, x: seq<U>, k: nat)
    returns (run: seq<Step<U>>)
    requires k <= c.ring && k <= c.pool && t < threads && c.batch >= 1
    ensures IsRun(c, Init<U>(c, threads), run) && Backlog(c, threads, Exec(c, Init<U>(c, threads), run), x, k)
    ensures OnlySends(run, t)
  {
    run := [];
    if k > 0 {
      var before := BacklogReachable<U>(c, threads, t, x, k - 1);
      var s := Exec(c, Init<U>(c, threads), before);
      BacklogGrows(c, threads, s, t, x, k - 1);
      ExecAppend(c, Init<U>(c, threads), before, OneMessage(t, k - 1, x));
      run := before + OneMessage(t, k - 1, x);
    }
  }

  lemma {:induction false} NotCounted(q: seq<nat>, b: nat)
    requires b !in q
    ensures Count(q, b) == 0
  {
    if q != [] { NotCounted(q[1..], b); }
  }

  /** With a smaller ring some run of a single thread loses a buffer: it is in no place at all. */
  lemma SmallRingLosesABuffer<U>(c: Setup) returns (run: seq<Step<U>>)
    requires c.ring < c.pool && c.batch >= 1
    ensures IsRun(c, Init<U>(c, 1), run) && Places(Exec(c, Init<U>(c, 1), run), 0) == 0
  {
    var before := BacklogReachable<U>(c, 1, 0, [], c.ring);
    var s := Exec(c, Init<U>(c, 1), before);
    OneMessageRuns(c, 1, s, 0, [], c.ring);
    ExecAppend(c, Init<U>(c, 1), before, OneMessage<U>(0, c.ring, []));
    run := before + OneMessage<U>(0, c.ring, []);
    var s' := Exec(c, Init<U>(c, 1), run);
    assert 0 !in s'.queue;
    NotCounted(s'.queue, 0);
    assert 0 !in s'.pool by { assert 0 in s.pool <==> c.ring <= 0 < c.pool; }
    assert Held(s'.senders, 0) == 0 by { assert s'.senders[1..] == []; }
  }

  /** Buffers are conserved on every run exactly when the ring is at least as large as the pool. */
  lemma RingSizeIsExact<U(!new)>(c: Setup)
    requires c.batch >= 1
    ensures c.ring >= c.pool <==> forall threads: nat, s: State<U> :: Reachable(c, threads, s) ==> Conserved(c, s)
  {
    if c.ring >= c.pool {
      forall threads: nat, s: State<U> | Reachable(c, threads, s) ensures Conserved(c, s) {
        ReachableInvariant(c, threads, s);
      }
    } else {
      var run := SmallRingLosesABuffer<U>(c);
      var s := Exec(c, Init<U>(c, 1), run);
      assert Reachable(c, 1, s);
      assert Places(s, 0) != One(0 < c.pool);
    }
  }
}
