/** What every step of the send pipeline keeps, and so what holds in every state of every run. */
module PipelineInvariants {
  import opened Streams
  import opened SendPipeline

  // ---- Buffers: each is in exactly one place.

  function Count(q: seq<nat>, b: nat): nat
  {
    if q == [] then 0 else (if q[0] == b then 1 else 0) + Count(q[1..], b)
  }

  predicate Holds<U>(x: Sender<U>, b: nat) {
    (x.Filling? || x.Filled?) && x.buf == b
  }

  /** How many threads hold buffer `b`. */
  function Held<U>(senders: seq<Sender<U>>, b: nat): nat
  {
    if senders == [] then 0 else (if Holds(senders[0], b) then 1 else 0) + Held(senders[1..], b)
  }

  function One(p: bool): nat { if p then 1 else 0 }

  /** In how many places buffer `b` is. */
  function Places<U>(s: State<U>, b: nat): nat
  {
    One(b in s.pool) + Held(s.senders, b) + Count(s.posted, b) + Count(s.queue, b) + One(b in s.deleted)
  }

  /** Every buffer of the constructor is in exactly one of pool, a thread's hand, a posted handler,
      the ring, or deleted; no other buffer exists. */
  ghost predicate Conserved<U>(c: Setup, s: State<U>) {
    |s.memory| == c.pool && forall b: nat :: Places(s, b) == One(b < c.pool)
  }

  lemma {:induction false} CountAppend(p: seq<nat>, q: seq<nat>, b: nat)
    ensures Count(p + q, b) == Count(p, b) + Count(q, b)
  {
    if p == [] {
      assert p + q == q;
    } else {
      assert (p + q)[1..] == p[1..] + q;
      CountAppend(p[1..], q, b);
    }
  }

  lemma {:induction false} CountIn(q: seq<nat>, b: nat)
    ensures b in q <==> Count(q, b) >= 1
  {
    if q != [] {
      CountIn(q[1..], b);
      assert b in q <==> b == q[0] || b in q[1..];
    }
  }

  lemma {:induction false} HeldUpdate<U>(senders: seq<Sender<U>>, t: nat, x: Sender<U>, b: nat)
    requires t < |senders|
    ensures Held(senders[t := x], b) + One(Holds(senders[t], b)) == Held(senders, b) + One(Holds(x, b))
  {
    if t == 0 {
      assert senders[t := x][1..] == senders[1..];
    } else {
      assert senders[t := x][1..] == senders[1..][t - 1 := x];
      HeldUpdate(senders[1..], t - 1, x, b);
    }
  }

  lemma {:induction false} HeldBound<U>(senders: seq<Sender<U>>, t: nat, b: nat)
    requires t < |senders| && Holds(senders[t], b)
    ensures Held(senders, b) >= 1
  {
    if t > 0 {
      HeldBound(senders[1..], t - 1, b);
    }
  }

  lemma {:induction false} HeldTwice<U>(senders: seq<Sender<U>>, t: nat, u: nat, b: nat)
    requires t < u < |senders| && Holds(senders[t], b) && Holds(senders[u], b)
    ensures Held(senders, b) >= 2
  {
    if t == 0 {
      HeldBound(senders[1..], u - 1, b);
    } else {
      HeldTwice(senders[1..], t - 1, u - 1, b);
    }
  }

  lemma {:induction false} NoRepeats(q: seq<nat>, room: set<nat>)
    requires forall b: nat :: Count(q, b) <= One(b in room)
    ensures |q| <= |room|
  {
    if q != [] {
      CountIn(q, q[0]);
      forall b: nat ensures Count(q[1..], b) <= One(b in room - {q[0]}) {
        assert Count(q, b) == One(q[0] == b) + Count(q[1..], b);
      }
      NoRepeats(q[1..], room - {q[0]});
    }
  }

  /** The ring is never full when a handler pushes, so it never overwrites a queued buffer. */
  lemma RingHasRoom<U>(c: Setup, s: State<U>)
    requires Conserved(c, s) && s.posted != [] && c.ring >= c.pool
    ensures |s.queue| < c.ring && RingPush(c.ring, s.queue, s.posted[0]) == s.queue + [s.posted[0]]
  {
    var b := s.posted[0];
    CountIn(s.posted, b);
    assert Places(s, b) == One(b < c.pool);
    var room := AllBuffers(c.pool) - {b};
    forall x: nat ensures Count(s.queue, x) <= One(x in room) {
      assert Places(s, x) == One(x < c.pool);
    }
    NoRepeats(s.queue, room);
  }

  lemma CompleteConserves<U>(c: Setup, s: State<U>, lost: set<nat>, b: nat)
    requires Conserved(c, s) && forall x :: x in lost ==> x in Batch(s)
    ensures One(b in s.pool + (ToSet(Batch(s)) - lost)) + One(b in s.deleted + lost)
         == One(b in s.pool) + One(b in s.deleted) + Count(Batch(s), b)
    ensures Count(s.queue, b) == Count(Batch(s), b) + Count(s.queue[|Batch(s)|..], b)
  {
    assert s.queue == Batch(s) + s.queue[|Batch(s)|..];
    CountAppend(Batch(s), s.queue[|Batch(s)|..], b);
    assert Places(s, b) == One(b < c.pool);
    CountIn(Batch(s), b);
  }

  lemma SenderMoves<U>(c: Setup, s: State<U>, step: Step<U>, b: nat)
    requires Conserved(c, s) && Enabled(c, s, step)
    requires step.Begin? || step.Pop? || step.Fill? || step.Post?
    ensures Places(Apply(c, s, step), b) == Places(s, b)
  {
    HeldUpdate(s.senders, step.t, Apply(c, s, step).senders[step.t], b);
    if step.Post? {
      CountAppend(s.posted, [s.senders[step.t].buf], b);
    }
  }

  lemma StrandMoves<U>(c: Setup, s: State<U>, b: nat)
    requires Conserved(c, s) && Enabled(c, s, Step<U>.RunPost) && c.ring >= c.pool
    ensures Places(Apply(c, s, RunPost), b) == Places(s, b)
  {
    RingHasRoom(c, s);
    CountAppend(s.queue, [s.posted[0]], b);
  }

  lemma WriterMoves<U>(c: Setup, s: State<U>, ok: bool, lost: set<nat>, b: nat)
    requires Conserved(c, s) && Enabled(c, s, Complete(ok, lost))
    ensures Places(Apply(c, s, Complete(ok, lost)), b) == Places(s, b)
  {
    CompleteConserves(c, s, lost, b);
  }

  lemma ConservedStep<U>(c: Setup, s: State<U>, step: Step<U>)
    requires Conserved(c, s) && Enabled(c, s, step) && c.ring >= c.pool
    ensures Conserved(c, Apply(c, s, step))
  {
    var s' := Apply(c, s, step);
    forall b: nat ensures Places(s', b) == One(b < c.pool) {
      assert Places(s', b) == Places(s, b) by {
        match step
        case RunPost => StrandMoves(c, s, b);
        case Complete(ok, lost) => WriterMoves(c, s, ok, lost, b);
        case Emit(_) =>
        case Scribble(_, _) =>
        case Close =>
        case _ => SenderMoves(c, s, step, b);
      }
    }
  }

  /** A buffer in a thread's hand is nowhere else. */
  lemma HeldIsExclusive<U>(c: Setup, s: State<U>, t: nat, b: nat)
    requires Conserved(c, s) && t < |s.senders| && Holds(s.senders[t], b)
    ensures b < c.pool && b !in s.pool && b !in s.posted && b !in s.queue && b !in s.deleted
    ensures forall u :: 0 <= u < |s.senders| && u != t ==> !Holds(s.senders[u], b)
  {
    assert Places(s, b) == One(b < c.pool);
    HeldBound(s.senders, t, b);
    CountIn(s.posted, b);
    CountIn(s.queue, b);
    forall u | 0 <= u < |s.senders| && u != t ensures !Holds(s.senders[u], b) {
      if Holds(s.senders[u], b) {
        HeldTwice(s.senders, if t < u then t else u, if t < u then u else t, b);
      }
    }
  }

  // ---- Payloads: what is queued and posted is what was logged and not yet recycled.

  ghost predicate HistoryHolds<U>(s: State<U>) {
    && s.recycled <= |s.log|
    && s.log[s.recycled..] == Contents(s.memory, s.queue + s.posted)
    && (forall t :: 0 <= t < |s.senders| && s.senders[t].Filled? ==>
          At(s.memory, s.senders[t].buf) == s.senders[t].payload)
  }

  // ---- The writer.

  ghost predicate WriterHolds<U>(c: Setup, s: State<U>) {
    && (s.write.Writing? ==>
          && 1 <= s.active <= Min(c.batch, |s.queue|)
          && s.slices == SlicesOf(s.memory, s.queue[..s.active])
          && Unsent(s) >= 0)
    && (s.write.NoWrite? && s.queue != [] ==> s.failed)
    && (s.failed ==> !s.open)
  }

  lemma ContentsFrame<U>(memory: seq<seq<U>>, q: seq<nat>, b: nat, x: seq<U>)
    requires b < |memory| && b !in q
    ensures Contents(memory[b := x], q) == Contents(memory, q)
    ensures SlicesOf(memory[b := x], q) == SlicesOf(memory, q)
  {
  }

  lemma {:induction false} GatherIsContents<U>(memory: seq<seq<U>>, q: seq<nat>)
    ensures Gather(memory, SlicesOf(memory, q)) == Flatten(Contents(memory, q))
  {
    if q != [] {
      GatherIsContents(memory, q[1..]);
      assert SlicesOf(memory, q)[1..] == SlicesOf(memory, q[1..]);
      assert Contents(memory, q)[1..] == Contents(memory, q[1..]);
      assert At(memory, q[0])[..|At(memory, q[0])|] == At(memory, q[0]);
    }
  }

  /** A thread filling its buffer touches no queued, posted or in-flight byte. */
  lemma FillFrame<U>(c: Setup, s: State<U>, t: nat, x: seq<U>)
    requires Conserved(c, s) && HistoryHolds(s) && WriterHolds(c, s)
    requires t < |s.senders| && s.senders[t].Filling? && s.senders[t].buf < |s.memory|
    ensures var b, memory := s.senders[t].buf, s.memory[s.senders[t].buf := x];
      && Contents(memory, s.queue + s.posted) == Contents(s.memory, s.queue + s.posted)
      && (s.write.Writing? ==>
            && s.slices == SlicesOf(memory, s.queue[..s.active])
            && Gather(memory, s.slices) == Gather(s.memory, s.slices))
      && (forall u :: 0 <= u < |s.senders| && s.senders[u].Filled? ==>
            At(memory, s.senders[u].buf) == s.senders[u].payload)
  {
    var b := s.senders[t].buf;
    HeldIsExclusive(c, s, t, b);
    var memory := s.memory[b := x];
    ContentsFrame(s.memory, s.queue + s.posted, b, x);
    if s.write.Writing? {
      var q := s.queue[..s.active];
      ContentsFrame(s.memory, q, b, x);
      GatherIsContents(s.memory, q);
      GatherIsContents(memory, q);
    }
    forall u | 0 <= u < |s.senders| && s.senders[u].Filled?
      ensures At(memory, s.senders[u].buf) == s.senders[u].payload
    {
      assert !Holds(s.senders[u], b);
    }
  }

  lemma HistoryFill<U>(c: Setup, s: State<U>, t: nat)
    requires Conserved(c, s) && HistoryHolds(s) && WriterHolds(c, s) && Enabled(c, s, Fill(t))
    ensures HistoryHolds(Apply(c, s, Fill(t)))
  {
    FillFrame(c, s, t, s.senders[t].payload);
  }

  lemma HistoryPost<U>(c: Setup, s: State<U>, t: nat)
    requires HistoryHolds(s) && Enabled(c, s, Post(t))
    ensures HistoryHolds(Apply(c, s, Post(t)))
  {
    var b, p := s.senders[t].buf, s.senders[t].payload;
    assert (s.log + [p])[s.recycled..] == s.log[s.recycled..] + [p];
    assert s.queue + (s.posted + [b]) == s.queue + s.posted + [b];
    assert Contents(s.memory, s.queue + s.posted + [b]) == Contents(s.memory, s.queue + s.posted) + [p];
  }

  lemma HistoryRun<U>(c: Setup, s: State<U>)
    requires Conserved(c, s) && HistoryHolds(s) && Enabled(c, s, Step<U>.RunPost) && c.ring >= c.pool
    ensures HistoryHolds(Apply(c, s, RunPost))
  {
    RingHasRoom(c, s);
    assert s.queue + [s.posted[0]] + s.posted[1..] == s.queue + s.posted;
  }

  lemma HistoryComplete<U>(c: Setup, s: State<U>, ok: bool, lost: set<nat>)
    requires HistoryHolds(s) && Enabled(c, s, Complete(ok, lost))
    ensures HistoryHolds(Apply(c, s, Complete(ok, lost)))
  {
    var k, q := |Batch(s)|, s.queue + s.posted;
    assert |s.log[s.recycled..]| == |q|;
    assert s.queue[k..] + s.posted == q[k..];
    assert s.log[s.recycled + k..] == s.log[s.recycled..][k..];
    assert Contents(s.memory, q[k..]) == Contents(s.memory, q)[k..];
  }

  lemma HistoryStep<U>(c: Setup, s: State<U>, step: Step<U>)
    requires Conserved(c, s) && HistoryHolds(s) && WriterHolds(c, s)
    requires Enabled(c, s, step) && c.ring >= c.pool
    ensures HistoryHolds(Apply(c, s, step))
  {
    match step
    case Scribble(t, junk) => FillFrame(c, s, t, junk);
    case Fill(t) => HistoryFill(c, s, t);
    case Post(t) => HistoryPost(c, s, t);
    case RunPost => HistoryRun(c, s);
    case Complete(ok, lost) => HistoryComplete(c, s, ok, lost);
    case _ =>
  }

  lemma WriterFill<U>(c: Setup, s: State<U>, t: nat)
    requires Conserved(c, s) && HistoryHolds(s) && WriterHolds(c, s) && Enabled(c, s, Fill(t))
    ensures WriterHolds(c, Apply(c, s, Fill(t)))
  {
    FillFrame(c, s, t, s.senders[t].payload);
  }

  lemma WriterRun<U>(c: Setup, s: State<U>)
    requires Conserved(c, s) && WriterHolds(c, s) && Enabled(c, s, Step<U>.RunPost)
    requires c.ring >= c.pool && c.batch >= 1
    ensures WriterHolds(c, Apply(c, s, RunPost))
  {
    RingHasRoom(c, s);
    if s.write.Writing? {
      assert (s.queue + [s.posted[0]])[..s.active] == s.queue[..s.active];
    }
  }

  lemma WriterStep<U>(c: Setup, s: State<U>, step: Step<U>)
    requires Conserved(c, s) && HistoryHolds(s) && WriterHolds(c, s)
    requires Enabled(c, s, step) && c.ring >= c.pool && c.batch >= 1
    ensures WriterHolds(c, Apply(c, s, step))
  {
    match step
    case Scribble(t, junk) => FillFrame(c, s, t, junk);
    case Fill(t) => WriterFill(c, s, t);
    case RunPost => WriterRun(c, s);
    case _ =>
  }

  // ---- The wire.

  /** Until a write fails the wire is every recycled payload followed by what the outstanding write has
      transmitted; a failure leaves it cut short somewhere in the payloads it recycled. */
  ghost predicate WireHolds<U>(s: State<U>)
    requires s.recycled <= |s.log|
  {
    var done := Flatten(s.log[..s.recycled]);
    if s.failed then s.wire <= done
    else s.wire == done + Transmitted(s)
  }

  function Transmitted<U>(s: State<U>): seq<U>
  {
    if s.write.Writing? then
      var g := Gather(s.memory, s.slices); g[..Min(s.write.sent, |g|)]
    else []
  }

  /** The outstanding write reads exactly the payloads that follow the recycled ones. */
  lemma InFlightIsLogged<U>(c: Setup, s: State<U>)
    requires HistoryHolds(s) && WriterHolds(c, s) && s.write.Writing?
    ensures s.recycled + s.active <= |s.log|
    ensures Gather(s.memory, s.slices) == Flatten(s.log[s.recycled..s.recycled + s.active])
  {
    var q := s.queue + s.posted;
    assert |s.log[s.recycled..]| == |q|;
    assert s.log[s.recycled..s.recycled + s.active] == s.log[s.recycled..][..s.active];
    assert Contents(s.memory, q)[..s.active] == Contents(s.memory, s.queue[..s.active]);
    GatherIsContents(s.memory, s.queue[..s.active]);
  }

  lemma WireEmit<U>(c: Setup, s: State<U>, n: nat)
    requires HistoryHolds(s) && WriterHolds(c, s) && WireHolds(s) && Enabled(c, s, Emit(n))
    ensures WireHolds(Apply(c, s, Emit(n)))
  {
    var g, k := Gather(s.memory, s.slices), s.write.sent;
    assert g[..k] + g[k..][..n] == g[..k + n];
    Associative(Flatten(s.log[..s.recycled]), g[..k], g[k..][..n]);
  }

  lemma BatchIsLogged<U>(c: Setup, s: State<U>)
    requires HistoryHolds(s) && WriterHolds(c, s) && s.write.Writing?
    ensures |Batch(s)| == s.active && s.recycled + s.active <= |s.log|
    ensures Flatten(s.log[..s.recycled + s.active]) == Flatten(s.log[..s.recycled]) + Gather(s.memory, s.slices)
  {
    var r, k := s.recycled, s.active;
    InFlightIsLogged(c, s);
    FlattenAppend(s.log[..r], s.log[r..r + k]);
    assert s.log[..r + k] == s.log[..r] + s.log[r..r + k];
  }

  lemma WireWritten<U>(c: Setup, s: State<U>, lost: set<nat>)
    requires HistoryHolds(s) && WriterHolds(c, s) && WireHolds(s) && Enabled(c, s, Complete(true, lost)) && !s.failed
    requires HistoryHolds(Apply(c, s, Complete(true, lost)))
    ensures WireHolds(Apply(c, s, Complete(true, lost)))
  {
    BatchIsLogged(c, s);
    var g := Gather(s.memory, s.slices);
    assert Transmitted(s) == g[..|g|] == g;
    var s' := Apply(c, s, Complete(true, lost));
    assert s'.write.Writing? ==> s'.write.sent == 0;
    assert s.wire + [] == s.wire;
  }

  lemma WireCutShort<U>(c: Setup, s: State<U>, ok: bool, lost: set<nat>)
    requires HistoryHolds(s) && WriterHolds(c, s) && WireHolds(s) && Enabled(c, s, Complete(ok, lost))
    requires !ok || s.failed
    ensures s.recycled + s.active <= |s.log| && s.wire <= Flatten(s.log[..s.recycled + s.active])
  {
    BatchIsLogged(c, s);
    var g, done := Gather(s.memory, s.slices), Flatten(s.log[..s.recycled]);
    assert Transmitted(s) <= g;
    assert s.wire <= done + g;
  }

  lemma WireComplete<U>(c: Setup, s: State<U>, ok: bool, lost: set<nat>)
    requires HistoryHolds(s) && WriterHolds(c, s) && WireHolds(s) && Enabled(c, s, Complete(ok, lost))
    requires HistoryHolds(Apply(c, s, Complete(ok, lost)))
    ensures WireHolds(Apply(c, s, Complete(ok, lost)))
  {
    if ok && !s.failed {
      WireWritten(c, s, lost);
    } else {
      WireCutShort(c, s, ok, lost);
    }
  }

  lemma WireStep<U>(c: Setup, s: State<U>, step: Step<U>)
    requires Conserved(c, s) && HistoryHolds(s) && WriterHolds(c, s) && WireHolds(s)
    requires Enabled(c, s, step) && c.ring >= c.pool
    requires HistoryHolds(Apply(c, s, step))
    ensures WireHolds(Apply(c, s, step))
  {
    match step
    case Scribble(t, junk) => FillFrame(c, s, t, junk);
    case Fill(t) => FillFrame(c, s, t, s.senders[t].payload);
    case Post(t) => assert (s.log + [s.senders[t].payload])[..s.recycled] == s.log[..s.recycled];
    case Emit(n) => WireEmit(c, s, n);
    case Complete(ok, lost) => WireComplete(c, s, ok, lost);
    case _ =>
  }

  // ---- Threads: each thread's messages are logged in its own order.

  function ByThread<U>(log: seq<seq<U>>, authors: seq<nat>, t: nat): seq<seq<U>>
    requires |log| == |authors|
  {
    if log == [] then []
    else
      var k := |log| - 1;
      ByThread(log[..k], authors[..k], t) + (if authors[k] == t then [log[k]] else [])
  }

  /** The payload thread `x` is still working on. */
  function Current<U>(x: Sender<U>): seq<seq<U>> { if x.Idle? then [] else [x.payload] }

  ghost predicate OrderHolds<U>(s: State<U>) {
    && |s.log| == |s.authors| && |s.issued| == |s.senders|
    && forall t :: 0 <= t < |s.senders| ==>
         ByThread(s.log, s.authors, t) + Current(s.senders[t]) == s.issued[t]
  }

  lemma ByThreadSnoc<U>(log: seq<seq<U>>, authors: seq<nat>, p: seq<U>, a: nat, t: nat)
    requires |log| == |authors|
    ensures ByThread(log + [p], authors + [a], t) == ByThread(log, authors, t) + (if a == t then [p] else [])
  {
    assert (log + [p])[..|log|] == log && (authors + [a])[..|log|] == authors;
  }

  lemma OrderPost<U>(c: Setup, s: State<U>, t: nat)
    requires OrderHolds(s) && Enabled(c, s, Post(t))
    ensures OrderHolds(Apply(c, s, Post(t)))
  {
    var s' := Apply(c, s, Post(t));
    forall u | 0 <= u < |s.senders|
      ensures ByThread(s'.log, s'.authors, u) + Current(s'.senders[u]) == s'.issued[u]
    {
      ByThreadSnoc(s.log, s.authors, s.senders[t].payload, t, u);
    }
  }

  lemma OrderBegin<U>(c: Setup, s: State<U>, t: nat, p: seq<U>)
    requires OrderHolds(s) && Enabled(c, s, Begin(t, p))
    ensures OrderHolds(Apply(c, s, Begin(t, p)))
  {
    assert ByThread(s.log, s.authors, t) + Current(s.senders[t]) == s.issued[t];
  }

  lemma OrderStep<U>(c: Setup, s: State<U>, step: Step<U>)
    requires OrderHolds(s) && Enabled(c, s, step)
    ensures OrderHolds(Apply(c, s, step))
  {
    match step
    case Post(t) => OrderPost(c, s, t);
    case Begin(t, p) => OrderBegin(c, s, t, p);
    case _ =>
  }

  // ---- Runs.

  ghost predicate Invariant<U>(c: Setup, s: State<U>) {
    Conserved(c, s) && HistoryHolds(s) && WriterHolds(c, s) && WireHolds(s) && OrderHolds(s)
  }

  /** The sizes the constructors use: the ring holds every buffer and a write gathers at least one. */
  predicate SoundSetup(c: Setup) { c.ring >= c.pool && c.batch >= 1 }

  lemma InvariantStep<U>(c: Setup, s: State<U>, step: Step<U>)
    requires Invariant(c, s) && Enabled(c, s, step) && SoundSetup(c)
    ensures Invariant(c, Apply(c, s, step))
  {
    ConservedStep(c, s, step);
    HistoryStep(c, s, step);
    WriterStep(c, s, step);
    WireStep(c, s, step);
    OrderStep(c, s, step);
  }

  lemma {:induction false} NobodyHolds<U>(threads: nat, b: nat)
    ensures Held(seq(threads, _ => Sender<U>.Idle), b) == 0
  {
    if threads > 0 {
      NobodyHolds<U>(threads - 1, b);
      assert seq(threads, _ => Sender<U>.Idle)[1..] == seq(threads - 1, _ => Sender<U>.Idle);
    }
  }

  lemma InvariantInit<U>(c: Setup, threads: nat)
    ensures Invariant(c, Init<U>(c, threads))
  {
    var s := Init<U>(c, threads);
    forall b: nat ensures Places(s, b) == One(b < c.pool) {
      NobodyHolds<U>(threads, b);
    }
    assert s.log[s.recycled..] == Contents(s.memory, s.queue + s.posted);
    forall t | 0 <= t < threads ensures ByThread(s.log, s.authors, t) + Current(s.senders[t]) == s.issued[t] {
      assert s.senders[t].Idle?;
    }
  }

  lemma {:induction false} InvariantRun<U>(c: Setup, s: State<U>, run: seq<Step<U>>)
    requires Invariant(c, s) && IsRun(c, s, run) && SoundSetup(c)
    ensures Invariant(c, Exec(c, s, run))
    decreases |run|
  {
    if run != [] {
      InvariantStep(c, s, run[0]);
      InvariantRun(c, Apply(c, s, run[0]), run[1..]);
    }
  }

  /** A state that some interleaving of the threads, the strand and the network leads to. */
  ghost predicate Reachable<U(!new)>(c: Setup, threads: nat, s: State<U>) {
    exists run :: IsRun(c, Init<U>(c, threads), run) && s == Exec(c, Init<U>(c, threads), run)
  }

  lemma ReachableInvariant<U(!new)>(c: Setup, threads: nat, s: State<U>)
    requires Reachable(c, threads, s) && SoundSetup(c)
    ensures Invariant(c, s)
  {
    var run :| IsRun(c, Init<U>(c, threads), run) && s == Exec(c, Init<U>(c, threads), run);
    InvariantInit<U>(c, threads);
    InvariantRun(c, Init<U>(c, threads), run);
  }

  lemma ExecOne<U>(c: Setup, s: State<U>, a: Step<U>, rest: seq<Step<U>>)
    requires Enabled(c, s, a)
    ensures IsRun(c, s, [a] + rest) <==> IsRun(c, Apply(c, s, a), rest)
    ensures IsRun(c, s, [a] + rest) ==> Exec(c, s, [a] + rest) == Exec(c, Apply(c, s, a), rest)
  {
    assert ([a] + rest)[1..] == rest;
  }

  lemma ReachableStep<U(!new)>(c: Setup, threads: nat, s: State<U>, step: Step<U>)
    requires Reachable(c, threads, s) && Enabled(c, s, step)
    ensures Reachable(c, threads, Apply(c, s, step))
  {
    var init := Init<U>(c, threads);
    var run :| IsRun(c, init, run) && s == Exec(c, init, run);
    ExecOne(c, s, step, []);
    assert [step] + [] == [step];
    ExecAppend(c, init, run, [step]);
    assert IsRun(c, init, run + [step]);
  }

  lemma ReachableInit<U(!new)>(c: Setup, threads: nat)
    ensures Reachable(c, threads, Init<U>(c, threads))
  {
    assert IsRun(c, Init<U>(c, threads), []);
  }
}
