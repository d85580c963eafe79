/** What the past of a send pipeline says, told by its events alone: where each thread is, what was posted by
    whom, what was lost, and what can happen next. */
module PipelineHistory {
  import opened Streams
  import opened SendPipeline
  import opened PipelineInvariants

  /** Where a thread stands in `send`. */
  datatype Stage = Away | Wanting | Holding(b: nat) | Ready(b: nat)

  function StageOf<U>(past: seq<Step<U>>, t: nat): Stage
  {
    if past == [] then Away
    else
      var n := |past| - 1;
      var before := StageOf(past[..n], t);
      match past[n]
      case Begin(u, _) => if u == t then Wanting else before
      case Pop(u, b) => if u == t then Holding(b) else before
      case Fill(u) => if u == t && before.Holding? then Ready(before.b) else before
      case Post(u) => if u == t then Away else before
      case _ => before
  }

  /** The payloads thread `t` has called `send` with. */
  function Calls<U>(past: seq<Step<U>>, t: nat): seq<seq<U>>
  {
    if past == [] then []
    else
      var n := |past| - 1;
      Calls(past[..n], t) + (if past[n].Begin? && past[n].t == t then [past[n].payload] else [])
  }

  /** The payload of the call it is in, or was in last. */
  function LastCall<U>(past: seq<Step<U>>, t: nat): seq<U>
  {
    var calls := Calls(past, t);
    if calls == [] then [] else calls[|calls| - 1]
  }

  /** The payloads posted, in order, and who posted them. */
  function Posts<U>(past: seq<Step<U>>): seq<seq<U>>
  {
    if past == [] then []
    else
      var n := |past| - 1;
      Posts(past[..n]) + (if past[n].Post? then [LastCall(past[..n], past[n].t)] else [])
  }

  function Posters<U>(past: seq<Step<U>>): seq<nat>
  {
    if past == [] then []
    else var n := |past| - 1; Posters(past[..n]) + (if past[n].Post? then [past[n].t] else [])
  }

  /** How many handlers the strand has run. */
  function HandlersRun<U>(past: seq<Step<U>>): nat
  {
    if past == [] then 0
    else var n := |past| - 1; HandlersRun(past[..n]) + One(past[n].RunPost?)
  }

  /** How many units the network has taken. */
  function Taken<U>(past: seq<Step<U>>): nat
  {
    if past == [] then 0
    else var n := |past| - 1; Taken(past[..n]) + (if past[n].Emit? then past[n].n else 0)
  }

  /** The buffers the pool has refused. */
  function Refused<U>(past: seq<Step<U>>): set<nat>
  {
    if past == [] then {}
    else var n := |past| - 1; Refused(past[..n]) + (if past[n].Complete? then past[n].lost else {})
  }

  predicate WriteFailed<U>(past: seq<Step<U>>) { exists i :: 0 <= i < |past| && past[i].Complete? && !past[i].ok }

  predicate Shut<U>(past: seq<Step<U>>) { WriteFailed(past) || exists i :: 0 <= i < |past| && past[i].Close? }

  function SenderAt<U>(stage: Stage, payload: seq<U>): Sender<U>
  {
    match stage
    case Away => Idle
    case Wanting => Spinning(payload)
    case Holding(b) => Filling(b, payload)
    case Ready(b) => Filled(b, payload)
  }

  ghost predicate ThreadTold<U>(past: seq<Step<U>>, s: State<U>, t: nat) {
    && t < |s.senders| && t < |s.issued|
    && s.issued[t] == Calls(past, t) && s.senders[t] == SenderAt(StageOf(past, t), LastCall(past, t))
  }

  ghost predicate ThreadsTold<U>(threads: nat, past: seq<Step<U>>, s: State<U>) {
    |s.senders| == |s.issued| == threads && forall t :: 0 <= t < threads ==> ThreadTold(past, s, t)
  }

  ghost predicate StrandTold<U>(past: seq<Step<U>>, s: State<U>) {
    && s.log == Posts(past) && s.authors == Posters(past) && |s.posted| + HandlersRun(past) == |s.log|
    && |s.wire| == Taken(past) && s.deleted == Refused(past)
    && (s.failed <==> WriteFailed(past)) && (s.open <==> !Shut(past))
  }

  // ---- One more event.

  lemma Front<U>(past: seq<Step<U>>, x: Step<U>)
    ensures (past + [x])[..|past|] == past && (past + [x])[|past|] == x
  {
  }

  lemma StageNext<U>(past: seq<Step<U>>, x: Step<U>, t: nat)
    ensures var all, before := past + [x], StageOf(past, t);
      && Calls(all, t) == Calls(past, t) + (if x.Begin? && x.t == t then [x.payload] else [])
      && StageOf(all, t) ==
           (if x.Begin? && x.t == t then Wanting
            else if x.Pop? && x.t == t then Holding(x.b)
            else if x.Fill? && x.t == t && before.Holding? then Ready(before.b)
            else if x.Post? && x.t == t then Away else before)
  {
    Front(past, x);
  }

  lemma OthersStay<U>(c: Setup, past: seq<Step<U>>, s: State<U>, x: Step<U>, t: nat)
    requires ThreadTold(past, s, t) && Enabled(c, s, x) && !(OfThread(x) && x.t == t)
    ensures ThreadTold(past + [x], Apply(c, s, x), t)
  {
    StageNext(past, x, t);
    assert Calls(past, t) + [] == Calls(past, t);
  }

  predicate OfThread<U>(x: Step<U>) { x.Begin? || x.Pop? || x.Scribble? || x.Fill? || x.Post? }

  lemma ThreadNext<U>(c: Setup, past: seq<Step<U>>, s: State<U>, x: Step<U>, t: nat)
    requires ThreadTold(past, s, t) && Enabled(c, s, x)
    ensures ThreadTold(past + [x], Apply(c, s, x), t)
  {
    if OfThread(x) && x.t == t {
      StageNext(past, x, t);
      assert Calls(past, t) + [] == Calls(past, t);
    } else {
      OthersStay(c, past, s, x, t);
    }
  }

  lemma ThreadsNext<U>(c: Setup, threads: nat, past: seq<Step<U>>, s: State<U>, x: Step<U>)
    requires ThreadsTold(threads, past, s) && Enabled(c, s, x)
    ensures ThreadsTold(threads, past + [x], Apply(c, s, x))
  {
    forall t | 0 <= t < threads ensures ThreadTold(past + [x], Apply(c, s, x), t) {
      ThreadNext(c, past, s, x, t);
    }
  }

  lemma EndingsNext<U>(past: seq<Step<U>>, x: Step<U>)
    ensures WriteFailed(past + [x]) <==> WriteFailed(past) || (x.Complete? && !x.ok)
    ensures Shut(past + [x]) <==> Shut(past) || (x.Complete? && !x.ok) || x.Close?
  {
    var all, n := past + [x], |past|;
    assert all[n] == x && forall i :: 0 <= i < n ==> all[i] == past[i];
  }

  lemma StrandNext<U>(c: Setup, threads: nat, past: seq<Step<U>>, s: State<U>, x: Step<U>)
    requires ThreadsTold(threads, past, s) && StrandTold(past, s) && Enabled(c, s, x)
    ensures StrandTold(past + [x], Apply(c, s, x))
  {
    Front(past, x);
    EndingsNext(past, x);
    if x.Post? { assert ThreadTold(past, s, x.t); }
  }

  lemma {:induction false} RunLast<U>(c: Setup, s: State<U>, run: seq<Step<U>>)
    requires run != [] && IsRun(c, s, run)
    ensures var n := |run| - 1;
      IsRun(c, s, run[..n]) && Enabled(c, Exec(c, s, run[..n]), run[n])
      && Exec(c, s, run) == Apply(c, Exec(c, s, run[..n]), run[n])
    decreases |run|
  {
    var n := |run| - 1;
    if n == 0 {
      assert run[..0] == [] && run[1..] == [];
    } else {
      assert run[1..][..n - 1] == run[..n][1..] && run[..n][0] == run[0];
      RunLast(c, Apply(c, s, run[0]), run[1..]);
    }
  }

  /** In every state of every run the threads are where their own events put them; what was posted, by whom,
      what was transmitted, what was lost and whether the socket is open is what the past says. */
  lemma {:induction false} PastIsTold<U>(c: Setup, threads: nat, run: seq<Step<U>>)
    requires IsRun(c, Init<U>(c, threads), run)
    ensures ThreadsTold(threads, run, Exec(c, Init<U>(c, threads), run))
    ensures StrandTold(run, Exec(c, Init<U>(c, threads), run))
    decreases |run|
  {
    if run != [] {
      var n := |run| - 1;
      RunLast(c, Init<U>(c, threads), run);
      PastIsTold(c, threads, run[..n]);
      assert run == run[..n] + [run[n]];
      var s := Exec(c, Init<U>(c, threads), run[..n]);
      ThreadsNext(c, threads, run[..n], s, run[n]);
      StrandNext(c, threads, run[..n], s, run[n]);
    }
  }

  // ---- What can happen next.

  /** Buffer `b` exists and is in nobody's hand, not on its way, and not lost. */
  ghost predicate IsFree<U>(c: Setup, threads: nat, past: seq<Step<U>>, s: State<U>, b: nat) {
    && b < c.pool && b !in s.posted && b !in s.queue && b !in Refused(past)
    && forall t :: 0 <= t < threads ==> StageOf(past, t) != Holding(b) && StageOf(past, t) != Ready(b)
  }

  ghost predicate Possible<U>(c: Setup, threads: nat, past: seq<Step<U>>, s: State<U>, x: Step<U>) {
    match x
    case Begin(t, _) => t < threads && StageOf(past, t).Away? && !Shut(past)
    case Pop(t, b) => t < threads && StageOf(past, t).Wanting? && IsFree(c, threads, past, s, b)
    case Scribble(t, _) => t < threads && StageOf(past, t).Holding?
    case Fill(t) => t < threads && StageOf(past, t).Holding?
    case Post(t) => t < threads && StageOf(past, t).Ready?
    case RunPost => HandlersRun(past) < |Posts(past)|
    case Emit(n) =>
      && s.write.Writing? && !Shut(past)
      && Taken(past) + n <= |Flatten(Posts(past)[..Min(s.recycled + s.active, |Posts(past)|)])|
    case Complete(ok, lost) =>
      && s.write.Writing? && (ok ==> Unsent(s) == 0)
      && forall b :: b in lost ==> exists i :: 0 <= i < s.active && i < |s.queue| && s.queue[i] == b
    case Close => true
  }

  lemma {:induction false} HeldByOne<U>(senders: seq<Sender<U>>, b: nat)
    requires forall t :: 0 <= t < |senders| ==> !Holds(senders[t], b)
    ensures Held(senders, b) == 0
  {
    if senders != [] { HeldByOne(senders[1..], b); }
  }

  lemma FreeIsPooled<U>(c: Setup, threads: nat, past: seq<Step<U>>, s: State<U>, b: nat)
    requires Invariant(c, s) && ThreadsTold(threads, past, s) && StrandTold(past, s)
    ensures b in s.pool <==> IsFree(c, threads, past, s, b)
  {
    assert Places(s, b) == One(b < c.pool);
    CountIn(s.posted, b);
    CountIn(s.queue, b);
    forall t | 0 <= t < threads
      ensures Holds(s.senders[t], b) <==> StageOf(past, t) == Holding(b) || StageOf(past, t) == Ready(b)
    {
      assert ThreadTold(past, s, t);
    }
    if IsFree(c, threads, past, s, b) {
      HeldByOne(s.senders, b);
    } else if t: nat :| t < threads && Holds(s.senders[t], b) {
      HeldBound(s.senders, t, b);
    }
  }

  lemma EmissionLimit<U>(c: Setup, past: seq<Step<U>>, s: State<U>, n: nat)
    requires Invariant(c, s) && StrandTold(past, s) && s.write.Writing? && s.open
    ensures s.recycled + s.active <= |s.log|
    ensures n <= Unsent(s) <==> Taken(past) + n <= |Flatten(s.log[..s.recycled + s.active])|
  {
    BatchIsLogged(c, s);
  }

  lemma HoldingExists<U>(c: Setup, threads: nat, past: seq<Step<U>>, s: State<U>, t: nat)
    requires Invariant(c, s) && ThreadsTold(threads, past, s) && t < threads && s.senders[t].Filling?
    ensures s.senders[t].buf < |s.memory|
  {
    HeldIsExclusive(c, s, t, s.senders[t].buf);
  }

  /** Every guard is exact: a step can be taken if and only if the past, the ring and the outstanding write
      allow it. In particular every free buffer can be popped, every part of the outstanding write can be
      transmitted, and any of its buffers may be refused by the pool. */
  lemma GuardsAreExact<U>(c: Setup, threads: nat, run: seq<Step<U>>, x: Step<U>)
    requires SoundSetup(c) && IsRun(c, Init<U>(c, threads), run)
    ensures var s := Exec(c, Init<U>(c, threads), run);
      Enabled(c, s, x) <==> Possible(c, threads, run, s, x)
  {
    var s := Exec(c, Init<U>(c, threads), run);
    PastIsTold(c, threads, run);
    InvariantInit<U>(c, threads);
    InvariantRun(c, Init<U>(c, threads), run);
    GuardIsExact(c, threads, run, s, x);
  }

  lemma ThreadGuard<U>(c: Setup, threads: nat, past: seq<Step<U>>, s: State<U>, x: Step<U>)
    requires ThreadsTold(threads, past, s) && (s.open <==> !Shut(past)) && OfThread(x)
    requires x.Pop? ==> (x.b in s.pool <==> IsFree(c, threads, past, s, x.b))
    requires x.t < threads && s.senders[x.t].Filling? ==> s.senders[x.t].buf < |s.memory|
    ensures Enabled(c, s, x) <==> Possible(c, threads, past, s, x)
  {
    if x.t < threads { assert ThreadTold(past, s, x.t); }
  }

  lemma CompletionGuard<U>(c: Setup, threads: nat, past: seq<Step<U>>, s: State<U>, ok: bool, lost: set<nat>)
    requires s.write.Writing? ==> s.active <= |s.queue|
    ensures Enabled(c, s, Complete(ok, lost)) <==> Possible(c, threads, past, s, Complete(ok, lost))
  {
    if s.write.Writing? {
      forall b ensures b in Batch(s) <==> exists i :: 0 <= i < s.active && i < |s.queue| && s.queue[i] == b {
        if b in Batch(s) {
          var i :| 0 <= i < |Batch(s)| && Batch(s)[i] == b;
          assert s.queue[i] == b;
        }
        if i :| 0 <= i < s.active && i < |s.queue| && s.queue[i] == b { assert Batch(s)[i] == b; }
      }
    }
  }

  lemma StrandGuard<U>(c: Setup, threads: nat, past: seq<Step<U>>, s: State<U>, x: Step<U>)
    requires Invariant(c, s) && StrandTold(past, s) && (x.RunPost? || x.Emit? || x.Close?)
    ensures Enabled(c, s, x) <==> Possible(c, threads, past, s, x)
  {
    if x.Emit? && s.write.Writing? && s.open { EmissionLimit(c, past, s, x.n); }
  }

  lemma GuardIsExact<U>(c: Setup, threads: nat, past: seq<Step<U>>, s: State<U>, x: Step<U>)
    requires SoundSetup(c) && Invariant(c, s) && ThreadsTold(threads, past, s) && StrandTold(past, s)
    ensures Enabled(c, s, x) <==> Possible(c, threads, past, s, x)
  {
    if OfThread(x) {
      if x.Pop? { FreeIsPooled(c, threads, past, s, x.b); }
      if x.t < threads && s.senders[x.t].Filling? { HoldingExists(c, threads, past, s, x.t); }
      ThreadGuard(c, threads, past, s, x);
    } else if x.Complete? {
      CompletionGuard(c, threads, past, s, x.ok, x.lost);
    } else {
      StrandGuard(c, threads, past, s, x);
    }
  }

  // ---- What the steps do that the past does not show.

  /** A write gathers, when it begins, as many buffers as the limit allows and the ring has, and nothing of
      them is transmitted yet; the ring holds all that handlers have pushed and no completion has recycled. */
  lemma WritesGatherAll<U>(c: Setup, threads: nat, run: seq<Step<U>>, x: Step<U>)
    requires SoundSetup(c) && IsRun(c, Init<U>(c, threads), run) && Enabled(c, Exec(c, Init<U>(c, threads), run), x)
    ensures var s := Exec(c, Init<U>(c, threads), run);
      var s' := Apply(c, s, x);
      && s.recycled + |s.queue| == HandlersRun(run)
      && (s'.write.Writing? && (s.write.NoWrite? || x.Complete?) ==>
            s'.active == Min(c.batch, |s'.queue|) && s'.write.sent == 0)
  {
    PastIsTold(c, threads, run);
    InvariantInit<U>(c, threads);
    InvariantRun(c, Init<U>(c, threads), run);
    var s := Exec(c, Init<U>(c, threads), run);
    assert |s.log[s.recycled..]| == |Contents(s.memory, s.queue + s.posted)|;
  }

  /** Until it is filled a buffer in a thread's hand may hold anything. */
  lemma AnythingInHand<U(!new)>(c: Setup, threads: nat, s: State<U>, t: nat, junk: seq<U>) returns (s': State<U>)
    requires SoundSetup(c) && Reachable(c, threads, s) && t < |s.senders| && s.senders[t].Filling?
    ensures Reachable(c, threads, s') && s.senders[t].buf < |s.memory|
    ensures s' == s.(memory := s.memory[s.senders[t].buf := junk])
  {
    ReachableInvariant(c, threads, s);
    HeldIsExclusive(c, s, t, s.senders[t].buf);
    ReachableStep(c, threads, s, Scribble(t, junk));
    s' := Apply(c, s, Scribble(t, junk));
  }
}
