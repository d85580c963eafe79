/** The UDP endpoint: the same pipeline with batches of one, where each buffer carries one datagram
    and the target it was posted with. */
module Datagrams {
  import opened Streams
  import opened SendPipeline
  import opened PipelineInvariants
  import opened PipelineTheorems

  datatype Datagram = Datagram(target: nat, data: seq<byte>)

  /** Every `send_to` issues one datagram. */
  predicate SendsSingles<U>(step: Step<U>) {
    step.Begin? ==> |step.payload| == 1
  }

  ghost predicate Singles<U>(s: State<U>) {
    && (forall i :: 0 <= i < |s.log| ==> |s.log[i]| == 1)
    && (forall t :: 0 <= t < |s.senders| ==> s.senders[t].Idle? || |s.senders[t].payload| == 1)
  }

  lemma {:induction false} SinglesRun<U>(c: Setup, s: State<U>, run: seq<Step<U>>)
    requires Singles(s) && IsRun(c, s, run) && forall i :: 0 <= i < |run| ==> SendsSingles(run[i])
    ensures Singles(Exec(c, s, run))
    decreases |run|
  {
    if run != [] {
      assert SendsSingles(run[0]);
      SinglesRun(c, Apply(c, s, run[0]), run[1..]);
    }
  }

  lemma {:induction false} FlattenSingles<U>(ms: seq<seq<U>>)
    requires forall i :: 0 <= i < |ms| ==> |ms[i]| == 1
    ensures |Flatten(ms)| == |ms| && forall i :: 0 <= i < |ms| ==> Flatten(ms)[i] == ms[i][0]
  {
    if ms != [] {
      FlattenSingles(ms[1..]);
      assert Flatten(ms) == ms[0] + Flatten(ms[1..]);
      assert forall i :: 1 <= i < |ms| ==> ms[i] == ms[1..][i - 1];
    }
  }

  lemma SinglesWire<U>(c: Setup, s: State<U>)
    requires Invariant(c, s) && Singles(s)
    ensures |s.wire| <= |s.log| && forall i :: 0 <= i < |s.wire| ==> s.log[i] == [s.wire[i]]
  {
    InvariantGivesPrefix(c, s);
    FlattenSingles(s.log);
    forall i | 0 <= i < |s.wire| ensures s.log[i] == [s.wire[i]] {
      assert s.wire[i] == Flatten(s.log)[i];
    }
  }

  lemma SinglesOutstanding<U>(c: Setup, s: State<U>)
    requires Invariant(c, s) && Singles(s) && c.batch == 1 && !s.failed
    ensures s.recycled <= |s.wire| <= s.recycled + 1
  {
    FlattenSingles(s.log[..s.recycled]);
    if s.write.Writing? {
      InFlightIsLogged(c, s);
      FlattenSingles(s.log[s.recycled..s.recycled + s.active]);
    }
  }

  /** With batches of one: datagrams leave in post order, each with the target and the bytes it was
      posted with; one write is one datagram; and short of a failure at most one datagram is out but
      not yet recycled. */
  lemma DatagramsInOrder(c: Setup, threads: nat, run: seq<Step<Datagram>>)
    requires SoundSetup(c) && c.batch == 1 && IsRun(c, Init(c, threads), run)
    requires forall i :: 0 <= i < |run| ==> SendsSingles(run[i])
    ensures var s := Exec(c, Init(c, threads), run);
      && |s.wire| <= |s.log| && (forall i :: 0 <= i < |s.wire| ==> s.log[i] == [s.wire[i]])
      && (s.write.Writing? ==> s.active == 1)
      && (!s.failed ==> s.recycled <= |s.wire| <= s.recycled + 1)
  {
    var init := Init<Datagram>(c, threads);
    assert forall t :: 0 <= t < threads ==> init.senders[t].Idle?;
    SinglesRun(c, init, run);
    InvariantInit<Datagram>(c, threads);
    InvariantRun(c, init, run);
    var s := Exec(c, init, run);
    SinglesWire(c, s);
    if !s.failed { SinglesOutstanding(c, s); }
  }
}
