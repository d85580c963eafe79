/** A broadcast that is not blocked gets through: nothing but a connection that cannot refill its pool stops it. */
module BroadcastProgress {
  import opened Streams
  import opened SendPipeline
  import opened PipelineInvariants
  import opened PipelineTheorems
  import opened Starvation
  import opened BlockedBroadcast
  import Broadcast
  import Progress

  /** What the broadcaster can do, told by its position and the socket alone: at an item it calls `send` if
      the connection is open and is refused if not; inside, it returns when its thread is through. */
  lemma BroadcasterIsExact(setup: Setup, threads: nat, plan: seq<Broadcast.Item>, data: seq<seq<byte>>, s: Broadcast.Cluster)
    requires Broadcast.Invariant(setup, threads, plan, data, s) && SoundSetup(setup)
    requires s.pc < |plan| && plan[s.pc].conn < |s.conns| && plan[s.pc].message < |data|
    ensures Broadcast.Enabled(setup, plan, data, s, Broadcast.Call) <==> !s.inside && s.conns[plan[s.pc].conn].open
    ensures Broadcast.Enabled(setup, plan, data, s, Broadcast.Skip) <==> !s.inside && !s.conns[plan[s.pc].conn].open
    ensures Broadcast.Enabled(setup, plan, data, s, Broadcast.Return) <==>
      s.inside && |s.conns[plan[s.pc].conn].senders| > 0 && s.conns[plan[s.pc].conn].senders[0].Idle?
  {
    assert Broadcast.ConnHolds(setup, threads, plan, data, s, plan[s.pc].conn);
  }

  lemma {:induction false} CalmKeepsSpinning<U>(c: Setup, s: State<U>, run: seq<Step<U>>)
    requires IsRun(c, s, run) && Calm(run) && |s.senders| > 0 && s.senders[0].Spinning?
    ensures |Exec(c, s, run).senders| > 0 && Exec(c, s, run).senders[0] == s.senders[0]
    decreases |run|
  {
    if run != [] {
      assert forall i :: 0 <= i < |run[1..]| ==> run[1..][i] == run[i + 1];
      CalmKeepsSpinning(c, Apply(c, s, run[0]), run[1..]);
    }
  }

  /** A refill that leaves an open connection open. */
  lemma RefillGently<U>(c: Setup, s: State<U>) returns (run: seq<Step<U>>)
    requires Invariant(c, s) && SoundSetup(c) && s.pool == {} && WriterUsable(s) && SomeAlive(c, s)
    ensures IsRun(c, s, run) && Calm(run)
    ensures var s' := Exec(c, s, run); s'.pool != {} && s'.deleted == s.deleted && s'.open == s.open
  {
    var b: nat :| b < c.pool && b !in s.deleted;
    if s.open {
      run := Progress.PoolRefills(c, s, b);
      assert forall i :: 0 <= i < |run| ==> Progress.Helpful(run[i]);
    } else {
      run := RefillRun(c, s, b);
      ClosedWireIsFrozen(c, s, run);
    }
  }

  /** The thread in `send` gets a buffer and returns. */
  lemma CallEnds<U>(c: Setup, s: State<U>) returns (run: seq<Step<U>>)
    requires Invariant(c, s) && SoundSetup(c) && |s.senders| > 0
    requires s.senders[0].Spinning? && s.pool == {} ==> WriterUsable(s) && SomeAlive(c, s)
    ensures IsRun(c, s, run) && WithoutCalls(run)
    ensures var s' := Exec(c, s, run);
      |s'.senders| > 0 && s'.senders[0].Idle? && s'.open == s.open && s'.deleted == s.deleted
  {
    var first := [];
    if s.senders[0].Spinning? && s.pool == {} {
      first := RefillGently(c, s);
      CalmKeepsSpinning(c, s, first);
    }
    InvariantRun(c, s, first);
    var last := EndsCall(c, Exec(c, s, first));
    ExecAppend(c, s, first, last);
    run := first + last;
  }

  /** Every item is one of a connection and a message there are. */
  ghost predicate IsComplete(plan: seq<Broadcast.Item>, data: seq<seq<byte>>, s: Broadcast.Cluster) {
    forall x :: 0 <= x < |plan| ==> plan[x].conn < |s.conns| && plan[x].message < |data|
  }

  /** Every open connection has a buffer left. */
  ghost predicate Served(setup: Setup, s: Broadcast.Cluster) {
    forall c :: 0 <= c < |s.conns| && s.conns[c].open ==> SomeAlive(setup, s.conns[c])
  }

  /** The item in progress, if there is one, can be ended. */
  ghost predicate Unblocked(setup: Setup, plan: seq<Broadcast.Item>, s: Broadcast.Cluster) {
    s.inside && s.pc < |plan| && plan[s.pc].conn < |s.conns| && WaitsOn(plan, s, plan[s.pc].conn) ==>
      WriterUsable(s.conns[plan[s.pc].conn]) && SomeAlive(setup, s.conns[plan[s.pc].conn])
  }

  /** As many connections, each open or not and with the same buffers deleted. */
  ghost predicate SameSockets(s: Broadcast.Cluster, s': Broadcast.Cluster) {
    && |s'.conns| == |s.conns|
    && forall c :: 0 <= c < |s.conns| ==> s'.conns[c].open == s.conns[c].open && s'.conns[c].deleted == s.conns[c].deleted
  }

  lemma EndItem(setup: Setup, threads: nat, plan: seq<Broadcast.Item>, data: seq<seq<byte>>, s: Broadcast.Cluster)
    returns (run: seq<Broadcast.Step>)
    requires SoundSetup(setup) && Broadcast.Invariant(setup, threads, plan, data, s) && IsComplete(plan, data, s)
    requires s.inside && s.pc < |plan| && Unblocked(setup, plan, s)
    ensures Broadcast.IsRun(setup, plan, data, s, run)
    ensures var s' := Broadcast.Exec(setup, plan, data, s, run);
      SameSockets(s, s') && s'.pc == s.pc + 1 && !s'.inside
  {
    var c := plan[s.pc].conn;
    assert Broadcast.ConnHolds(setup, threads, plan, data, s, c);
    ReachableInvariant(setup, threads, s.conns[c]);
    var steps := CallEnds(setup, s.conns[c]);
    LiftedRun(setup, plan, data, s, c, steps);
    var s' := Broadcast.Exec(setup, plan, data, s, Lifted(c, steps));
    ClusterOne(setup, plan, data, s', Broadcast.Return, []);
    ClusterAppend(setup, plan, data, s, Lifted(c, steps), [Broadcast.Return] + []);
    run := Lifted(c, steps) + ([Broadcast.Return] + []);
  }

  lemma NextItem(setup: Setup, threads: nat, plan: seq<Broadcast.Item>, data: seq<seq<byte>>, s: Broadcast.Cluster)
    returns (run: seq<Broadcast.Step>)
    requires SoundSetup(setup) && Broadcast.Invariant(setup, threads, plan, data, s) && IsComplete(plan, data, s)
    requires s.pc < |plan| && Unblocked(setup, plan, s) && Served(setup, s)
    ensures Broadcast.IsRun(setup, plan, data, s, run)
    ensures var s' := Broadcast.Exec(setup, plan, data, s, run);
      SameSockets(s, s') && s'.pc == s.pc + 1 && !s'.inside
  {
    var c := plan[s.pc].conn;
    BroadcasterIsExact(setup, threads, plan, data, s);
    if s.inside {
      run := EndItem(setup, threads, plan, data, s);
    } else if s.conns[c].open {
      var s1 := Broadcast.Apply(setup, plan, data, s, Broadcast.Call);
      Broadcast.InvariantStep(setup, threads, plan, data, s, Broadcast.Call);
      OpenIsUsable(setup, threads, plan, data, s1, c);
      var rest := EndItem(setup, threads, plan, data, s1);
      ClusterOne(setup, plan, data, s, Broadcast.Call, rest);
      run := [Broadcast.Call] + rest;
    } else {
      ClusterOne(setup, plan, data, s, Broadcast.Skip, []);
      run := [Broadcast.Skip] + [];
    }
  }

  lemma OpenIsUsable(setup: Setup, threads: nat, plan: seq<Broadcast.Item>, data: seq<seq<byte>>, s: Broadcast.Cluster,
                     c: nat)
    requires SoundSetup(setup) && Broadcast.Invariant(setup, threads, plan, data, s) && c < |s.conns| && s.conns[c].open
    ensures WriterUsable(s.conns[c])
  {
    assert Broadcast.ConnHolds(setup, threads, plan, data, s, c);
    ReachableInvariant(setup, threads, s.conns[c]);
  }

  /** A broadcast that is not blocked, with a buffer left on every open connection, can get through all its
      items without any connection being closed on the way; every open one then has them all. */
  lemma {:induction false} BroadcastFinishes(setup: Setup, threads: nat, plan: seq<Broadcast.Item>,
                                             data: seq<seq<byte>>, s: Broadcast.Cluster)
    returns (run: seq<Broadcast.Step>)
    requires SoundSetup(setup) && Broadcast.Invariant(setup, threads, plan, data, s) && IsComplete(plan, data, s)
    requires Unblocked(setup, plan, s) && Served(setup, s)
    ensures Broadcast.IsRun(setup, plan, data, s, run)
    ensures var s' := Broadcast.Exec(setup, plan, data, s, run);
      && SameSockets(s, s') && s'.pc == |plan|
      && forall x :: 0 <= x < |plan| && s.conns[plan[x].conn].open ==>
           plan[x].conn < |s'.taken| && x in s'.taken[plan[x].conn]
    decreases |plan| - s.pc
  {
    run := [];
    if s.pc < |plan| {
      var first := NextItem(setup, threads, plan, data, s);
      var s1 := Broadcast.Exec(setup, plan, data, s, first);
      Broadcast.InvariantRun(setup, threads, plan, data, s, first);
      var rest := BroadcastFinishes(setup, threads, plan, data, s1);
      ClusterAppend(setup, plan, data, s, first, rest);
      run := first + rest;
    }
  }
}
