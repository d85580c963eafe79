/** A broadcast waits at a connection whose pool is empty. When it goes on, when it never does, and that the
    connections behind it are then cut off although they are open. */
module BlockedBroadcast {
  import opened Streams
  import opened SendPipeline
  import opened PipelineInvariants
  import opened PipelineTheorems
  import opened Starvation
  import Broadcast

  /** The broadcaster spins in `send` on connection `c`, for its item `pc`. */
  ghost predicate WaitsOn(plan: seq<Broadcast.Item>, s: Broadcast.Cluster, c: nat) {
    && s.inside && s.pc < |plan| && plan[s.pc].conn == c < |s.conns|
    && |s.conns[c].senders| > 0 && s.conns[c].senders[0].Spinning? && s.conns[c].pool == {}
  }

  /** Some continuation takes the broadcaster to its next item. */
  ghost predicate CanGoOn(setup: Setup, plan: seq<Broadcast.Item>, data: seq<seq<byte>>, s: Broadcast.Cluster) {
    exists run :: Broadcast.IsRun(setup, plan, data, s, run) && Broadcast.Exec(setup, plan, data, s, run).pc > s.pc
  }

  // ---- It waits for ever if the pool is never refilled.

  lemma WaitStep(setup: Setup, plan: seq<Broadcast.Item>, data: seq<seq<byte>>, s: Broadcast.Cluster, c: nat,
                 step: Broadcast.Step)
    requires WaitsOn(plan, s, c) && !CanRefill(setup, s.conns[c]) && Broadcast.Enabled(setup, plan, data, s, step)
    ensures var s' := Broadcast.Apply(setup, plan, data, s, step);
      WaitsOn(plan, s', c) && !CanRefill(setup, s'.conns[c]) && s'.pc == s.pc
  {
    if step.Elsewhere? && step.c == c { NoRefillStays(setup, s.conns[c], step.step); }
  }

  lemma {:induction false} WaitRun(setup: Setup, plan: seq<Broadcast.Item>, data: seq<seq<byte>>, s: Broadcast.Cluster,
                                   c: nat, run: seq<Broadcast.Step>)
    requires WaitsOn(plan, s, c) && !CanRefill(setup, s.conns[c]) && Broadcast.IsRun(setup, plan, data, s, run)
    ensures var s' := Broadcast.Exec(setup, plan, data, s, run); WaitsOn(plan, s', c) && s'.pc == s.pc
    decreases |run|
  {
    if run != [] {
      WaitStep(setup, plan, data, s, c, run[0]);
      WaitRun(setup, plan, data, Broadcast.Apply(setup, plan, data, s, run[0]), c, run[1..]);
    }
  }

  // ---- Otherwise it can go on.

  /** Steps of connection `c` as steps of the cluster. */
  function Lifted(c: nat, run: seq<Step<byte>>): seq<Broadcast.Step>
  {
    if run == [] then [] else [Broadcast.Elsewhere(c, run[0])] + Lifted(c, run[1..])
  }

  predicate WithoutCalls<U>(run: seq<Step<U>>) {
    forall i :: 0 <= i < |run| ==> !(run[i].Begin? && run[i].t == 0)
  }

  lemma {:induction false} LiftedRun(setup: Setup, plan: seq<Broadcast.Item>, data: seq<seq<byte>>,
                                     s: Broadcast.Cluster, c: nat, run: seq<Step<byte>>)
    requires c < |s.conns| && IsRun(setup, s.conns[c], run) && WithoutCalls(run)
    ensures Broadcast.IsRun(setup, plan, data, s, Lifted(c, run))
    ensures Broadcast.Exec(setup, plan, data, s, Lifted(c, run))
         == s.(conns := s.conns[c := Exec(setup, s.conns[c], run)])
    decreases |run|
  {
    if run == [] {
      assert s.conns[c := s.conns[c]] == s.conns;
    } else {
      var s' := Broadcast.Apply(setup, plan, data, s, Broadcast.Elsewhere(c, run[0]));
      LiftedRun(setup, plan, data, s', c, run[1..]);
      ClusterOne(setup, plan, data, s, Broadcast.Elsewhere(c, run[0]), Lifted(c, run[1..]));
    }
  }

  lemma ClusterOne(setup: Setup, plan: seq<Broadcast.Item>, data: seq<seq<byte>>, s: Broadcast.Cluster,
                   step: Broadcast.Step, rest: seq<Broadcast.Step>)
    requires Broadcast.Enabled(setup, plan, data, s, step)
    requires Broadcast.IsRun(setup, plan, data, Broadcast.Apply(setup, plan, data, s, step), rest)
    ensures Broadcast.IsRun(setup, plan, data, s, [step] + rest)
    ensures Broadcast.Exec(setup, plan, data, s, [step] + rest)
         == Broadcast.Exec(setup, plan, data, Broadcast.Apply(setup, plan, data, s, step), rest)
  {
    assert ([step] + rest)[1..] == rest;
  }

  lemma {:induction false} ClusterAppend(setup: Setup, plan: seq<Broadcast.Item>, data: seq<seq<byte>>,
                                         s: Broadcast.Cluster, xs: seq<Broadcast.Step>, ys: seq<Broadcast.Step>)
    requires Broadcast.IsRun(setup, plan, data, s, xs)
    requires Broadcast.IsRun(setup, plan, data, Broadcast.Exec(setup, plan, data, s, xs), ys)
    ensures Broadcast.IsRun(setup, plan, data, s, xs + ys)
    ensures Broadcast.Exec(setup, plan, data, s, xs + ys)
         == Broadcast.Exec(setup, plan, data, Broadcast.Exec(setup, plan, data, s, xs), ys)
    decreases |xs|
  {
    if xs == [] {
      assert xs + ys == ys;
    } else {
      assert (xs + ys)[0] == xs[0] && (xs + ys)[1..] == xs[1..] + ys;
      ClusterAppend(setup, plan, data, Broadcast.Apply(setup, plan, data, s, xs[0]), xs[1..], ys);
    }
  }

  /** Up to the first buffer that comes back, the spinning thread 0 does nothing. */
  lemma {:induction false} FirstRefill<U>(c: Setup, s: State<U>, run: seq<Step<U>>) returns (first: seq<Step<U>>)
    requires IsRun(c, s, run) && Exec(c, s, run).pool != {} && s.pool == {}
    requires |s.senders| > 0 && s.senders[0].Spinning?
    ensures IsRun(c, s, first) && WithoutCalls(first)
    ensures var s' := Exec(c, s, first); s'.pool != {} && |s'.senders| > 0 && s'.senders[0] == s.senders[0]
    decreases |run|
  {
    var s' := Apply(c, s, run[0]);
    var rest := [];
    if s'.pool == {} { rest := FirstRefill(c, s', run[1..]); }
    ExecOne(c, s, run[0], rest);
    first := [run[0]] + rest;
  }

  /** ... and with that buffer it can end its call. */
  lemma EndsCall<U>(c: Setup, s: State<U>) returns (run: seq<Step<U>>)
    requires Invariant(c, s) && SoundSetup(c) && |s.senders| > 0 && (s.senders[0].Spinning? ==> s.pool != {})
    ensures IsRun(c, s, run) && WithoutCalls(run)
    ensures var s' := Exec(c, s, run);
      |s'.senders| > 0 && s'.senders[0].Idle? && s'.open == s.open && s'.deleted == s.deleted
    decreases match s.senders[0] case Spinning(_) => 3 case Filling(_, _) => 2 case Filled(_, _) => 1 case Idle => 0
  {
    run := [];
    if !s.senders[0].Idle? {
      var step;
      if s.senders[0].Spinning? {
        var b :| b in s.pool;
        assert Places(s, b) == One(b < c.pool);
        step := Pop(0, b);
      } else if s.senders[0].Filling? {
        HeldIsExclusive(c, s, 0, s.senders[0].buf);
        step := Fill(0);
      } else {
        step := Post(0);
      }
      InvariantStep(c, s, step);
      var rest := EndsCall(c, Apply(c, s, step));
      ExecOne(c, s, step, rest);
      run := [step] + rest;
    }
  }

  lemma GoesOn(setup: Setup, plan: seq<Broadcast.Item>, data: seq<seq<byte>>, s: Broadcast.Cluster, c: nat)
    requires SoundSetup(setup) && WaitsOn(plan, s, c) && Invariant(setup, s.conns[c]) && CanRefill(setup, s.conns[c])
    ensures CanGoOn(setup, plan, data, s)
  {
    var k := s.conns[c];
    var refill :| IsRun(setup, k, refill) && Exec(setup, k, refill).pool != {};
    var first := FirstRefill(setup, k, refill);
    InvariantRun(setup, k, first);
    var last := EndsCall(setup, Exec(setup, k, first));
    ExecAppend(setup, k, first, last);
    LiftedRun(setup, plan, data, s, c, first + last);
    var run := Lifted(c, first + last);
    var s' := Broadcast.Exec(setup, plan, data, s, run);
    assert Broadcast.Enabled(setup, plan, data, s', Broadcast.Return);
    ClusterOne(setup, plan, data, s', Broadcast.Return, []);
    ClusterAppend(setup, plan, data, s, run, [Broadcast.Return] + []);
    assert Broadcast.IsRun(setup, plan, data, s, run + ([Broadcast.Return] + []));
  }

  /** A broadcast that waits for a buffer of one connection can go on exactly if that connection's writer is
      usable and one of its buffers is alive. */
  lemma GoingOnIsExact(setup: Setup, plan: seq<Broadcast.Item>, data: seq<seq<byte>>, s: Broadcast.Cluster, c: nat)
    requires SoundSetup(setup) && WaitsOn(plan, s, c) && Invariant(setup, s.conns[c])
    ensures CanGoOn(setup, plan, data, s) <==> WriterUsable(s.conns[c]) && SomeAlive(setup, s.conns[c])
  {
    RefillIsExact(setup, s.conns[c]);
    if CanRefill(setup, s.conns[c]) {
      GoesOn(setup, plan, data, s, c);
    } else {
      forall run | Broadcast.IsRun(setup, plan, data, s, run)
        ensures Broadcast.Exec(setup, plan, data, s, run).pc == s.pc
      {
        WaitRun(setup, plan, data, s, c, run);
      }
    }
  }

  /** Every connection behind a broadcast that cannot go on is cut off from it, in every continuation: no
      later item is ever accepted, whether its connection is open or not. */
  lemma RestIsCutOff(setup: Setup, threads: nat, conns: nat, plan: seq<Broadcast.Item>, data: seq<seq<byte>>,
                     run: seq<Broadcast.Step>, more: seq<Broadcast.Step>, c: nat)
    requires SoundSetup(setup) && threads > 0
    requires Broadcast.IsRun(setup, plan, data, Broadcast.Init(setup, threads, conns), run)
    requires var s := Broadcast.Exec(setup, plan, data, Broadcast.Init(setup, threads, conns), run);
      && WaitsOn(plan, s, c) && !(WriterUsable(s.conns[c]) && SomeAlive(setup, s.conns[c]))
      && Broadcast.IsRun(setup, plan, data, s, more)
    ensures var s := Broadcast.Exec(setup, plan, data, Broadcast.Init(setup, threads, conns), run);
      var s' := Broadcast.Exec(setup, plan, data, s, more);
      s'.pc == s.pc && forall d, i :: 0 <= d < |s'.taken| && 0 <= i < |s'.taken[d]| ==> s'.taken[d][i] <= s.pc
  {
    var init := Broadcast.Init(setup, threads, conns);
    var s := Broadcast.Exec(setup, plan, data, init, run);
    Broadcast.InvariantInit(setup, threads, plan, data, conns);
    Broadcast.InvariantRun(setup, threads, plan, data, init, run);
    assert Broadcast.ConnHolds(setup, threads, plan, data, s, c);
    ReachableInvariant(setup, threads, s.conns[c]);
    RefillIsExact(setup, s.conns[c]);
    WaitRun(setup, plan, data, s, c, more);
    Broadcast.InvariantRun(setup, threads, plan, data, s, more);
    var s' := Broadcast.Exec(setup, plan, data, s, more);
    forall d, i | 0 <= d < |s'.taken| && 0 <= i < |s'.taken[d]| ensures s'.taken[d][i] <= s.pc {
      assert Broadcast.ConnHolds(setup, threads, plan, data, s', d);
    }
  }

  // ---- How it comes to that.

  /** The broadcaster waits, no buffer of the connection was deleted, and no continuation helps it. */
  ghost predicate Blocked(setup: Setup, plan: seq<Broadcast.Item>, data: seq<seq<byte>>, s: Broadcast.Cluster) {
    && s.pc < |plan| && plan[s.pc].conn < |s.conns| && WaitsOn(plan, s, plan[s.pc].conn)
    && s.conns[plan[s.pc].conn].deleted == {} && !CanGoOn(setup, plan, data, s)
  }

  /** Thread 1 and the broadcaster pass the open check of the connection, whose write then fails. */
  lemma CallsAndFails(setup: Setup, plan: seq<Broadcast.Item>, data: seq<seq<byte>>, s: Broadcast.Cluster)
    returns (run: seq<Broadcast.Step>)
    requires SoundSetup(setup) && s.pc < |plan| && !s.inside && plan[s.pc].conn < |s.conns| == |s.taken|
    requires plan[s.pc].message < |data|
    requires IsRun(setup, s.conns[plan[s.pc].conn], FailingSteps(1, 0, data[plan[s.pc].message]))
    ensures Broadcast.IsRun(setup, plan, data, s, run)
    ensures var s', c := Broadcast.Exec(setup, plan, data, s, run), plan[s.pc].conn;
      && s'.inside && s'.pc == s.pc
      && s'.conns == s.conns[c := Exec(setup, s.conns[c], FailingSteps(1, 0, data[plan[s.pc].message]))]
  {
    var c, m := plan[s.pc].conn, plan[s.pc].message;
    var k := s.conns[c];
    assert FailingSteps(1, 0, data[m]) == [Begin(1, [])] + ([Begin(0, data[m])] + ([Complete(false, {})] + []));
    ExecOne(setup, k, Begin(1, []), [Begin(0, data[m])] + ([Complete(false, {})] + []));
    var k1 := Apply(setup, k, Begin(1, []));
    ExecOne(setup, k1, Begin(0, data[m]), [Complete(false, {})] + []);
    var k2 := Apply(setup, k1, Begin(0, data[m]));
    ExecOne(setup, k2, Complete(false, {}), []);
    var s1 := Broadcast.Apply(setup, plan, data, s, Broadcast.Elsewhere(c, Begin(1, [])));
    var s2 := Broadcast.Apply(setup, plan, data, s1, Broadcast.Call);
    ClusterOne(setup, plan, data, s2, Broadcast.Elsewhere(c, Complete(false, {})), []);
    ClusterOne(setup, plan, data, s1, Broadcast.Call, [Broadcast.Elsewhere(c, Complete(false, {}))] + []);
    run := [Broadcast.Call] + ([Broadcast.Elsewhere(c, Complete(false, {}))] + []);
    ClusterOne(setup, plan, data, s, Broadcast.Elsewhere(c, Begin(1, [])), run);
    run := [Broadcast.Elsewhere(c, Begin(1, []))] + run;
  }

  /** With two buffers and two threads the first connection of a broadcast can block it for ever, with every
      other connection open. */
  lemma BlockingHappens(setup: Setup, threads: nat, conns: nat, plan: seq<Broadcast.Item>, data: seq<seq<byte>>)
    returns (run: seq<Broadcast.Step>)
    requires SoundSetup(setup) && setup.pool >= 2 && threads >= 2
    requires plan != [] && plan[0].conn < conns && plan[0].message < |data|
    ensures Broadcast.IsRun(setup, plan, data, Broadcast.Init(setup, threads, conns), run)
    ensures var s := Broadcast.Exec(setup, plan, data, Broadcast.Init(setup, threads, conns), run);
      && Blocked(setup, plan, data, s) && |s.conns| == conns
      && forall d :: 0 <= d < conns && d != plan[0].conn ==> s.conns[d].open
  {
    var init, c, x := Broadcast.Init(setup, threads, conns), plan[0].conn, data[plan[0].message];
    var k := SendPipeline.Init<byte>(setup, threads);
    var before := BacklogReachable<byte>(setup, threads, 1, [], setup.pool);
    var k1 := Exec(setup, k, before);
    FailureRuns(setup, threads, k1, 1, 0, x);
    var k2 := Exec(setup, k1, FailingSteps(1, 0, x));
    StrandingRuns(setup, k2, 1, 0, x);
    var k3 := Exec(setup, k2, StrandingSteps<byte>(1));
    LiftedRun(setup, plan, data, init, c, before);
    var s1 := Broadcast.Exec(setup, plan, data, init, Lifted(c, before));
    var calls := CallsAndFails(setup, plan, data, s1);
    var s2 := Broadcast.Exec(setup, plan, data, s1, calls);
    LiftedRun(setup, plan, data, s2, c, StrandingSteps<byte>(1));
    var s3 := Broadcast.Exec(setup, plan, data, s2, Lifted(c, StrandingSteps<byte>(1)));
    ClusterAppend(setup, plan, data, s1, calls, Lifted(c, StrandingSteps<byte>(1)));
    ClusterAppend(setup, plan, data, init, Lifted(c, before), calls + Lifted(c, StrandingSteps<byte>(1)));
    run := Lifted(c, before) + (calls + Lifted(c, StrandingSteps<byte>(1)));
    assert s3.conns[c] == k3;
    InvariantInit<byte>(setup, threads);
    InvariantRun(setup, k, before);
    InvariantRun(setup, k1, FailingSteps(1, 0, x));
    InvariantRun(setup, k2, StrandingSteps<byte>(1));
    GoingOnIsExact(setup, plan, data, s3, c);
  }

  /** A broadcast can block for ever, with no buffer deleted, exactly if there are two buffers and two
      threads or more. */
  lemma BlockingIsExact(setup: Setup, threads: nat, conns: nat, plan: seq<Broadcast.Item>, data: seq<seq<byte>>)
    requires SoundSetup(setup) && setup.pool >= 1 && threads >= 1
    requires plan != [] && plan[0].conn < conns && plan[0].message < |data|
    ensures var init := Broadcast.Init(setup, threads, conns);
      (exists run :: Broadcast.IsRun(setup, plan, data, init, run)
                     && Blocked(setup, plan, data, Broadcast.Exec(setup, plan, data, init, run)))
      <==> setup.pool >= 2 && threads >= 2
  {
    var init := Broadcast.Init(setup, threads, conns);
    if setup.pool >= 2 && threads >= 2 {
      var run := BlockingHappens(setup, threads, conns, plan, data);
    } else {
      forall run | Broadcast.IsRun(setup, plan, data, init, run)
        ensures !Blocked(setup, plan, data, Broadcast.Exec(setup, plan, data, init, run))
      {
        NobodyBlocks(setup, threads, conns, plan, data, run);
      }
    }
  }

  lemma NobodyBlocks(setup: Setup, threads: nat, conns: nat, plan: seq<Broadcast.Item>, data: seq<seq<byte>>,
                     run: seq<Broadcast.Step>)
    requires SoundSetup(setup) && setup.pool >= 1 && threads >= 1 && (setup.pool == 1 || threads <= 1)
    requires Broadcast.IsRun(setup, plan, data, Broadcast.Init(setup, threads, conns), run)
    ensures !Blocked(setup, plan, data, Broadcast.Exec(setup, plan, data, Broadcast.Init(setup, threads, conns), run))
  {
    var init := Broadcast.Init(setup, threads, conns);
    var s := Broadcast.Exec(setup, plan, data, init, run);
    Broadcast.InvariantInit(setup, threads, plan, data, conns);
    Broadcast.InvariantRun(setup, threads, plan, data, init, run);
    if s.pc < |plan| && plan[s.pc].conn < |s.conns| && WaitsOn(plan, s, plan[s.pc].conn) {
      var c := plan[s.pc].conn;
      assert Broadcast.ConnHolds(setup, threads, plan, data, s, c);
      NobodyStarves(setup, threads, s.conns[c]);
      ReachableInvariant(setup, threads, s.conns[c]);
      if CanRefill(setup, s.conns[c]) { GoesOn(setup, plan, data, s, c); }
    }
  }
}
