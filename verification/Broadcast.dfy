/** `TcpServer::broadcast` on many connections at once: on every connection the broadcasts of one
    thread keep their order, whatever the other senders, the strands and the network do. */
module Broadcast {
  import opened Streams
  import opened SendPipeline
  import opened PipelineInvariants
  import opened PipelineTheorems

  /** One entry of the work of the broadcasting thread: send message number `message` on connection `conn`. */
  datatype Item = Item(conn: nat, message: nat)

  /** The snapshots of successive broadcasts, one after the other: messages in order, and no
      connection twice in one snapshot. */
  ghost predicate IsPlan(plan: seq<Item>) {
    forall x, y :: 0 <= x < y < |plan| ==> plan[x].message <= plan[y].message && plan[x] != plan[y]
  }

  /** Thread 0 of every connection is the broadcasting thread; it is at item `pc`, inside `send` or not. */
  datatype Cluster = Cluster(
    conns: seq<SendPipeline.State<byte>>,
    pc: nat,
    inside: bool,
    taken: seq<seq<nat>>)     // history: the items each connection accepted

  datatype Step =
    | Elsewhere(c: nat, step: SendPipeline.Step<byte>)   // any step of connection `c`, except that thread 0 begins a send
    | Call                                               // the broadcaster's next `send` is accepted
    | Skip                                               // ... or refused: the connection is closed
    | Return                                             // that `send` is over

  function Init(setup: Setup, threads: nat, conns: nat): Cluster
  {
    Cluster(seq(conns, _ => SendPipeline.Init(setup, threads)), 0, false, seq(conns, _ => []))
  }

  predicate Enabled(setup: Setup, plan: seq<Item>, data: seq<seq<byte>>, s: Cluster, step: Step)
  {
    match step
    case Elsewhere(c, st) =>
      c < |s.conns| && SendPipeline.Enabled(setup, s.conns[c], st) && !(st.Begin? && st.t == 0)
    case Call =>
      && s.pc < |plan| && !s.inside && plan[s.pc].conn < |s.conns| == |s.taken| && plan[s.pc].message < |data|
      && SendPipeline.Enabled(setup, s.conns[plan[s.pc].conn], Begin(0, data[plan[s.pc].message]))
    case Skip => s.pc < |plan| && !s.inside && plan[s.pc].conn < |s.conns| && !s.conns[plan[s.pc].conn].open
    case Return =>
      && s.pc < |plan| && s.inside && plan[s.pc].conn < |s.conns|
      && |s.conns[plan[s.pc].conn].senders| > 0 && s.conns[plan[s.pc].conn].senders[0].Idle?
  }

  function Apply(setup: Setup, plan: seq<Item>, data: seq<seq<byte>>, s: Cluster, step: Step): Cluster
    requires Enabled(setup, plan, data, s, step)
  {
    match step
    case Elsewhere(c, st) => s.(conns := s.conns[c := SendPipeline.Apply(setup, s.conns[c], st)])
    case Call =>
      var Item(c, m) := plan[s.pc];
      s.(conns := s.conns[c := SendPipeline.Apply(setup, s.conns[c], Begin(0, data[m]))],
         inside := true, taken := s.taken[c := s.taken[c] + [s.pc]])
    case Skip => s.(pc := s.pc + 1)
    case Return => s.(pc := s.pc + 1, inside := false)
  }

  predicate IsRun(setup: Setup, plan: seq<Item>, data: seq<seq<byte>>, s: Cluster, run: seq<Step>)
    decreases |run|
  {
    run == [] ||
    (Enabled(setup, plan, data, s, run[0]) && IsRun(setup, plan, data, Apply(setup, plan, data, s, run[0]), run[1..]))
  }

  function Exec(setup: Setup, plan: seq<Item>, data: seq<seq<byte>>, s: Cluster, run: seq<Step>): Cluster
    requires IsRun(setup, plan, data, s, run)
    decreases |run|
  {
    if run == [] then s else Exec(setup, plan, data, Apply(setup, plan, data, s, run[0]), run[1..])
  }

  /** The messages behind a list of accepted items. */
  function Messages(plan: seq<Item>, data: seq<seq<byte>>, items: seq<nat>): seq<seq<byte>>
  {
    seq(|items|, i requires 0 <= i < |items| =>
      if items[i] < |plan| && plan[items[i]].message < |data| then data[plan[items[i]].message] else [])
  }

  /** What connection `c` has accepted from the broadcaster is, in order, items of the plan for it that
      the broadcaster has come to. */
  ghost predicate ConnHolds(setup: Setup, threads: nat, plan: seq<Item>, data: seq<seq<byte>>, s: Cluster, c: nat)
    requires c < |s.conns| == |s.taken|
  {
    var items := s.taken[c];
    && Reachable(setup, threads, s.conns[c])
    && |s.conns[c].issued| == |s.conns[c].senders| == threads && threads > 0
    && s.conns[c].issued[0] == Messages(plan, data, items)
    && (!s.conns[c].senders[0].Idle? ==>
          s.inside && s.pc < |plan| && plan[s.pc].conn == c && items != [] && items[|items| - 1] == s.pc)
    && (forall i :: 0 <= i < |items| ==>
          items[i] < s.pc + One(s.inside) && items[i] < |plan| && plan[items[i]].conn == c
          && plan[items[i]].message < |data|)
    && (forall i, j :: 0 <= i < j < |items| ==> items[i] < items[j])
  }

  ghost predicate Invariant(setup: Setup, threads: nat, plan: seq<Item>, data: seq<seq<byte>>, s: Cluster) {
    && |s.conns| == |s.taken|
    && (forall c :: 0 <= c < |s.conns| ==> ConnHolds(setup, threads, plan, data, s, c))
    && s.pc + One(s.inside) <= |plan|
    && (forall x :: 0 <= x < s.pc + One(s.inside) ==>
          plan[x].conn < |s.conns| && (s.conns[plan[x].conn].open ==> x in s.taken[plan[x].conn]))
  }

  lemma CallKeeps(setup: Setup, threads: nat, plan: seq<Item>, data: seq<seq<byte>>, s: Cluster)
    requires Invariant(setup, threads, plan, data, s) && Enabled(setup, plan, data, s, Call)
    ensures ConnHolds(setup, threads, plan, data, Apply(setup, plan, data, s, Call), plan[s.pc].conn)
  {
    var Item(c, m) := plan[s.pc];
    assert ConnHolds(setup, threads, plan, data, s, c);
    ReachableStep(setup, threads, s.conns[c], Begin(0, data[m]));
    assert s.conns[c].senders[0].Idle?;
    assert Messages(plan, data, s.taken[c] + [s.pc]) == Messages(plan, data, s.taken[c]) + [data[m]];
  }

  lemma ElsewhereKeeps(setup: Setup, threads: nat, plan: seq<Item>, data: seq<seq<byte>>, s: Cluster, c: nat,
                       step: SendPipeline.Step<byte>)
    requires Invariant(setup, threads, plan, data, s) && Enabled(setup, plan, data, s, Elsewhere(c, step))
    ensures ConnHolds(setup, threads, plan, data, Apply(setup, plan, data, s, Elsewhere(c, step)), c)
  {
    assert ConnHolds(setup, threads, plan, data, s, c);
    ReachableStep(setup, threads, s.conns[c], step);
  }

  lemma InvariantStep(setup: Setup, threads: nat, plan: seq<Item>, data: seq<seq<byte>>, s: Cluster, step: Step)
    requires Invariant(setup, threads, plan, data, s) && Enabled(setup, plan, data, s, step)
    ensures Invariant(setup, threads, plan, data, Apply(setup, plan, data, s, step))
  {
    var s' := Apply(setup, plan, data, s, step);
    forall c | 0 <= c < |s'.conns| ensures ConnHolds(setup, threads, plan, data, s', c) {
      assert ConnHolds(setup, threads, plan, data, s, c);
      if step.Call? && c == plan[s.pc].conn {
        CallKeeps(setup, threads, plan, data, s);
      } else if step.Elsewhere? && c == step.c {
        ElsewhereKeeps(setup, threads, plan, data, s, c, step.step);
      }
    }
  }

  lemma InvariantInit(setup: Setup, threads: nat, plan: seq<Item>, data: seq<seq<byte>>, conns: nat)
    requires threads > 0
    ensures Invariant(setup, threads, plan, data, Init(setup, threads, conns))
  {
    ReachableInit<byte>(setup, threads);
  }

  lemma {:induction false} InvariantRun(setup: Setup, threads: nat, plan: seq<Item>, data: seq<seq<byte>>, s: Cluster,
                                        run: seq<Step>)
    requires Invariant(setup, threads, plan, data, s) && IsRun(setup, plan, data, s, run)
    ensures Invariant(setup, threads, plan, data, Exec(setup, plan, data, s, run))
    decreases |run|
  {
    if run != [] {
      InvariantStep(setup, threads, plan, data, s, run[0]);
      InvariantRun(setup, threads, plan, data, Apply(setup, plan, data, s, run[0]), run[1..]);
    }
  }

  /** Broadcast order: of two broadcasts that a connection accepted and whose payloads are posted, the
      one broadcast first stands first in the connection's log, so its bytes come first on its wire. */
  lemma BroadcastsKeepOrder(setup: Setup, threads: nat, conns: nat, plan: seq<Item>, data: seq<seq<byte>>,
                            run: seq<Step>, c: nat, i: nat, j: nat) returns (p: nat, q: nat)
    requires SoundSetup(setup) && threads > 0 && IsPlan(plan)
    requires IsRun(setup, plan, data, Init(setup, threads, conns), run)
    requires var s := Exec(setup, plan, data, Init(setup, threads, conns), run);
      && c < |s.conns| && |s.conns[c].log| == |s.conns[c].authors|
      && i < j < |ByThread(s.conns[c].log, s.conns[c].authors, 0)|
    ensures var s := Exec(setup, plan, data, Init(setup, threads, conns), run);
      && |s.taken| == |s.conns| && j < |s.taken[c]| && s.taken[c][i] < s.taken[c][j] < |plan|
      && var a, b := plan[s.taken[c][i]], plan[s.taken[c][j]];
         && a.conn == b.conn == c && a.message < b.message < |data|
         && p < q < |s.conns[c].log| && s.conns[c].log[p] == data[a.message] && s.conns[c].log[q] == data[b.message]
         && s.conns[c].wire <= Flatten(s.conns[c].log)
  {
    InvariantInit(setup, threads, plan, data, conns);
    InvariantRun(setup, threads, plan, data, Init(setup, threads, conns), run);
    var s := Exec(setup, plan, data, Init(setup, threads, conns), run);
    assert ConnHolds(setup, threads, plan, data, s, c);
    p, q := ProgramOrder(setup, threads, s.conns[c], 0, i, j);
    WireIsPrefixOfLog(setup, threads, s.conns[c]);
    var items := s.taken[c];
    assert plan[items[i]].message <= plan[items[j]].message && plan[items[i]] != plan[items[j]];
  }

  /** What a connection accepted before the item in progress is posted. */
  lemma AcceptedIsPosted(setup: Setup, threads: nat, plan: seq<Item>, data: seq<seq<byte>>, s: Cluster, c: nat, i: nat)
    requires SoundSetup(setup) && c < |s.conns| == |s.taken| && ConnHolds(setup, threads, plan, data, s, c)
    requires i < |s.taken[c]| && s.taken[c][i] < s.pc
    ensures |s.conns[c].log| == |s.conns[c].authors|
    ensures i < |ByThread(s.conns[c].log, s.conns[c].authors, 0)|
  {
    var k, items := s.conns[c], s.taken[c];
    ReachableInvariant(setup, threads, k);
    assert ByThread(k.log, k.authors, 0) + Current(k.senders[0]) == Messages(plan, data, items);
  }

  /** No open connection is left out: an item the broadcaster is through with is in the log of its
      connection if that is still open. */
  lemma OpenConnectionGetsIt(setup: Setup, threads: nat, conns: nat, plan: seq<Item>, data: seq<seq<byte>>,
                             run: seq<Step>, x: nat) returns (p: nat)
    requires SoundSetup(setup) && threads > 0
    requires IsRun(setup, plan, data, Init(setup, threads, conns), run)
    requires var s := Exec(setup, plan, data, Init(setup, threads, conns), run);
      x < s.pc <= |plan| && (plan[x].conn < |s.conns| ==> s.conns[plan[x].conn].open)
    ensures plan[x].message < |data|
    ensures var s, c := Exec(setup, plan, data, Init(setup, threads, conns), run), plan[x].conn;
      && c < |s.conns| && p < |s.conns[c].log| == |s.conns[c].authors|
      && s.conns[c].log[p] == data[plan[x].message] && s.conns[c].authors[p] == 0
  {
    InvariantInit(setup, threads, plan, data, conns);
    InvariantRun(setup, threads, plan, data, Init(setup, threads, conns), run);
    var s := Exec(setup, plan, data, Init(setup, threads, conns), run);
    var c := plan[x].conn;
    var i :| 0 <= i < |s.taken[c]| && s.taken[c][i] == x;
    assert ConnHolds(setup, threads, plan, data, s, c);
    AcceptedIsPosted(setup, threads, plan, data, s, c, i);
    p := PostedPlace(setup, threads, plan, data, s, c, i);
  }

  /** Where an accepted and posted item stands in the log. */
  lemma PostedPlace(setup: Setup, threads: nat, plan: seq<Item>, data: seq<seq<byte>>, s: Cluster, c: nat, i: nat)
    returns (p: nat)
    requires SoundSetup(setup) && c < |s.conns| == |s.taken| && ConnHolds(setup, threads, plan, data, s, c)
    requires |s.conns[c].log| == |s.conns[c].authors|
    requires i < |s.taken[c]| && i < |ByThread(s.conns[c].log, s.conns[c].authors, 0)|
    ensures p < |s.conns[c].log| && s.conns[c].authors[p] == 0
    ensures plan[s.taken[c][i]].message < |data| && s.conns[c].log[p] == data[plan[s.taken[c][i]].message]
  {
    var k := s.conns[c];
    ReachableInvariant(setup, threads, k);
    assert ByThread(k.log, k.authors, 0) + Current(k.senders[0]) == Messages(plan, data, s.taken[c]);
    p := ByThreadPlace(k.log, k.authors, 0, i);
    assert k.log[p] == Messages(plan, data, s.taken[c])[i];
  }

  /** ... and two such items of one connection stand there in the order they were broadcast. */
  lemma OpenConnectionsGetAll(setup: Setup, threads: nat, conns: nat, plan: seq<Item>, data: seq<seq<byte>>,
                              run: seq<Step>, x: nat, y: nat) returns (p: nat, q: nat)
    requires SoundSetup(setup) && threads > 0 && IsPlan(plan)
    requires IsRun(setup, plan, data, Init(setup, threads, conns), run)
    requires var s := Exec(setup, plan, data, Init(setup, threads, conns), run);
      && x < y < s.pc <= |plan| && plan[x].conn == plan[y].conn
      && (plan[x].conn < |s.conns| ==> s.conns[plan[x].conn].open)
    ensures plan[x].message < plan[y].message < |data|
    ensures var s, c := Exec(setup, plan, data, Init(setup, threads, conns), run), plan[x].conn;
      && c < |s.conns| && p < q < |s.conns[c].log|
      && s.conns[c].log[p] == data[plan[x].message] && s.conns[c].log[q] == data[plan[y].message]
  {
    InvariantInit(setup, threads, plan, data, conns);
    InvariantRun(setup, threads, plan, data, Init(setup, threads, conns), run);
    var s := Exec(setup, plan, data, Init(setup, threads, conns), run);
    var c := plan[x].conn;
    var i :| 0 <= i < |s.taken[c]| && s.taken[c][i] == x;
    var j :| 0 <= j < |s.taken[c]| && s.taken[c][j] == y;
    assert ConnHolds(setup, threads, plan, data, s, c);
    AcceptedIsPosted(setup, threads, plan, data, s, c, j);
    p, q := BroadcastsKeepOrder(setup, threads, conns, plan, data, run, c, i, j);
  }
}
