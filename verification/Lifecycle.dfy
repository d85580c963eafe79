/** Connections of a `TcpServer`: accepted into the live set, closed by whichever of five causes comes
    first, taken out of the set once, destroyed when nobody refers to them any more. */
module Lifecycle {

  datatype Cause = ReadError | WriteError | FramingError | Timeout | User

  /** Where a handler that needs two steps stands; other handlers of the connection wait for it. */
  datatype Phase = Accepting | Between | Closing

  datatype Conn = Conn(
    phase: Phase,
    open: bool,
    alive: bool,                // the object exists
    refs: nat,                  // strong references outside the live set: handlers and users
    asked: nat,                 // user closes queued on the strand; they hold a weak reference
    disconnects: nat,           // how often the disconnect callback ran
    closedBy: seq<Cause>)       // history: the causes that found the socket open

  datatype State = State(conns: map<nat, Conn>, live: set<nat>)

  const Empty := State(map[], {})

  datatype Step =
    | Accept(c: nat)               // the connection object is made
    | Insert(c: nat)               // ... and put into the live set, before anyone is told about it
    | Share(c: nat)                // a reference is copied from an existing one
    | Drop(c: nat)
    | Ask(c: nat)                  // a user off the strand calls `close` through a reference
    | RunClose(c: nat)             // its lambda runs: the socket is closed if it was open
    | CloseInline(c: nat, cause: Cause)   // a handler on the strand calls `close`, which runs at once
    | EndClose(c: nat)             // ... and the disconnect callback takes it out of the live set
    | Destroy(c: nat)              // the last reference is gone

  predicate Reached(s: State, c: nat) {
    c in s.conns && s.conns[c].alive && s.conns[c].phase != Accepting && (s.conns[c].refs > 0 || c in s.live)
  }

  predicate Enabled(s: State, step: Step)
  {
    match step
    case Accept(c) => c !in s.conns
    case Insert(c) => c in s.conns && s.conns[c].phase.Accepting?
    case Share(c) => Reached(s, c)
    case Drop(c) => c in s.conns && s.conns[c].phase != Accepting && s.conns[c].refs > 0
    case Ask(c) => Reached(s, c)
    case RunClose(c) => c in s.conns && s.conns[c].phase.Between? && s.conns[c].asked > 0
    case CloseInline(c, _) => Reached(s, c) && s.conns[c].phase.Between?
    case EndClose(c) => c in s.conns && s.conns[c].phase.Closing?
    case Destroy(c) =>
      c in s.conns && s.conns[c].phase.Between? && s.conns[c].alive && s.conns[c].refs == 0 && c !in s.live
  }

  /** The lambda of `close`. */
  function Close(k: Conn, cause: Cause): Conn
  {
    if k.alive && k.open then k.(open := false, phase := Closing, closedBy := k.closedBy + [cause]) else k
  }

  /** The connection's share of a step. */
  function Change(k: Conn, step: Step): Conn
    requires !step.Accept? && (step.Drop? ==> k.refs > 0) && (step.RunClose? ==> k.asked > 0)
  {
    match step
    case Insert(_) => k.(phase := Between)
    case Share(_) => k.(refs := k.refs + 1)
    case Drop(_) => k.(refs := k.refs - 1)
    case Ask(_) => k.(asked := k.asked + 1)
    case RunClose(_) => Close(k.(asked := k.asked - 1), User)
    case CloseInline(_, cause) => Close(k, cause)
    case EndClose(_) => k.(phase := Between, disconnects := k.disconnects + 1)
    case Destroy(_) => k.(alive := false)
  }

  function Apply(s: State, step: Step): State
    requires Enabled(s, step)
  {
    if step.Accept? then
      s.(conns := s.conns[step.c := Conn(Accepting, true, true, 1, 0, 0, [])])
    else
      State(s.conns[step.c := Change(s.conns[step.c], step)],
            if step.Insert? then s.live + {step.c} else if step.EndClose? then s.live - {step.c} else s.live)
  }

  ghost predicate ConnHolds(s: State, c: nat)
    requires c in s.conns
  {
    var k := s.conns[c];
    match k.phase
    case Accepting => k.open && k.alive && k.refs > 0 && c !in s.live && k.asked == 0 && k.disconnects == 0 && k.closedBy == []
    case Closing => !k.open && k.alive && c in s.live && k.disconnects == 0 && |k.closedBy| == 1
    case Between =>
      && (c in s.live <==> k.open) && (k.open ==> k.alive) && (!k.alive ==> k.refs == 0)
      && k.disconnects == |k.closedBy| == (if k.open then 0 else 1)
  }

  ghost predicate Invariant(s: State) {
    && (forall c :: c in s.live ==> c in s.conns)
    && (forall c :: c in s.conns ==> ConnHolds(s, c))
  }

  lemma InvariantStep(s: State, step: Step)
    requires Invariant(s) && Enabled(s, step)
    ensures Invariant(Apply(s, step))
  {
    var s' := Apply(s, step);
    forall c | c in s'.conns ensures ConnHolds(s', c) {
      if c != step.c { assert ConnHolds(s, c); }
      if !step.Accept? { assert ConnHolds(s, step.c); }
    }
  }

  predicate IsRun(s: State, run: seq<Step>)
    decreases |run|
  {
    run == [] || (Enabled(s, run[0]) && IsRun(Apply(s, run[0]), run[1..]))
  }

  function Exec(s: State, run: seq<Step>): State
    requires IsRun(s, run)
    decreases |run|
  {
    if run == [] then s else Exec(Apply(s, run[0]), run[1..])
  }

  lemma {:induction false} InvariantRun(s: State, run: seq<Step>)
    requires Invariant(s) && IsRun(s, run)
    ensures Invariant(Exec(s, run))
    decreases |run|
  {
    if run != [] {
      InvariantStep(s, run[0]);
      InvariantRun(Apply(s, run[0]), run[1..]);
    }
  }

  /** The live set is exact: between its handlers a connection is in it exactly while its socket is
      open, whatever accepts, closes and references are in progress. */
  lemma LiveSetIsExact(run: seq<Step>, c: nat)
    requires IsRun(Empty, run)
    ensures var s := Exec(Empty, run);
      && (c in s.live ==> c in s.conns)
      && (c in s.conns && s.conns[c].phase.Between? ==> (c in s.live <==> s.conns[c].open))
  {
    InvariantRun(Empty, run);
    var s := Exec(Empty, run);
    if c in s.conns { assert ConnHolds(s, c); }
  }

  /** However many causes race to close a connection, one of them closes it and the disconnect callback
      runs once: not before the socket is closed, and always before the handler is over. */
  lemma DisconnectsOnce(run: seq<Step>, c: nat)
    requires IsRun(Empty, run) && c in Exec(Empty, run).conns
    ensures var k := Exec(Empty, run).conns[c];
      && k.disconnects <= 1 && |k.closedBy| <= 1
      && (k.open <==> k.closedBy == [])
      && (k.phase.Between? ==> (k.disconnects == 1 <==> !k.open))
  {
    InvariantRun(Empty, run);
    assert ConnHolds(Exec(Empty, run), c);
  }

  /** Which `close` a step runs. */
  function CauseOf(step: Step): Cause
    requires step.RunClose? || step.CloseInline?
  {
    if step.RunClose? then User else step.cause
  }

  /** A `close` that runs, queued or inline, always leaves the socket closed. While the socket is open the
      live set keeps the object alive, so the weak reference of the first close cannot fail, and its cause
      is recorded; a close that finds the object gone, or closed, finds the disconnect callback done. */
  lemma CloseTakesEffect(run: seq<Step>, step: Step)
    requires IsRun(Empty, run) && (step.RunClose? || step.CloseInline?) && Enabled(Exec(Empty, run), step)
    ensures var s := Exec(Empty, run);
      var k, k' := s.conns[step.c], Apply(s, step).conns[step.c];
      && !k'.open
      && (if k.open then k.alive && step.c in s.live && k'.phase.Closing? && k'.closedBy == [CauseOf(step)]
          else k.disconnects == 1 && k' == k.(asked := k'.asked) && step.c !in s.live)
  {
    InvariantRun(Empty, run);
    assert ConnHolds(Exec(Empty, run), step.c);
  }

  /** A handler's close overtakes the closes still queued: whatever they are, its own cause is the one
      that is recorded. */
  lemma InlineOvertakes(run: seq<Step>, c: nat, cause: Cause, more: seq<Step>)
    requires IsRun(Empty, run) && Enabled(Exec(Empty, run), CloseInline(c, cause)) && Exec(Empty, run).conns[c].open
    requires IsRun(Apply(Exec(Empty, run), CloseInline(c, cause)), more)
    ensures var s := Exec(Apply(Exec(Empty, run), CloseInline(c, cause)), more);
      c in s.conns && s.conns[c].closedBy == [cause] && !s.conns[c].open
  {
    CloseTakesEffect(run, CloseInline(c, cause));
    ClosedStays(Apply(Exec(Empty, run), CloseInline(c, cause)), c, more);
  }

  lemma {:induction false} ClosedStays(s: State, c: nat, run: seq<Step>)
    requires IsRun(s, run) && c in s.conns && !s.conns[c].open
    ensures var s' := Exec(s, run); c in s'.conns && !s'.conns[c].open && s'.conns[c].closedBy == s.conns[c].closedBy
    decreases |run|
  {
    if run != [] { ClosedStays(Apply(s, run[0]), c, run[1..]); }
  }

  /** A state some interleaving leads to. */
  ghost predicate Reachable(s: State) {
    exists run :: IsRun(Empty, run) && s == Exec(Empty, run)
  }

  lemma ReachableEmpty()
    ensures Reachable(Empty)
  {
    assert IsRun(Empty, []);
  }

  lemma ReachableInvariant(s: State)
    requires Reachable(s)
    ensures Invariant(s)
  {
    var run :| IsRun(Empty, run) && s == Exec(Empty, run);
    InvariantRun(Empty, run);
  }

  lemma BetweenIsExact(s: State, c: nat)
    requires Reachable(s) && c in s.conns && s.conns[c].phase.Between?
    ensures c in s.live <==> s.conns[c].open
    ensures s.conns[c].disconnects == if s.conns[c].open then 0 else 1
  {
    ReachableInvariant(s);
    assert ConnHolds(s, c);
  }

  lemma ReachableStep(s: State, step: Step)
    requires Reachable(s) && Enabled(s, step)
    ensures Reachable(Apply(s, step))
  {
    var run :| IsRun(Empty, run) && s == Exec(Empty, run);
    ExecSnoc(Empty, run, step);
    assert IsRun(Empty, run + [step]);
  }

  lemma {:induction false} ExecSnoc(s: State, run: seq<Step>, step: Step)
    requires IsRun(s, run) && Enabled(Exec(s, run), step)
    ensures IsRun(s, run + [step]) && Exec(s, run + [step]) == Apply(Exec(s, run), step)
    decreases |run|
  {
    if run == [] {
      assert Exec(Apply(s, step), []) == Apply(s, step);
      assert ([step])[1..] == [];
      assert run + [step] == [step];
    } else {
      assert (run + [step])[0] == run[0] && (run + [step])[1..] == run[1..] + [step];
      ExecSnoc(Apply(s, run[0]), run[1..], step);
    }
  }

  /** An open connection is never destroyed. */
  lemma DestroyedIsClosed(run: seq<Step>, c: nat)
    requires IsRun(Empty, run) && Enabled(Exec(Empty, run), Destroy(c))
    ensures !Exec(Empty, run).conns[c].open && Exec(Empty, run).conns[c].disconnects == 1
  {
    InvariantRun(Empty, run);
    assert ConnHolds(Exec(Empty, run), c);
  }

  // ---- What the past says of a connection, told by the events alone.

  function Count(past: seq<Step>, x: Step): nat
  {
    if past == [] then 0
    else var n := |past| - 1; Count(past[..n], x) + (if past[n] == x then 1 else 0)
  }

  /** The causes of the closes that ran, in order. */
  function Causes(past: seq<Step>, c: nat): seq<Cause>
  {
    if past == [] then []
    else
      var n := |past| - 1;
      Causes(past[..n], c)
        + (if past[n] == RunClose(c) then [User]
           else if past[n].CloseInline? && past[n].c == c then [past[n].cause] else [])
  }

  /** References outside the live set: the acceptor's, the copies made, less those given up. */
  function Refs(past: seq<Step>, c: nat): int { 1 + Count(past, Share(c)) - Count(past, Drop(c)) }

  /** In the live set from its insertion to its disconnect callback. */
  predicate IsLive(past: seq<Step>, c: nat) { Insert(c) in past && EndClose(c) !in past }

  predicate IsClosing(past: seq<Step>, c: nat) { Causes(past, c) != [] && EndClose(c) !in past }

  /** Known to others, and no handler of it is half done. */
  predicate IsBetween(past: seq<Step>, c: nat) { Insert(c) in past && !IsClosing(past, c) }

  /** Somebody can still name it. */
  predicate IsNamed(past: seq<Step>, c: nat) {
    Insert(c) in past && Destroy(c) !in past && (Refs(past, c) > 0 || IsLive(past, c))
  }

  /** What can happen next. Every close a user asked for runs, once; an object goes when the last reference
      has been given up and the live set has let go of it. */
  predicate Possible(past: seq<Step>, step: Step) {
    match step
    case Accept(c) => Accept(c) !in past
    case Insert(c) => Accept(c) in past && Insert(c) !in past
    case Share(c) => IsNamed(past, c)
    case Drop(c) => Insert(c) in past && Refs(past, c) > 0
    case Ask(c) => IsNamed(past, c)
    case RunClose(c) => IsBetween(past, c) && Count(past, RunClose(c)) < Count(past, Ask(c))
    case CloseInline(c, _) => IsBetween(past, c) && IsNamed(past, c)
    case EndClose(c) => IsClosing(past, c)
    case Destroy(c) => IsBetween(past, c) && !IsNamed(past, c) && Destroy(c) !in past
  }

  ghost predicate Lawful(run: seq<Step>) { forall i :: 0 <= i < |run| ==> Possible(run[..i], run[i]) }

  ghost predicate ConnTold(past: seq<Step>, c: nat, k: Conn) {
    && (k.phase.Accepting? <==> Insert(c) !in past) && (k.phase.Closing? <==> IsClosing(past, c))
    && (k.open <==> Causes(past, c) == []) && (k.alive <==> Destroy(c) !in past)
    && k.refs == Refs(past, c) && k.asked == Count(past, Ask(c)) - Count(past, RunClose(c))
    && k.disconnects == Count(past, EndClose(c))
    && k.closedBy == (if Causes(past, c) == [] then [] else [Causes(past, c)[0]])
  }

  ghost predicate Told(past: seq<Step>, c: nat, s: State) {
    && (c in s.conns <==> Accept(c) in past) && (c in s.live <==> IsLive(past, c))
    && (if c in s.conns then ConnTold(past, c, s.conns[c]) else Unheard(past, c))
  }

  ghost predicate Unheard(past: seq<Step>, c: nat) { forall i :: 0 <= i < |past| ==> past[i].c != c }

  lemma {:induction false} UnheardTold(past: seq<Step>, c: nat)
    requires Unheard(past, c)
    ensures Causes(past, c) == [] && forall x: Step :: x.c == c ==> Count(past, x) == 0 && x !in past
    decreases |past|
  {
    if past != [] { UnheardTold(past[..|past| - 1], c); }
  }

  lemma {:induction false} CountIn(past: seq<Step>, x: Step)
    ensures Count(past, x) > 0 <==> x in past
  {
    if past != [] {
      var n := |past| - 1;
      CountIn(past[..n], x);
      assert past == past[..n] + [past[n]];
    }
  }

  lemma CountNext(past: seq<Step>, x: Step, y: Step)
    ensures Count(past + [x], y) == Count(past, y) + (if x == y then 1 else 0)
  {
    assert (past + [x])[..|past|] == past;
  }

  lemma CausesNext(past: seq<Step>, x: Step, c: nat)
    ensures Causes(past + [x], c) == Causes(past, c)
      + (if x == RunClose(c) then [User] else if x.CloseInline? && x.c == c then [x.cause] else [])
  {
    assert (past + [x])[..|past|] == past;
  }

  /** What others do says nothing of `c`. */
  lemma ToldElsewhere(past: seq<Step>, c: nat, s: State, x: Step)
    requires Told(past, c, s) && Enabled(s, x) && x.c != c
    ensures Told(past + [x], c, Apply(s, x))
  {
    CountsNext(past, x, c);
  }

  lemma CountsNext(past: seq<Step>, x: Step, c: nat)
    ensures var all := past + [x];
      && Refs(all, c) == Refs(past, c) + (if x == Share(c) then 1 else if x == Drop(c) then -1 else 0)
      && Count(all, Ask(c)) == Count(past, Ask(c)) + (if x == Ask(c) then 1 else 0)
      && Count(all, RunClose(c)) == Count(past, RunClose(c)) + (if x == RunClose(c) then 1 else 0)
      && Count(all, EndClose(c)) == Count(past, EndClose(c)) + (if x == EndClose(c) then 1 else 0)
      && Causes(all, c) == Causes(past, c)
           + (if x == RunClose(c) then [User] else if x.CloseInline? && x.c == c then [x.cause] else [])
  {
    CountNext(past, x, Share(c));
    CountNext(past, x, Drop(c));
    CountNext(past, x, Ask(c));
    CountNext(past, x, RunClose(c));
    CountNext(past, x, EndClose(c));
    CausesNext(past, x, c);
  }

  lemma ToldAccept(past: seq<Step>, s: State, x: Step)
    requires Told(past, x.c, s) && Enabled(s, x) && x.Accept?
    ensures Told(past + [x], x.c, Apply(s, x))
  {
    UnheardTold(past, x.c);
    CountsNext(past, x, x.c);
  }

  lemma ToldHere(past: seq<Step>, s: State, x: Step)
    requires Told(past, x.c, s) && x.c in s.conns && ConnHolds(s, x.c) && Enabled(s, x) && !x.Accept?
    ensures Told(past + [x], x.c, Apply(s, x))
  {
    CountsNext(past, x, x.c);
    CountIn(past, EndClose(x.c));
  }

  lemma ToldNext(past: seq<Step>, c: nat, s: State, x: Step)
    requires Told(past, c, s) && Invariant(s) && Enabled(s, x)
    ensures Told(past + [x], c, Apply(s, x))
  {
    if x.c != c {
      ToldElsewhere(past, c, s, x);
    } else if x.Accept? {
      ToldAccept(past, s, x);
    } else {
      ToldHere(past, s, x);
    }
  }

  lemma EnabledIsPossible(past: seq<Step>, s: State, x: Step)
    requires Told(past, x.c, s) && Invariant(s)
    ensures Enabled(s, x) <==> Possible(past, x)
  {
    if x.c in s.conns { assert ConnHolds(s, x.c); } else { UnheardTold(past, x.c); }
  }

  lemma LawfulLast(past: seq<Step>, x: Step)
    ensures Lawful(past + [x]) <==> Lawful(past) && Possible(past, x)
  {
    var all, n := past + [x], |past|;
    assert all[..n] == past && all[n] == x;
    assert forall i :: 0 <= i < n ==> all[..i] == past[..i] && all[i] == past[i];
    if Lawful(all) {
      assert Possible(all[..n], all[n]);
      forall i | 0 <= i < n ensures Possible(past[..i], past[i]) {
        assert Possible(all[..i], all[i]);
      }
    }
  }

  lemma {:induction false} RunLast(s: State, run: seq<Step>)
    requires run != []
    ensures var n := |run| - 1;
      && (IsRun(s, run) <==> IsRun(s, run[..n]) && Enabled(Exec(s, run[..n]), run[n]))
      && (IsRun(s, run) ==> Exec(s, run) == Apply(Exec(s, run[..n]), run[n]))
    decreases |run|
  {
    var n := |run| - 1;
    if n == 0 {
      assert run[..0] == [] && run[1..] == [];
    } else if Enabled(s, run[0]) {
      assert run[1..][..n - 1] == run[..n][1..] && run[..n][0] == run[0];
      RunLast(Apply(s, run[0]), run[1..]);
    }
  }

  /** The runs of the machine are exactly the lawful ones, and its state is what their past says. */
  lemma {:induction false} RunsAreExact(run: seq<Step>)
    ensures IsRun(Empty, run) <==> Lawful(run)
    ensures IsRun(Empty, run) ==> forall c :: Told(run, c, Exec(Empty, run))
    decreases |run|
  {
    if run != [] {
      var n := |run| - 1;
      var past, x := run[..n], run[n];
      assert run == past + [x];
      RunsAreExact(past);
      RunLast(Empty, run);
      LawfulLast(past, x);
      if IsRun(Empty, past) {
        var s := Exec(Empty, past);
        InvariantRun(Empty, past);
        EnabledIsPossible(past, s, x);
        if Enabled(s, x) {
          forall c ensures Told(run, c, Apply(s, x)) { ToldNext(past, c, s, x); }
        }
      }
    }
  }

  /** No user's close is lost: while fewer closes have run from the queue of a connection than users asked
      for, and no handler of it is half done, the next one can run, and the socket is closed after it. */
  lemma QueuedClosesRun(run: seq<Step>, c: nat)
    requires IsRun(Empty, run) && c in Exec(Empty, run).conns && Exec(Empty, run).conns[c].phase.Between?
    ensures Enabled(Exec(Empty, run), RunClose(c)) <==> Count(run, RunClose(c)) < Count(run, Ask(c))
    ensures Count(run, RunClose(c)) < Count(run, Ask(c)) ==> !Apply(Exec(Empty, run), RunClose(c)).conns[c].open
  {
    var s := Exec(Empty, run);
    assert Enabled(s, RunClose(c)) <==> Count(run, RunClose(c)) < Count(run, Ask(c)) by {
      RunsAreExact(run);
      assert Told(run, c, s);
    }
    if Enabled(s, RunClose(c)) { CloseTakesEffect(run, RunClose(c)); }
  }

  /** An object goes exactly when every reference made has been given up, the acceptor's own included, and
      its disconnect callback has run. */
  lemma DestroyIsExact(run: seq<Step>, c: nat)
    requires IsRun(Empty, run) && c in Exec(Empty, run).conns && Exec(Empty, run).conns[c].phase.Between?
    ensures Enabled(Exec(Empty, run), Destroy(c)) <==>
      Destroy(c) !in run && EndClose(c) in run && Count(run, Drop(c)) == Count(run, Share(c)) + 1
  {
    assert Told(run, c, Exec(Empty, run)) && Invariant(Exec(Empty, run)) by {
      RunsAreExact(run);
      InvariantRun(Empty, run);
    }
    DestroyTold(run, c, Exec(Empty, run));
  }

  lemma DestroyTold(past: seq<Step>, c: nat, s: State)
    requires Told(past, c, s) && Invariant(s) && c in s.conns && s.conns[c].phase.Between?
    ensures Enabled(s, Destroy(c)) <==>
      Destroy(c) !in past && EndClose(c) in past && Count(past, Drop(c)) == Count(past, Share(c)) + 1
  {
    EnabledIsPossible(past, s, Destroy(c));
  }
}
