/** The chain of reads of one connection and its read timer, with time: `start`, `start_receive`,
    `reset_read_timeout`, `close`, and the client's `is_connected_` flag. */
module ReadLoop {

  datatype State = State(
    timeout: nat,          // 0: no read timer
    now: nat,
    started: bool,
    open: bool,
    connected: bool,       // the client's flag, tested by its `send`
    pendingReads: nat,            // reads outstanding
    waits: seq<nat>,       // deadlines of the timer waits outstanding
    expired: nat)          // waits whose handler is on the strand with success; too late to cancel

  function Init(timeout: nat): State { State(timeout, 0, false, true, false, 0, [], 0) }

  datatype Step =
    | Start
    | Tick(d: nat)
    | ReadOk               // bytes arrived; frames were cut, the next read is issued
    | ReadBadLength        // bytes arrived; the framing failed
    | ReadFailed
    | Expire(i: nat)       // a wait reaches its deadline
    | RunExpired
    | Close

  /** `expires_after` cancels the waits outstanding; then one new wait is started. */
  function Arm(s: State): State
  {
    if s.timeout > 0 then s.(waits := [s.now + s.timeout]) else s
  }

  function CloseNow(s: State): State
  {
    (if s.open then s.(open := false, waits := []) else s).(connected := false)
  }

  predicate Enabled(s: State, step: Step)
  {
    match step
    case Start => !s.started
    case Tick(_) => true
    case ReadOk => s.pendingReads > 0
    case ReadBadLength => s.pendingReads > 0
    case ReadFailed => s.pendingReads > 0
    case Expire(i) => i < |s.waits| && s.waits[i] <= s.now
    case RunExpired => s.expired > 0
    case Close => true
  }

  function Apply(s: State, step: Step): State
    requires Enabled(s, step)
  {
    match step
    case Start => Arm(s.(started := true, connected := true, pendingReads := s.pendingReads + 1))
    case Tick(d) => s.(now := s.now + d)
    case ReadOk => Arm(s)    // one read completed, one issued
    case ReadBadLength => CloseNow(s.(pendingReads := s.pendingReads - 1))
    case ReadFailed => CloseNow(s.(pendingReads := s.pendingReads - 1))
    case Expire(i) => s.(waits := s.waits[..i] + s.waits[i + 1..], expired := s.expired + 1)
    case RunExpired => CloseNow(s.(expired := s.expired - 1))
    case Close => CloseNow(s)
  }

  predicate IsRun(s: State, run: seq<Step>)
    decreases |run|
  {
    run == [] || (Enabled(s, run[0]) && IsRun(Apply(s, run[0]), run[1..]))
  }

  function Exec(s: State, run: seq<Step>): State
    requires IsRun(s, run)
    decreases |run|
  {
    if run == [] then s else Exec(Apply(s, run[0]), run[1..])
  }

  lemma {:induction false} RunLast(s: State, run: seq<Step>)
    requires run != []
    ensures var n := |run| - 1;
      && (IsRun(s, run) <==> IsRun(s, run[..n]) && Enabled(Exec(s, run[..n]), run[n]))
      && (IsRun(s, run) ==> Exec(s, run) == Apply(Exec(s, run[..n]), run[n]))
    decreases |run|
  {
    var n := |run| - 1;
    if n == 0 {
      assert run[..0] == [] && run[1..] == [];
    } else if Enabled(s, run[0]) {
      assert run[1..][..n - 1] == run[..n][1..] && run[..n][0] == run[0];
      RunLast(Apply(s, run[0]), run[1..]);
    }
  }

  // ---- What the past of a connection says, told by the events alone.

  predicate Starts(step: Step) { step.Start? }

  predicate Expires(step: Step) { step.Expire? }

  predicate RunsExpired(step: Step) { step.RunExpired? }

  predicate Closes(step: Step) { step.ReadBadLength? || step.ReadFailed? || step.RunExpired? || step.Close? }

  /** A read that ended the chain of reads. */
  predicate LosesRead(step: Step) { step.ReadBadLength? || step.ReadFailed? }

  predicate Arms(step: Step) { step.Start? || step.ReadOk? }

  predicate Happened(past: seq<Step>, kind: Step -> bool) { exists i :: 0 <= i < |past| && kind(past[i]) }

  function Times(past: seq<Step>, kind: Step -> bool): nat
  {
    if past == [] then 0
    else var n := |past| - 1; Times(past[..n], kind) + (if kind(past[n]) then 1 else 0)
  }

  /** Nothing has closed the socket yet. */
  predicate IsOpen(past: seq<Step>) { !Happened(past, Closes) }

  function Elapsed(past: seq<Step>): nat
  {
    if past == [] then 0
    else var n := |past| - 1; Elapsed(past[..n]) + (if past[n].Tick? then past[n].d else 0)
  }

  /** The time since the connection was started or last received bytes, whichever is later. */
  function Idle(past: seq<Step>): nat
  {
    if past == [] then 0
    else
      var n := |past| - 1;
      if Arms(past[n]) then 0 else Idle(past[..n]) + (if past[n].Tick? then past[n].d else 0)
  }

  /** Since event `k` nothing has ended a wait: neither its own end nor the closing of the open socket. */
  predicate Undisturbed(past: seq<Step>, k: nat) {
    forall i :: k < i < |past| ==> !past[i].Expire? && !(Closes(past[i]) && IsOpen(past[..i]))
  }

  predicate Waiting(past: seq<Step>) { exists k: nat :: k < |past| && Arms(past[k]) && Undisturbed(past, k) }

  /** The client's flag: set by the handshake, and no close has come after it. */
  predicate FlagSet(past: seq<Step>) {
    exists k: nat :: k < |past| && past[k].Start? && forall i :: k < i < |past| ==> !Closes(past[i])
  }

  predicate Reading(past: seq<Step>) { Happened(past, Starts) && !Happened(past, LosesRead) }

  /** What can happen next: a read is outstanding from the start until one fails; the timer fires when the
      peer has been idle for the timeout, once, and not after the socket was closed. */
  predicate Possible(timeout: nat, past: seq<Step>, step: Step) {
    match step
    case Start => !Happened(past, Starts)
    case Tick(_) => true
    case ReadOk => Reading(past)
    case ReadBadLength => Reading(past)
    case ReadFailed => Reading(past)
    case Expire(i) => i == 0 && timeout > 0 && Waiting(past) && Idle(past) >= timeout
    case RunExpired => Times(past, RunsExpired) < Times(past, Expires)
    case Close => true
  }

  ghost predicate Told(timeout: nat, past: seq<Step>, s: State) {
    && s.timeout == timeout && s.now == Elapsed(past)
    && (s.started <==> Happened(past, Starts))
    && (s.open <==> IsOpen(past)) && (s.connected <==> FlagSet(past))
    && s.pendingReads == (if Reading(past) then 1 else 0)
    && s.waits == (if timeout > 0 && Waiting(past) then [Elapsed(past) - Idle(past) + timeout] else [])
    && s.expired == Times(past, Expires) - Times(past, RunsExpired)
  }

  // ---- One more event.

  lemma HappenedNext(past: seq<Step>, x: Step, kind: Step -> bool)
    ensures Happened(past + [x], kind) <==> Happened(past, kind) || kind(x)
  {
    var all := past + [x];
    if Happened(past, kind) {
      var i :| 0 <= i < |past| && kind(past[i]);
      assert all[i] == past[i];
    }
    assert all[|past|] == x;
  }

  lemma CountsNext(past: seq<Step>, x: Step, kind: Step -> bool)
    ensures Times(past + [x], kind) == Times(past, kind) + (if kind(x) then 1 else 0)
    ensures Elapsed(past + [x]) == Elapsed(past) + (if x.Tick? then x.d else 0)
    ensures Idle(past + [x]) == if Arms(x) then 0 else Idle(past) + (if x.Tick? then x.d else 0)
  {
    assert (past + [x])[..|past|] == past;
  }

  lemma {:induction false} IdleWithin(past: seq<Step>)
    ensures Idle(past) <= Elapsed(past)
  {
    if past != [] { IdleWithin(past[..|past| - 1]); }
  }

  lemma WaitingNext(past: seq<Step>, x: Step)
    ensures Waiting(past + [x]) <==> Arms(x) || (Waiting(past) && !x.Expire? && !(Closes(x) && IsOpen(past)))
  {
    var all, n := past + [x], |past|;
    assert all[..n] == past && forall i :: 0 <= i < n ==> all[..i] == past[..i];
    if Arms(x) {
      assert all[n] == x && Undisturbed(all, n);
    }
    if Waiting(past) && !x.Expire? && !(Closes(x) && IsOpen(past)) {
      var k: nat :| k < n && Arms(past[k]) && Undisturbed(past, k);
      assert all[k] == past[k] && Undisturbed(all, k);
    }
    if Waiting(all) && !Arms(x) {
      var k: nat :| k < |all| && Arms(all[k]) && Undisturbed(all, k);
      assert all[k] == past[k] && Undisturbed(past, k);
    }
  }

  lemma FlagNext(past: seq<Step>, x: Step)
    ensures FlagSet(past + [x]) <==> x.Start? || (FlagSet(past) && !Closes(x))
  {
    var all, n := past + [x], |past|;
    if x.Start? { assert all[n].Start?; }
    if FlagSet(past) && !Closes(x) {
      var k: nat :| k < n && past[k].Start? && forall i :: k < i < n ==> !Closes(past[i]);
      assert all[k].Start? && forall i :: k < i < |all| ==> !Closes(all[i]);
    }
    if FlagSet(all) && !x.Start? {
      var k: nat :| k < |all| && all[k].Start? && forall i :: k < i < |all| ==> !Closes(all[i]);
      assert past[k].Start? && forall i :: k < i < n ==> !Closes(past[i]) by {
        assert forall i :: 0 <= i < n ==> all[i] == past[i];
      }
      assert !Closes(all[n]);
    }
  }

  /** Each event of the run is possible after those before it. */
  ghost predicate Lawful(timeout: nat, run: seq<Step>) {
    forall i :: 0 <= i < |run| ==> Possible(timeout, run[..i], run[i])
  }

  lemma StartComesFirst(timeout: nat, past: seq<Step>)
    requires Lawful(timeout, past) && (Waiting(past) || Happened(past, LosesRead))
    ensures Happened(past, Starts)
  {
    var k: nat;
    if Waiting(past) {
      k :| k < |past| && Arms(past[k]);
    } else {
      k :| k < |past| && LosesRead(past[k]);
    }
    assert Possible(timeout, past[..k], past[k]);
    if past[k].Start? {
      assert Starts(past[k]);
    } else {
      assert Reading(past[..k]);
      var i :| 0 <= i < |past[..k]| && Starts(past[..k][i]);
      assert Starts(past[i]);
    }
  }

  lemma FlagsNext(timeout: nat, past: seq<Step>, s: State, x: Step)
    requires Told(timeout, past, s) && Lawful(timeout, past) && Enabled(s, x)
    ensures var s', all := Apply(s, x), past + [x];
      && (s'.started <==> Happened(all, Starts)) && (s'.open <==> IsOpen(all)) && (s'.connected <==> FlagSet(all))
      && s'.pendingReads == (if Reading(all) then 1 else 0)
  {
    HappenedNext(past, x, Starts);
    HappenedNext(past, x, Closes);
    HappenedNext(past, x, LosesRead);
    FlagNext(past, x);
    if x.Start? && Happened(past, LosesRead) { StartComesFirst(timeout, past); }
  }

  lemma TimesNext(timeout: nat, past: seq<Step>, s: State, x: Step)
    requires Told(timeout, past, s) && Enabled(s, x)
    ensures var s', all := Apply(s, x), past + [x];
      && s'.timeout == timeout && s'.now == Elapsed(all)
      && s'.waits == (if timeout > 0 && Waiting(all) then [Elapsed(all) - Idle(all) + timeout] else [])
      && s'.expired == Times(all, Expires) - Times(all, RunsExpired)
  {
    CountsNext(past, x, Expires);
    CountsNext(past, x, RunsExpired);
    WaitingNext(past, x);
  }

  lemma ToldNext(timeout: nat, past: seq<Step>, s: State, x: Step)
    requires Told(timeout, past, s) && Lawful(timeout, past) && Enabled(s, x)
    ensures Told(timeout, past + [x], Apply(s, x))
  {
    FlagsNext(timeout, past, s, x);
    TimesNext(timeout, past, s, x);
  }

  /** The runs of the machine are exactly the lawful ones, and its state is what their past says. */
  lemma {:induction false} RunsAreExact(timeout: nat, run: seq<Step>)
    ensures IsRun(Init(timeout), run) <==> Lawful(timeout, run)
    ensures IsRun(Init(timeout), run) ==> Told(timeout, run, Exec(Init(timeout), run))
    decreases |run|
  {
    if run != [] {
      var n := |run| - 1;
      var past, x := run[..n], run[n];
      RunsAreExact(timeout, past);
      RunLast(Init(timeout), run);
      assert run == past + [x] && forall i :: 0 <= i < n ==> past[..i] == run[..i];
      LawfulLast(timeout, past, x);
      if IsRun(Init(timeout), run) { ToldNext(timeout, past, Exec(Init(timeout), past), x); }
    }
  }

  lemma LawfulLast(timeout: nat, past: seq<Step>, x: Step)
    ensures Lawful(timeout, past + [x]) <==> Lawful(timeout, past) && Possible(timeout, past, x)
  {
    var all, n := past + [x], |past|;
    assert all[..n] == past && all[n] == x;
    assert forall i :: 0 <= i < n ==> all[..i] == past[..i] && all[i] == past[i];
    if Lawful(timeout, all) {
      assert Possible(timeout, all[..n], all[n]);
      forall i | 0 <= i < n ensures Possible(timeout, past[..i], past[i]) {
        assert Possible(timeout, all[..i], all[i]);
      }
    }
  }

  // ---- What that gives.

  /** One read and one live wait at most; an open connection that was started never stops reading; and
      a client flag left set on a closed socket has a read completion coming that clears it. */
  lemma OneReadOneWait(timeout: nat, run: seq<Step>)
    requires IsRun(Init(timeout), run)
    ensures var s := Exec(Init(timeout), run);
      && s.pendingReads <= 1 && |s.waits| <= 1
      && (s.started && s.open ==> s.pendingReads == 1)
      && (s.connected && !s.open ==> s.pendingReads == 1 && !Apply(s, ReadFailed).connected)
  {
    RunsAreExact(timeout, run);
    if FlagSet(run) { NoReadLost(timeout, run); }
    if IsOpen(run) { OpenNever(run, LosesRead); }
  }

  lemma OpenNever(past: seq<Step>, kind: Step -> bool)
    requires IsOpen(past) && forall x :: kind(x) ==> Closes(x)
    ensures !Happened(past, kind) && Times(past, kind) == 0
  {
    TimesHappened(past, kind);
    forall i | 0 <= i < |past| ensures !kind(past[i]) {
      assert !Closes(past[i]);
    }
  }

  /** Before the start no read can be lost, and after it a lost read clears the flag. */
  lemma NoReadLost(timeout: nat, past: seq<Step>)
    requires Lawful(timeout, past) && FlagSet(past)
    ensures Reading(past)
  {
    var k: nat :| k < |past| && past[k].Start? && forall i :: k < i < |past| ==> !Closes(past[i]);
    assert Starts(past[k]) && Possible(timeout, past[..k], past[k]);
    forall i | 0 <= i < |past| ensures !LosesRead(past[i]) {
      assert i > k ==> !Closes(past[i]);
      if i < k { NotBeforeStart(timeout, past, i, k); }
    }
  }

  lemma NotBeforeStart(timeout: nat, past: seq<Step>, i: nat, k: nat)
    requires Lawful(timeout, past) && i < k < |past| && past[k].Start?
    ensures !LosesRead(past[i])
  {
    assert Possible(timeout, past[..k], past[k]) && Possible(timeout, past[..i], past[i]);
    forall j | 0 <= j < i ensures !Starts(past[..i][j]) {
      assert past[..i][j] == past[..k][j];
    }
  }

  /** The deadline moves with every read: a connection that is idle for less than the timeout cannot be
      timed out by a wait that is not over, and one that is idle for it, and still waiting, can. */
  lemma DeadlineIsExact(timeout: nat, run: seq<Step>)
    requires IsRun(Init(timeout), run)
    ensures (exists i :: Enabled(Exec(Init(timeout), run), Expire(i)))
        <==> timeout > 0 && Waiting(run) && Idle(run) >= timeout
  {
    RunsAreExact(timeout, run);
    assert Enabled(Exec(Init(timeout), run), Expire(0)) <==> Possible(timeout, run, Expire(0));
  }

  /** In particular a read arms the timer anew, whatever was before. */
  lemma ReadMovesDeadline(timeout: nat, run: seq<Step>, d: nat)
    requires IsRun(Init(timeout), run) && timeout > 0 && Enabled(Exec(Init(timeout), run), ReadOk)
    ensures var s := Apply(Apply(Exec(Init(timeout), run), ReadOk), Tick(d));
      (exists i :: Enabled(s, Expire(i))) <==> d >= timeout
  {
    var more := run + [ReadOk];
    assert more[..|run|] == run;
    RunLast(Init(timeout), more);
    var all := more + [Tick(d)];
    assert all[..|more|] == more;
    RunLast(Init(timeout), all);
    DeadlineIsExact(timeout, all);
    WaitingNext(run, ReadOk);
    WaitingNext(more, Tick(d));
    CountsNext(run, ReadOk, Starts);
    CountsNext(more, Tick(d), Starts);
  }

  /** The peer of an open connection is never idle for the timeout. */
  ghost predicate Punctual(timeout: nat, run: seq<Step>) {
    forall i :: 0 <= i <= |run| && Happened(run[..i], Starts) && IsOpen(run[..i]) ==> Idle(run[..i]) < timeout
  }

  lemma {:induction false} TimesHappened(past: seq<Step>, kind: Step -> bool)
    ensures Times(past, kind) > 0 <==> Happened(past, kind)
  {
    if past != [] {
      var n := |past| - 1;
      TimesHappened(past[..n], kind);
      HappenedNext(past[..n], past[n], kind);
      assert past == past[..n] + [past[n]];
    }
  }

  /** If the peer is never idle for the timeout, the timer never closes the open connection: not even a wait
      that was about to expire. */
  lemma PunctualPeerIsNotTimedOut(timeout: nat, run: seq<Step>)
    requires IsRun(Init(timeout), run) && Punctual(timeout, run)
    ensures forall i :: 0 <= i < |run| && run[i].RunExpired? ==> !IsOpen(run[..i])
  {
    RunsAreExact(timeout, run);
    forall i | 0 <= i < |run| && run[i].RunExpired? ensures !IsOpen(run[..i]) {
      assert Possible(timeout, run[..i], run[i]);
      TimesHappened(run[..i], Expires);
      var j :| 0 <= j < |run[..i]| && Expires(run[..i][j]);
      NoneExpires(timeout, run, j);
      ClosedAfter(run, j, i);
    }
  }

  lemma ClosedAfter(run: seq<Step>, j: nat, i: nat)
    requires j <= i <= |run| && !IsOpen(run[..j])
    ensures !IsOpen(run[..i])
  {
    var k :| 0 <= k < |run[..j]| && Closes(run[..j][k]);
    assert Closes(run[..i][k]);
  }

  lemma NoneExpires(timeout: nat, run: seq<Step>, j: nat)
    requires Lawful(timeout, run) && Punctual(timeout, run) && j < |run| && run[j].Expire?
    ensures !IsOpen(run[..j])
  {
    assert Possible(timeout, run[..j], run[j]);
    assert Lawful(timeout, run[..j]) by {
      forall i | 0 <= i < j ensures Possible(timeout, run[..j][..i], run[..j][i]) {
        assert run[..j][..i] == run[..i] && Possible(timeout, run[..i], run[i]);
      }
    }
    StartComesFirst(timeout, run[..j]);
  }

  /** Conversely, once the peer of an open connection has been idle for the timeout, the timer can close the
      connection at once, and nothing but its own handler has to run for that. */
  lemma IdlePeerIsTimedOut(timeout: nat, run: seq<Step>) returns (more: seq<Step>)
    requires IsRun(Init(timeout), run) && timeout > 0
    requires Happened(run, Starts) && IsOpen(run) && Idle(run) >= timeout
    ensures var s := Exec(Init(timeout), run);
      && s.open && IsRun(s, more) && !Exec(s, more).open
      && (forall i :: 0 <= i < |more| ==> more[i].Expire? || more[i].RunExpired?)
  {
    var s := Exec(Init(timeout), run);
    RunsAreExact(timeout, run);
    OpenNever(run, RunsExpired);
    if Waiting(run) {
      var s1 := Apply(s, Expire(0));
      more := [Expire(0), RunExpired];
      assert more[1..] == [RunExpired];
      assert [RunExpired][1..] == [];
      assert IsRun(s1, [RunExpired]) && Exec(s1, [RunExpired]) == Apply(s1, RunExpired);
    } else {
      HasExpired(run);
      more := [RunExpired];
      assert more[1..] == [];
    }
  }

  /** An open connection that was started and waits no longer has a wait whose handler is still to run. */
  lemma HasExpired(run: seq<Step>)
    requires Happened(run, Starts) && IsOpen(run) && !Waiting(run)
    ensures Times(run, Expires) > 0
  {
    TimesHappened(run, Expires);
    var k :| 0 <= k < |run| && Starts(run[k]);
    assert !Undisturbed(run, k);
    var i :| k < i < |run| && (run[i].Expire? || (Closes(run[i]) && IsOpen(run[..i])));
    assert !Closes(run[i]);
    assert Expires(run[i]);
  }
}
