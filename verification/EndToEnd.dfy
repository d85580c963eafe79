/** Sender threads, pipeline, network and receiver together: what is delivered is what was posted. */
module EndToEnd {
  import opened Streams
  import opened Framing
  import opened Dispatcher
  import opened SendPipeline
  import opened PipelineInvariants
  import opened PipelineTheorems
  import Progress

  /** One direction of a TCP connection. `read` counts the wire bytes the receiver has been given. */
  datatype Link = Link(pipe: State<byte>, read: nat, rx: Receiver)

  datatype Move = Sending(step: Step<byte>) | Reading(n: nat)

  function Connected(c: Setup, threads: nat): Link { Link(Init(c, threads), 0, Fresh) }

  /** TCP hands over the next bytes of the wire, any number of them at a time; a receiver that met a
      bad length reads no more. */
  predicate May(c: Setup, l: Link, m: Move)
  {
    match m
    case Sending(step) => Enabled(c, l.pipe, step)
    case Reading(n) => n > 0 && l.read + n <= |l.pipe.wire| && !l.rx.dead
  }

  function After(c: Setup, cfg: Config, l: Link, m: Move): Link
    requires Productive(cfg) && May(c, l, m)
  {
    match m
    case Sending(step) => l.(pipe := Apply(c, l.pipe, step))
    case Reading(n) => l.(read := l.read + n, rx := Feed(cfg, l.rx, l.pipe.wire[l.read..l.read + n]))
  }

  predicate IsHistory(c: Setup, cfg: Config, l: Link, moves: seq<Move>)
    requires Productive(cfg)
    decreases |moves|
  {
    moves == [] || (May(c, l, moves[0]) && IsHistory(c, cfg, After(c, cfg, l, moves[0]), moves[1..]))
  }

  function Final(c: Setup, cfg: Config, l: Link, moves: seq<Move>): Link
    requires Productive(cfg) && IsHistory(c, cfg, l, moves)
    decreases |moves|
  {
    if moves == [] then l else Final(c, cfg, After(c, cfg, l, moves[0]), moves[1..])
  }

  ghost predicate LinkHolds(c: Setup, cfg: Config, l: Link)
    requires Productive(cfg)
  {
    Invariant(c, l.pipe) && l.read <= |l.pipe.wire| && Tracks(cfg, l.rx, l.pipe.wire[..l.read])
  }

  lemma WireGrows<U>(c: Setup, s: State<U>, step: Step<U>)
    requires Enabled(c, s, step)
    ensures s.wire <= Apply(c, s, step).wire
  {
  }

  lemma LinkMove(c: Setup, cfg: Config, l: Link, m: Move)
    requires SoundSetup(c) && Productive(cfg) && LinkHolds(c, cfg, l) && May(c, l, m)
    ensures LinkHolds(c, cfg, After(c, cfg, l, m))
  {
    match m
    case Sending(step) =>
      InvariantStep(c, l.pipe, step);
      WireGrows(c, l.pipe, step);
      assert Apply(c, l.pipe, step).wire[..l.read] == l.pipe.wire[..l.read];
    case Reading(n) =>
      var wire, chunk := l.pipe.wire, l.pipe.wire[l.read..l.read + n];
      FeedTracks(cfg, l.rx, Feed(cfg, l.rx, chunk), wire[..l.read], chunk);
      assert wire[..l.read] + chunk == wire[..l.read + n];
  }

  lemma {:induction false} LinkRun(c: Setup, cfg: Config, l: Link, moves: seq<Move>)
    requires SoundSetup(c) && Productive(cfg) && LinkHolds(c, cfg, l) && IsHistory(c, cfg, l, moves)
    ensures LinkHolds(c, cfg, Final(c, cfg, l, moves))
    decreases |moves|
  {
    if moves != [] {
      LinkMove(c, cfg, l, moves[0]);
      LinkRun(c, cfg, After(c, cfg, l, moves[0]), moves[1..]);
    }
  }

  /** End to end. For any number of threads, any interleaving of their sends with the strand, the
      network and the reader, any batches, any chunks, any failure and any close: if the payloads posted
      are valid frames, the frames delivered are a prefix of them in post order, the receiver never
      fails, and a payload whose last byte was read has been delivered. */
  lemma DeliveredIsPrefixOfPosted(c: Setup, cfg: Config, threads: nat, moves: seq<Move>)
    requires SoundSetup(c) && Productive(cfg) && IsHistory(c, cfg, Connected(c, threads), moves)
    requires AllValid(cfg, Final(c, cfg, Connected(c, threads), moves).pipe.log)
    ensures var l := Final(c, cfg, Connected(c, threads), moves);
      && !l.rx.dead && l.rx.frames <= l.pipe.log
      && (forall k :: 0 <= k <= |l.pipe.log| && |Flatten(l.pipe.log[..k])| <= l.read ==> k <= |l.rx.frames|)
  {
    InvariantInit<byte>(c, threads);
    LinkRun(c, cfg, Connected(c, threads), moves);
    var l := Final(c, cfg, Connected(c, threads), moves);
    var seen := l.pipe.wire[..l.read];
    InvariantGivesPrefix(c, l.pipe);
    ParsePrefix(cfg, l.pipe.log, seen);
    if seen == [] {
      NothingParsed(cfg);
    }
  }

  lemma NothingParsed(cfg: Config)
    requires Productive(cfg)
    ensures Parse(cfg, []).frames == []
  {
    var empty: seq<byte> := [];
    assert empty[..0] == empty;
  }

  /** Everything posted is delivered once every byte of it has been written and read. */
  lemma AllDelivered(c: Setup, cfg: Config, threads: nat, moves: seq<Move>)
    requires SoundSetup(c) && Productive(cfg) && IsHistory(c, cfg, Connected(c, threads), moves)
    requires var l := Final(c, cfg, Connected(c, threads), moves);
      AllValid(cfg, l.pipe.log) && l.read >= |Flatten(l.pipe.log)|
    ensures var l := Final(c, cfg, Connected(c, threads), moves); l.rx.frames == l.pipe.log && !l.rx.dead
  {
    DeliveredIsPrefixOfPosted(c, cfg, threads, moves);
    var l := Final(c, cfg, Connected(c, threads), moves);
    assert l.pipe.log[..|l.pipe.log|] == l.pipe.log;
  }

  lemma FinalAppend(c: Setup, cfg: Config, l: Link, m: Move, rest: seq<Move>)
    requires Productive(cfg) && May(c, l, m) && IsHistory(c, cfg, After(c, cfg, l, m), rest)
    ensures IsHistory(c, cfg, l, [m] + rest)
    ensures Final(c, cfg, l, [m] + rest) == Final(c, cfg, After(c, cfg, l, m), rest)
  {
    assert ([m] + rest)[1..] == rest;
  }

  /** The strand and the network alone can bring everything posted onto the wire of an open connection. */
  lemma {:induction false} WriteAll(c: Setup, cfg: Config, l: Link) returns (moves: seq<Move>)
    requires SoundSetup(c) && Productive(cfg) && Invariant(c, l.pipe) && l.pipe.open
    ensures IsHistory(c, cfg, l, moves)
    ensures var l' := Final(c, cfg, l, moves);
      && l'.rx == l.rx && l'.read == l.read && l'.pipe.log == l.pipe.log && l'.pipe.wire == Flatten(l.pipe.log)
    decreases Progress.Work(l.pipe)
  {
    moves := [];
    if l.pipe.posted != [] || l.pipe.queue != [] {
      var step := Progress.StrandHelps(c, l.pipe);
      var rest := WriteAll(c, cfg, After(c, cfg, l, Sending(step)));
      FinalAppend(c, cfg, l, Sending(step), rest);
      moves := [Sending(step)] + rest;
    } else {
      DrainedWire(c, l.pipe);
    }
  }

  /** The receiver can read whatever is on the wire. */
  lemma ReadAll(c: Setup, cfg: Config, l: Link) returns (moves: seq<Move>)
    requires SoundSetup(c) && Productive(cfg) && LinkHolds(c, cfg, l) && !l.rx.dead
    ensures IsHistory(c, cfg, l, moves)
    ensures var l' := Final(c, cfg, l, moves); l'.pipe == l.pipe && Tracks(cfg, l'.rx, l.pipe.wire)
  {
    var n := |l.pipe.wire| - l.read;
    assert l.pipe.wire[..|l.pipe.wire|] == l.pipe.wire;
    moves := [];
    if n > 0 {
      LinkMove(c, cfg, l, Reading(n));
      FinalAppend(c, cfg, l, Reading(n), []);
      moves := [Reading(n)];
      assert moves == [Reading(n)] + [];
    }
  }

  lemma WholeStream(cfg: Config, rx: Receiver, log: seq<seq<byte>>)
    requires Productive(cfg) && AllValid(cfg, log) && Tracks(cfg, rx, Flatten(log))
    ensures rx.frames == log && !rx.dead
  {
    ParsePrefix(cfg, log, Flatten(log));
    assert log[..|log|] == log;
    if Flatten(log) == [] { NothingParsed(cfg); }
  }

  lemma {:induction false} HistoryAppend(c: Setup, cfg: Config, l: Link, xs: seq<Move>, ys: seq<Move>)
    requires Productive(cfg) && IsHistory(c, cfg, l, xs) && IsHistory(c, cfg, Final(c, cfg, l, xs), ys)
    ensures IsHistory(c, cfg, l, xs + ys)
    ensures Final(c, cfg, l, xs + ys) == Final(c, cfg, Final(c, cfg, l, xs), ys)
    decreases |xs|
  {
    if xs == [] {
      assert xs + ys == ys;
    } else {
      var all := xs + ys;
      assert all[0] == xs[0] && all[1..] == xs[1..] + ys;
      HistoryAppend(c, cfg, After(c, cfg, l, xs[0]), xs[1..], ys);
    }
  }

  /** No deadlock: from every state in which the connection is open there is a continuation, without any
      new send, after which exactly the posted payloads are delivered. */
  lemma PostedCanBeDelivered(c: Setup, cfg: Config, threads: nat, moves: seq<Move>) returns (more: seq<Move>)
    requires SoundSetup(c) && Productive(cfg) && IsHistory(c, cfg, Connected(c, threads), moves)
    requires var l := Final(c, cfg, Connected(c, threads), moves); AllValid(cfg, l.pipe.log) && l.pipe.open
    ensures var l := Final(c, cfg, Connected(c, threads), moves);
      && IsHistory(c, cfg, l, more)
      && Final(c, cfg, l, more).rx.frames == l.pipe.log == Final(c, cfg, l, more).pipe.log
  {
    var l := Final(c, cfg, Connected(c, threads), moves);
    assert LinkHolds(c, cfg, l) by {
      InvariantInit<byte>(c, threads);
      LinkRun(c, cfg, Connected(c, threads), moves);
    }
    assert !l.rx.dead by { DeliveredIsPrefixOfPosted(c, cfg, threads, moves); }
    var writes := WriteAll(c, cfg, l);
    LinkRun(c, cfg, l, writes);
    var rest := ReadAll(c, cfg, Final(c, cfg, l, writes));
    HistoryAppend(c, cfg, l, writes, rest);
    more := writes + rest;
    WholeStream(cfg, Final(c, cfg, l, more).rx, l.pipe.log);
  }

  /** Moves of the strand, the network and the reader by which posted bytes get on: no error, no new message. */
  predicate Delivering(m: Move) {
    m.Reading? || (Progress.Helpful(m.step) && !m.step.Fill? && !m.step.Post?)
  }

  /** What is left to do for them. */
  function Remaining(l: Link): int { Progress.Work(l.pipe) + |Flatten(l.pipe.log)| - l.read }

  /** None of them is possible. */
  ghost predicate Settled(c: Setup, l: Link) { forall m :: Delivering(m) ==> !May(c, l, m) }

  lemma RemainingIsNatural(c: Setup, cfg: Config, l: Link)
    requires Productive(cfg) && LinkHolds(c, cfg, l)
    ensures Remaining(l) >= 0
  {
    Progress.WorkIsNatural(c, l.pipe);
    InvariantGivesPrefix(c, l.pipe);
  }

  lemma DeliveringMove(c: Setup, cfg: Config, l: Link, m: Move)
    requires SoundSetup(c) && Productive(cfg) && LinkHolds(c, cfg, l) && l.pipe.open && May(c, l, m) && Delivering(m)
    ensures var l' := After(c, cfg, l, m);
      LinkHolds(c, cfg, l') && l'.pipe.open && l'.pipe.log == l.pipe.log && Remaining(l') < Remaining(l)
  {
    LinkMove(c, cfg, l, m);
    if m.Sending? { Progress.HelpfulWork(c, l.pipe, m.step); }
  }

  lemma {:induction false} DeliveringRun(c: Setup, cfg: Config, l: Link, moves: seq<Move>)
    requires SoundSetup(c) && Productive(cfg) && LinkHolds(c, cfg, l) && l.pipe.open && IsHistory(c, cfg, l, moves)
    requires forall i :: 0 <= i < |moves| ==> Delivering(moves[i])
    ensures var l' := Final(c, cfg, l, moves);
      && LinkHolds(c, cfg, l') && l'.pipe.open && l'.pipe.log == l.pipe.log && |moves| <= Remaining(l)
    decreases |moves|
  {
    RemainingIsNatural(c, cfg, l);
    if moves != [] {
      DeliveringMove(c, cfg, l, moves[0]);
      DeliveringRun(c, cfg, After(c, cfg, l, moves[0]), moves[1..]);
    }
  }

  /** When strand, network and reader can do nothing more, everything is written and read. */
  lemma SettledIsRead(c: Setup, cfg: Config, l: Link)
    requires SoundSetup(c) && Productive(cfg) && LinkHolds(c, cfg, l) && l.pipe.open && !l.rx.dead && Settled(c, l)
    ensures l.read == |Flatten(l.pipe.log)|
  {
    if l.pipe.posted != [] || l.pipe.queue != [] {
      var step := Progress.StrandHelps(c, l.pipe);
      assert Delivering(Sending(step)) && May(c, l, Sending(step));
    }
    DrainedWire(c, l.pipe);
    assert Delivering(Reading(1));
  }

  /** Delivery cannot fail to happen: from every state in which the connection is open, however strand,
      network and reader are scheduled, they come to an end after boundedly many moves, and then exactly
      the posted payloads are delivered. */
  lemma PostedIsDelivered(c: Setup, cfg: Config, threads: nat, moves: seq<Move>, more: seq<Move>)
    requires SoundSetup(c) && Productive(cfg) && IsHistory(c, cfg, Connected(c, threads), moves)
    requires var l := Final(c, cfg, Connected(c, threads), moves);
      AllValid(cfg, l.pipe.log) && l.pipe.open && IsHistory(c, cfg, l, more)
    requires forall i :: 0 <= i < |more| ==> Delivering(more[i])
    ensures var l := Final(c, cfg, Connected(c, threads), moves);
      && |more| <= Progress.Work(l.pipe) + |Flatten(l.pipe.log)| - l.read
      && (Settled(c, Final(c, cfg, l, more)) ==> Final(c, cfg, l, more).rx.frames == l.pipe.log)
  {
    var init := Connected(c, threads);
    var l := Final(c, cfg, init, moves);
    InvariantInit<byte>(c, threads);
    LinkRun(c, cfg, init, moves);
    DeliveringRun(c, cfg, l, more);
    HistoryAppend(c, cfg, init, moves, more);
    DeliveredIsPrefixOfPosted(c, cfg, threads, moves + more);
    if Settled(c, Final(c, cfg, l, more)) {
      SettledIsRead(c, cfg, Final(c, cfg, l, more));
      AllDelivered(c, cfg, threads, moves + more);
    }
  }

  /** ... and the handlers called are, in order, those of a prefix of the messages posted. */
  lemma HandlersFollowPosts<T>(c: Setup, r: Router<T>, maxSize: nat, threads: nat, moves: seq<Move>)
    requires var cfg := FramingOf(r, maxSize);
      && SoundSetup(c) && Productive(cfg) && IsHistory(c, cfg, Connected(c, threads), moves)
      && AllValid(cfg, Final(c, cfg, Connected(c, threads), moves).pipe.log)
    ensures var l := Final(c, FramingOf(r, maxSize), Connected(c, threads), moves);
      CallsFor(r, l.rx.frames) <= CallsFor(r, l.pipe.log)
  {
    var cfg := FramingOf(r, maxSize);
    DeliveredIsPrefixOfPosted(c, cfg, threads, moves);
    var l := Final(c, cfg, Connected(c, threads), moves);
    var k := |l.rx.frames|;
    assert l.pipe.log == l.rx.frames + l.pipe.log[k..];
    CallsForAppend(r, l.rx.frames, l.pipe.log[k..]);
  }
}
