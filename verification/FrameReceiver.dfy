/** The receive side of `TcpConnection` and `TcpClient`: one growable buffer that is filled by reads,
    cut in place by the slice loop, compacted and regrown. */
module FrameReceiver {
  import opened Streams
  import opened Framing
  import opened Dispatcher

  /** A callback that closes its connection when `closes` holds of all frames it was handed so far has not
      done so since the first `from` of them. */
  predicate KeptOpen(closes: seq<seq<byte>> -> bool, frames: seq<seq<byte>>, from: nat) {
    forall i :: from < i <= |frames| ==> !closes(frames[..i])
  }

  lemma KeptOpenSnoc(closes: seq<seq<byte>> -> bool, frames: seq<seq<byte>>, f: seq<byte>, from: nat)
    requires from <= |frames|
    ensures KeptOpen(closes, frames + [f], from) <==> KeptOpen(closes, frames, from) && !closes(frames + [f])
  {
    var all := frames + [f];
    assert all[..|all|] == all;
    assert forall i :: 0 <= i <= |frames| ==> all[..i] == frames[..i];
  }

  lemma KeptOpenSplit(closes: seq<seq<byte>> -> bool, frames: seq<seq<byte>>, middle: nat)
    requires middle <= |frames|
    ensures KeptOpen(closes, frames, 0) <==> KeptOpen(closes, frames[..middle], 0) && KeptOpen(closes, frames, middle)
  {
    assert forall i :: 0 <= i <= middle ==> frames[..middle][..i] == frames[..i];
  }

  class StreamReceiver<!T(==,!new)> {
    const cfg: Config
    const slack: nat                          // 65536: first size, and free room before every read
    const onReceive: MessageDispatcher?<T>    // null when no receive callback is set
    const closes: seq<seq<byte>> -> bool      // when the callback closes its own connection
    var recvBuffer: array<byte>
    var activeBytes: nat
    var open: bool
    var reading: bool                         // an async read is outstanding
    var armings: nat                          // how often the read timer was armed
    ghost var dead: bool                      // a bad length was met
    var frames: seq<seq<byte>>                // frames stepped over, with their bytes when handed over

    /** No pass leaves this many bytes behind. */
    function Limit(): nat { Max(Max(cfg.headerSize, cfg.maxSize), 1) }

    ghost predicate Valid()
      reads this, onReceive
    {
      && Productive(cfg) && slack >= 1
      && activeBytes <= recvBuffer.Length
      && slack <= recvBuffer.Length <= Limit() + slack - 1
      && (reading ==> !dead && activeBytes < Limit() && activeBytes + slack <= recvBuffer.Length)
      && (onReceive != null ==> AllWithinView(onReceive.handlers))
    }

    ghost function State(): Receiver
      reads this, recvBuffer
      requires activeBytes <= recvBuffer.Length
    {
      Receiver(recvBuffer[..activeBytes], frames, dead)
    }

    constructor (cfg: Config, slack: nat, onReceive: MessageDispatcher?<T>, closes: seq<seq<byte>> -> bool)
      requires Productive(cfg) && slack >= 1
      requires onReceive != null ==> AllWithinView(onReceive.handlers)
      ensures Valid() && fresh(recvBuffer) && State() == Fresh && open && !reading && armings == 0
      ensures this.cfg == cfg && this.slack == slack && this.onReceive == onReceive && this.closes == closes
    {
      this.cfg, this.slack, this.onReceive, this.closes := cfg, slack, onReceive, closes;
      recvBuffer := new byte[slack];
      activeBytes, open, reading := 0, true, false;
      armings, dead, frames := 0, false, [];
    }

    /** The callback did not close the connection on any frame after the first `from`. */
    ghost predicate CallbackKeptOpen(from: nat)
      reads this`frames
    {
      onReceive == null || KeptOpen(closes, frames, from)
    }

    method Close()
      modifies this`open
      ensures !open
    {
      open := false;
    }

    /** Makes room for `slack` more bytes and issues the one read. It is only called when none is
        outstanding, so the buffer never moves under a read. */
    method StartReceive()
      requires Valid() && !reading && !dead && activeBytes < Limit()
      modifies this`recvBuffer, this`reading
      ensures Valid() && reading
      ensures if old(recvBuffer.Length) >= activeBytes + slack then recvBuffer == old(recvBuffer) else fresh(recvBuffer)
      ensures State() == old(State())
    {
      if recvBuffer.Length < activeBytes + slack {
        var bigger := new byte[activeBytes + slack](_ => 0);
        forall i | 0 <= i < recvBuffer.Length {
          bigger[i] := recvBuffer[i];
        }
        assert bigger[..activeBytes] == recvBuffer[..activeBytes];
        recvBuffer := bigger;
      }
      reading := true;
    }

    /** The completion of the read: an error, or the bytes the kernel put behind the active ones. */
    method OnReadComplete(failed: bool, chunk: seq<byte>)
      requires Valid() && reading && |chunk| <= recvBuffer.Length - activeBytes
      modifies this, recvBuffer, onReceive
      ensures Valid()
      ensures recvBuffer == old(recvBuffer) || fresh(recvBuffer)
      ensures failed || chunk == [] ==>
        !open && !reading && State() == old(State()) && armings == old(armings)
        && (onReceive != null ==> onReceive.calls == old(onReceive.calls))
      ensures !failed && chunk != [] ==>
        && SameReceiver(State(), Feed(cfg, old(State()), chunk))
        && reading == !dead
        && open == (old(open) && !dead && CallbackKeptOpen(|old(frames)|))
        && armings == old(armings) + (if dead then 0 else 1)
      ensures !failed && chunk != [] && onReceive != null ==>
        onReceive.calls ==
        old(onReceive.calls) + CallsFor(onReceive.Routing(), Parse(cfg, old(State()).pending + chunk).frames)
      ensures onReceive != null ==> onReceive.handlers == old(onReceive.handlers)
    {
      reading := false;
      if failed || chunk == [] {
        Close();
        return;
      }
      ghost var pending := recvBuffer[..activeBytes];
      forall i | 0 <= i < |chunk| {
        recvBuffer[activeBytes + i] := chunk[i];
      }
      activeBytes := activeBytes + |chunk|;
      assert recvBuffer[..activeBytes] == pending + chunk;
      ProcessBuffer();
    }

    /** Arms the read timer anew. */
    method ResetReadTimeout()
      modifies this`armings
      ensures armings == old(armings) + 1
    {
      armings := armings + 1;
    }

    /** Cuts every complete frame off the active bytes, then compacts, arms the timer and reads again. A
        bad length closes the connection, arms nothing and starts no further read. */
    method ProcessBuffer()
      requires Valid() && !reading && !dead
      modifies this, recvBuffer, onReceive
      ensures Valid()
      ensures recvBuffer == old(recvBuffer) || fresh(recvBuffer)
      ensures var p := Parse(cfg, old(recvBuffer[..activeBytes]));
        && frames == old(frames) + p.frames && dead == p.bad
        && (!dead ==> recvBuffer[..activeBytes] == p.rest)
        && reading == !dead && open == (old(open) && !dead && CallbackKeptOpen(|old(frames)|))
        && armings == old(armings) + (if dead then 0 else 1)
        && (onReceive != null ==>
              onReceive.calls == old(onReceive.calls) + CallsFor(onReceive.Routing(), p.frames))
      ensures onReceive != null ==> onReceive.handlers == old(onReceive.handlers)
    {
      ghost var s := recvBuffer[..activeBytes];
      var offset, bad := CutFrames();
      if bad {
        Close();
        dead := true;
        return;
      }
      RestIsShort(cfg, s);
      Compact(offset);
      ResetReadTimeout();
      StartReceive();
    }

    /** The slice loop of `ProcessBuffer`: hands every complete frame to the callback and stops at a
        bad length or in front of an incomplete frame, but not when the callback closes the connection. */
    method CutFrames() returns (offset: nat, bad: bool)
      requires Valid() && !reading && !dead
      modifies recvBuffer, onReceive, this`frames, this`open
      ensures Valid()
      ensures var p := Parse(cfg, old(recvBuffer[..activeBytes]));
        && frames == old(frames) + p.frames && bad == p.bad
        && offset <= activeBytes && recvBuffer[offset..activeBytes] == p.rest
        && open == (old(open) && CallbackKeptOpen(|old(frames)|))
      ensures onReceive != null ==>
        && onReceive.handlers == old(onReceive.handlers)
        && onReceive.calls == old(onReceive.calls)
             + CallsFor(onReceive.Routing(), Parse(cfg, old(recvBuffer[..activeBytes])).frames)
    {
      ghost var done, here := [], recvBuffer[..activeBytes];
      ghost var p := Parse(cfg, here);
      ghost var calls := if onReceive != null then onReceive.calls else [];
      offset, bad := 0, false;
      while activeBytes - offset >= cfg.headerSize
        invariant Valid() && CutAt(offset, p, done, here)
        invariant onReceive != null ==> onReceive.handlers == old(onReceive.handlers)
        invariant Delivered(old(frames), old(open), calls, done)
        decreases activeBytes - offset
      {
        var turn := NextTurn(offset, here);
        match turn {
          case Fails =>
            CutEnds(cfg, p, done, here, true);
            bad := true;
            return;
          case Delivers(total) =>
            done, here := Deliver(offset, total, old(frames), old(open), calls, p, done, here);
            offset := offset + total;
          case Waits =>
            break;
        }
      }
      CutEnds(cfg, p, done, here, false);
    }

    /** Applies the framing function to the header at `offset`, where the bytes `here` start, and says what
        to do about the length it announces. */
    method NextTurn(offset: nat, ghost here: seq<byte>) returns (turn: Turn)
      requires offset + cfg.headerSize <= activeBytes <= recvBuffer.Length
      requires recvBuffer[offset..activeBytes] == here
      ensures turn == LoopTurn(cfg, here)
    {
      var header := recvBuffer[offset..offset + cfg.headerSize];
      assert header == recvBuffer[offset..activeBytes][..cfg.headerSize];
      var total := cfg.totalSize(header);
      if total < cfg.headerSize || total > cfg.maxSize {
        return Fails;
      }
      return if activeBytes - offset >= total then Delivers(total) else Waits;
    }

    /** Since the state of `frames0`, `open0` and `calls0` the frames `done` were handed over. */
    ghost predicate Delivered(frames0: seq<seq<byte>>, open0: bool, calls0: seq<Call<T>>, done: seq<seq<byte>>)
      reads this, onReceive
    {
      && frames == frames0 + done && open == (open0 && CallbackKeptOpen(|frames0|))
      && (onReceive != null ==> onReceive.calls == calls0 + CallsFor(onReceive.Routing(), done))
    }

    /** The frames `done` of `p` end at `offset`, where `here` starts. */
    ghost predicate CutAt(offset: nat, p: Cut, done: seq<seq<byte>>, here: seq<byte>)
      reads this, recvBuffer
      requires Productive(cfg)
    {
      offset <= activeBytes <= recvBuffer.Length && recvBuffer[offset..activeBytes] == here && CutSoFar(cfg, p, done, here)
    }

    /** One more frame, after those in `done`. */
    method Deliver(offset: nat, total: nat, ghost frames0: seq<seq<byte>>, ghost open0: bool,
                   ghost calls0: seq<Call<T>>, ghost p: Cut, ghost done: seq<seq<byte>>, ghost here: seq<byte>)
      returns (ghost done': seq<seq<byte>>, ghost here': seq<byte>)
      requires Valid() && CutAt(offset, p, done, here) && Delivered(frames0, open0, calls0, done)
      requires LoopTurn(cfg, here) == Delivers(total)
      modifies recvBuffer, onReceive, this`frames, this`open
      ensures Valid() && total >= 1
      ensures CutAt(offset + total, p, done', here') && Delivered(frames0, open0, calls0, done')
      ensures onReceive != null ==> onReceive.handlers == old(onReceive.handlers)
    {
      done', here' := done + [here[..total]], here[total..];
      StepOver(cfg, p, done, here, total);
      KeptOpenSnoc(closes, frames, here[..total], |frames0|);
      HandOver(offset, total, here);
      if onReceive != null {
        CallsForAppend(onReceive.Routing(), done, [here[..total]]);
      }
    }

    /** Gives the first `total` bytes of `here`, which start at `offset`, to the callback if there is
        one. The active bytes behind them stay as they are. */
    method HandOver(offset: nat, total: nat, ghost here: seq<byte>)
      requires Valid() && offset + total <= activeBytes && recvBuffer[offset..activeBytes] == here
      modifies recvBuffer, onReceive, this`frames, this`open
      ensures Valid()
      ensures recvBuffer[offset + total..activeBytes] == here[total..]
      ensures frames == old(frames) + [here[..total]]
      ensures open == (old(open) && (onReceive != null ==> !closes(frames)))
      ensures onReceive != null ==>
        && onReceive.handlers == old(onReceive.handlers)
        && onReceive.calls == old(onReceive.calls) + CallsFor(onReceive.Routing(), [here[..total]])
    {
      assert recvBuffer[offset..offset + total] == recvBuffer[offset..activeBytes][..total];
      assert recvBuffer[offset + total..activeBytes] == recvBuffer[offset..activeBytes][total..];
      frames := frames + [recvBuffer[offset..offset + total]];
      if onReceive != null {
        var _ := onReceive.Dispatch(recvBuffer, offset, total);
        if closes(frames) {
          Close();
        }
      }
    }

    /** Moves the bytes from `offset` on to the front; the two ranges may overlap. */
    method Compact(offset: nat)
      requires Valid() && !reading && offset <= activeBytes
      modifies recvBuffer, this`activeBytes
      ensures Valid()
      ensures activeBytes == old(activeBytes) - offset
      ensures recvBuffer[..activeBytes] == old(recvBuffer[offset..activeBytes])
    {
      var unparsed: nat := activeBytes - offset;
      if unparsed > 0 && offset > 0 {
        forall i | 0 <= i < unparsed {
          recvBuffer[i] := recvBuffer[offset + i];
        }
      }
      activeBytes := unparsed;
    }
  }

  /** Part of the way to the cut `p` the frames `done` are cut off and `here` is left. */
  ghost predicate CutSoFar(c: Config, p: Cut, done: seq<seq<byte>>, here: seq<byte>)
    requires Productive(c)
  {
    var q := Parse(c, here);
    p == Cut(done + q.frames, q.rest, q.bad)
  }

  lemma StepOver(c: Config, p: Cut, done: seq<seq<byte>>, here: seq<byte>, total: nat)
    requires Productive(c) && CutSoFar(c, p, done, here)
    requires LoopTurn(c, here) == Delivers(total)
    ensures total >= 1 && CutSoFar(c, p, done + [here[..total]], here[total..])
  {
    var frame, next := here[..total], here[total..];
    FrameIsNotEmpty(c, here);
    assert frame[..c.headerSize] == here[..c.headerSize] && here == frame + next;
    ParseFrame(c, frame, next);
    assert done + ([frame] + Parse(c, next).frames) == done + [frame] + Parse(c, next).frames;
  }

  lemma CutEnds(c: Config, p: Cut, done: seq<seq<byte>>, here: seq<byte>, bad: bool)
    requires Productive(c) && CutSoFar(c, p, done, here)
    requires LoopTurn(c, here) == if bad then Fails else Waits
    ensures p == Cut(done, here, bad)
  {
    assert done + [] == done;
  }

  /** The whole chain of reads of a connection. The peer sends `stream`; when the `i`-th read completes
      the kernel has `wanted[i]` bytes for it, of which it takes as many as there is room for and as the
      stream still has. The frames and the handler calls are those of the parse of everything read,
      whatever handlers did to the bytes; a callback that closes the connection ends the chain of reads,
      not the frames of the last one. */
  method ReadAll<T(==,!new)>(r: StreamReceiver<T>, stream: seq<byte>, wanted: seq<nat>) returns (read: nat)
    requires r.Valid() && r.reading && r.open && r.State() == Fresh
    requires r.onReceive != null ==> r.onReceive.calls == []
    requires forall i :: 0 <= i < |wanted| ==> wanted[i] > 0
    modifies r, r.recvBuffer, r.onReceive
    ensures r.Valid()
    ensures r.slack <= r.recvBuffer.Length < Max(Max(r.cfg.headerSize, r.cfg.maxSize), 1) + r.slack
    ensures r.reading ==> r.activeBytes + r.slack <= r.recvBuffer.Length
    ensures read <= |stream| && (r.open ==> read >= Min(|wanted|, |stream|))
    ensures r.open ==> TakesAll(r.slack, wanted, |wanted|, read, |stream|)
    ensures read > 0 ==>
      var p := Parse(r.cfg, stream[..read]);
      && r.frames == p.frames && r.dead == p.bad && r.open == (!p.bad && r.CallbackKeptOpen(0))
      && (!r.dead ==> r.recvBuffer[..r.activeBytes] == p.rest)
      && (r.onReceive != null ==> r.onReceive.calls == CallsFor(r.onReceive.Routing(), p.frames))
    ensures r.dead ==> read > 0 && Parse(r.cfg, stream).frames == r.frames && Parse(r.cfg, stream).bad
  {
    read := 0;
    var i := 0;
    while i < |wanted| && r.reading && r.open && read < |stream|
      invariant 0 <= i <= |wanted| && read <= |stream| && read >= Min(i, |stream|)
      invariant TakesAll(r.slack, wanted, i, read, |stream|)
      invariant HasRead(r, stream[..read])
      invariant r.recvBuffer == old(r.recvBuffer) || fresh(r.recvBuffer)
      decreases |wanted| - i
    {
      ghost var room := r.recvBuffer.Length - r.activeBytes;
      var n := Min(wanted[i], Min(r.recvBuffer.Length - r.activeBytes, |stream| - read));
      ReadOne(r, stream[..read], stream[read..read + n]);
      assert stream[..read] + stream[read..read + n] == stream[..read + n];
      TakesMore(r.slack, wanted, i, read, |stream|, room, n);
      read := read + n;
      i := i + 1;
    }
    if r.open { TakesRest(r.slack, wanted, i, read, |stream|); }
    if r.dead {
      assert stream == stream[..read] + stream[read..];
      ParseAppend(r.cfg, stream[..read], stream[read..]);
    }
  }

  function Sum(ns: seq<nat>): nat
  {
    if ns == [] then 0 else Sum(ns[..|ns| - 1]) + ns[|ns| - 1]
  }

  /** If no read wants more than the slack, the first `i` of them get all they want while the stream lasts. */
  ghost predicate TakesAll(slack: nat, wanted: seq<nat>, i: nat, read: nat, total: nat)
    requires i <= |wanted|
  {
    (forall j :: 0 <= j < |wanted| ==> wanted[j] <= slack) ==> read == Min(Sum(wanted[..i]), total)
  }

  lemma TakesMore(slack: nat, wanted: seq<nat>, i: nat, read: nat, total: nat, room: nat, n: nat)
    requires i < |wanted| && TakesAll(slack, wanted, i, read, total) && read < total && room >= slack
    requires n == Min(wanted[i], Min(room, total - read))
    ensures TakesAll(slack, wanted, i + 1, read + n, total)
  {
    assert wanted[..i + 1][..i] == wanted[..i];
  }

  lemma TakesRest(slack: nat, wanted: seq<nat>, i: nat, read: nat, total: nat)
    requires i <= |wanted| && TakesAll(slack, wanted, i, read, total) && (i == |wanted| || read == total)
    ensures TakesAll(slack, wanted, |wanted|, read, total)
  {
    assert wanted[..|wanted|] == wanted;
    SumGrows(wanted, i);
  }

  lemma {:induction false} SumGrows(ns: seq<nat>, i: nat)
    requires i <= |ns|
    ensures Sum(ns[..i]) <= Sum(ns)
    decreases |ns|
  {
    if i < |ns| {
      assert ns[..|ns| - 1][..i] == ns[..i];
      SumGrows(ns[..|ns| - 1], i);
    } else {
      assert ns[..i] == ns;
    }
  }

  /** The receiver between two reads, after it has read `seen` and nothing else. */
  ghost predicate HasRead<T(!new)>(r: StreamReceiver<T>, seen: seq<byte>)
    reads r, r.recvBuffer, r.onReceive
  {
    && r.Valid() && r.reading == !r.dead && r.open == (!r.dead && r.CallbackKeptOpen(0))
    && Tracks(r.cfg, r.State(), seen)
    && (r.onReceive != null ==> r.onReceive.calls == CallsFor(r.onReceive.Routing(), r.frames))
  }

  method ReadOne<T(==,!new)>(r: StreamReceiver<T>, ghost seen: seq<byte>, chunk: seq<byte>)
    requires HasRead(r, seen) && r.reading && 0 < |chunk| <= r.recvBuffer.Length - r.activeBytes
    modifies r, r.recvBuffer, r.onReceive
    ensures HasRead(r, seen + chunk) && (r.recvBuffer == old(r.recvBuffer) || fresh(r.recvBuffer))
  {
    ghost var before := r.State();
    r.OnReadComplete(false, chunk);
    FeedTracks(r.cfg, before, r.State(), seen, chunk);
    KeptOpenSplit(r.closes, r.frames, |before.frames|);
    if r.onReceive != null {
      CallsForAppend(r.onReceive.Routing(), before.frames, Parse(r.cfg, before.pending + chunk).frames);
    }
  }
}
