/** What the receive side of a TCP stream means: the recursive cut of a byte
    stream into frames whose length a user function reads off their header. */
module Framing {
  import opened Streams

  /** `totalSize` is the user's framing function; it is only applied to headers of `headerSize` bytes. */
  datatype Config = Config(headerSize: nat, maxSize: nat, totalSize: seq<byte> -> nat)

  /** The slice loop makes progress on every frame exactly under this condition (see `ProductiveIsExact`). */
  predicate Productive(c: Config) {
    c.headerSize >= 1 || c.totalSize([]) >= 1
  }

  /** `p` is one frame: the length its own header announces is its length, within the limits. */
  predicate ValidFrame(c: Config, p: seq<byte>) {
    c.headerSize <= |p| <= c.maxSize && c.totalSize(p[..c.headerSize]) == |p|
  }

  predicate AllValid(c: Config, ps: seq<seq<byte>>) {
    forall i :: 0 <= i < |ps| ==> ValidFrame(c, ps[i])
  }

  /** A header is there and announces a length outside the limits. */
  predicate BadHead(c: Config, s: seq<byte>) {
    |s| >= c.headerSize &&
    var n := c.totalSize(s[..c.headerSize]);
    n < c.headerSize || n > c.maxSize
  }

  /** Not enough bytes yet: no full header, or a header in the limits without its whole frame. */
  predicate Incomplete(c: Config, s: seq<byte>) {
    |s| >= c.headerSize ==>
      !BadHead(c, s) && |s| < c.totalSize(s[..c.headerSize])
  }

  datatype Cut = Cut(frames: seq<seq<byte>>, rest: seq<byte>, bad: bool)

  /** One turn of the slice loop on what is left of the buffer: wait for more bytes, fail on a length
      outside the limits, or deliver a frame of that size. */
  datatype Turn = Waits | Fails | Delivers(size: nat)

  function LoopTurn(c: Config, s: seq<byte>): (r: Turn)
    ensures r.Delivers? ==> r.size <= |s|
  {
    if |s| < c.headerSize then Waits
    else
      var n := c.totalSize(s[..c.headerSize]);
      if n < c.headerSize || n > c.maxSize then Fails
      else if |s| < n then Waits
      else Delivers(n)
  }

  /** The reference parse of a whole stream: turns of the loop until one waits or fails. */
  function Parse(c: Config, s: seq<byte>): (r: Cut)
    requires Productive(c)
    decreases |s|
  {
    match LoopTurn(c, s)
    case Waits => Cut([], s, false)
    case Fails => Cut([], s, true)
    case Delivers(n) =>
      FrameIsNotEmpty(c, s);
      var tail := Parse(c, s[n..]);
      Cut([s[..n]] + tail.frames, tail.rest, tail.bad)
  }

  lemma FrameIsNotEmpty(c: Config, s: seq<byte>)
    requires Productive(c) && |s| >= c.headerSize && !BadHead(c, s)
    ensures c.totalSize(s[..c.headerSize]) >= 1
  {
    if c.headerSize == 0 {
      assert s[..0] == [];
    }
  }

  lemma AllValidAppend(c: Config, xs: seq<seq<byte>>, ys: seq<seq<byte>>)
    requires AllValid(c, xs) && AllValid(c, ys)
    ensures AllValid(c, xs + ys)
  {
    forall i | 0 <= i < |xs + ys| ensures ValidFrame(c, (xs + ys)[i]) {
      if i < |xs| { assert ValidFrame(c, xs[i]); } else { assert ValidFrame(c, ys[i - |xs|]); }
    }
  }

  lemma AppendCovers(xs: seq<seq<byte>>, ys: seq<seq<byte>>, rest: seq<byte>)
    ensures Flatten(xs + ys) + rest == Flatten(xs) + (Flatten(ys) + rest)
  {
    FlattenAppend(xs, ys);
  }

  lemma ConsCovers(f: seq<byte>, fs: seq<seq<byte>>, rest: seq<byte>)
    ensures Flatten([f] + fs) + rest == f + (Flatten(fs) + rest)
  {
    FlattenOne(f);
    AppendCovers([f], fs, rest);
  }

  /** The parse of a stream that starts with a frame. */
  lemma ParseFrame(c: Config, f: seq<byte>, s: seq<byte>)
    requires Productive(c) && ValidFrame(c, f)
    ensures Parse(c, f + s) == Cut([f] + Parse(c, s).frames, Parse(c, s).rest, Parse(c, s).bad)
  {
    assert (f + s)[..c.headerSize] == f[..c.headerSize];
    FrameIsNotEmpty(c, f + s);
    assert (f + s)[..|f|] == f && (f + s)[|f|..] == s;
  }

  /** Nothing is lost and nothing invented: the frames and the rest are the stream, every frame
      announces its own length, and the parse stops only where it must. */
  ghost predicate IsSound(c: Config, s: seq<byte>, p: Cut) {
    && Flatten(p.frames) + p.rest == s
    && AllValid(c, p.frames)
    && (if p.bad then BadHead(c, p.rest) else Incomplete(c, p.rest))
  }

  lemma SoundFrame(c: Config, f: seq<byte>, s: seq<byte>, p: Cut)
    requires ValidFrame(c, f) && IsSound(c, s, p)
    ensures IsSound(c, f + s, Cut([f] + p.frames, p.rest, p.bad))
  {
    AllValidAppend(c, [f], p.frames);
    ConsCovers(f, p.frames, p.rest);
  }

  lemma {:induction false} ParseSound(c: Config, s: seq<byte>)
    requires Productive(c)
    ensures IsSound(c, s, Parse(c, s))
    decreases |s|
  {
    if BadHead(c, s) || Incomplete(c, s) {
      assert Parse(c, s).frames == [] && Parse(c, s).rest == s;
    } else {
      var n := c.totalSize(s[..c.headerSize]);
      var f, tail := s[..n], s[n..];
      FrameIsNotEmpty(c, s);
      assert f[..c.headerSize] == s[..c.headerSize] && s == f + tail;
      ParseSound(c, tail);
      ParseFrame(c, f, tail);
      SoundFrame(c, f, tail, Parse(c, tail));
    }
  }

  /** A stream can be cut in only one way: any list of valid frames with a rest that cannot be cut
      further is what `Parse` returns. */
  lemma {:induction false} ParseUnique(c: Config, fs: seq<seq<byte>>, rest: seq<byte>, bad: bool)
    requires Productive(c) && AllValid(c, fs)
    requires if bad then BadHead(c, rest) else Incomplete(c, rest)
    ensures Parse(c, Flatten(fs) + rest) == Cut(fs, rest, bad)
    decreases |fs|
  {
    if fs == [] {
      assert Flatten(fs) + rest == rest;
    } else {
      var f, s := fs[0], Flatten(fs) + rest;
      assert ValidFrame(c, f);
      assert s == f + (Flatten(fs[1..]) + rest);
      ParseUnique(c, fs[1..], rest, bad);
      ParseFrame(c, f, Flatten(fs[1..]) + rest);
      assert [f] + fs[1..] == fs;
    }
  }

  /** What the announced length `n` of the first frame decides: both limits are allowed lengths, a length beyond
      either is bad at once, and a frame is delivered with its last byte. */
  lemma HeadDecides(c: Config, s: seq<byte>, n: nat)
    requires Productive(c) && |s| >= c.headerSize && n == c.totalSize(s[..c.headerSize])
    ensures var p := Parse(c, s);
      && (p.frames == [] && p.bad <==> n < c.headerSize || n > c.maxSize)
      && (p.frames == [] && !p.bad <==> c.headerSize <= n <= c.maxSize && n > |s|)
      && (p.frames != [] ==> p.frames[0] == s[..n])
  {
    if LoopTurn(c, s).Delivers? { FrameIsNotEmpty(c, s); }
  }

  /** Parsing may be resumed: later bytes are parsed after what was left over, and a bad header stays bad. */
  lemma ParseAppend(c: Config, s: seq<byte>, t: seq<byte>)
    requires Productive(c)
    ensures var p := Parse(c, s);
      if p.bad then Parse(c, s + t) == Cut(p.frames, p.rest + t, true)
      else var q := Parse(c, p.rest + t); Parse(c, s + t) == Cut(p.frames + q.frames, q.rest, q.bad)
  {
    var p := Parse(c, s);
    ParseSound(c, s);
    assert s + t == Flatten(p.frames) + (p.rest + t);
    if p.bad {
      assert (p.rest + t)[..c.headerSize] == p.rest[..c.headerSize];
      ParseUnique(c, p.frames, p.rest + t, true);
    } else {
      var q := Parse(c, p.rest + t);
      ParseSound(c, p.rest + t);
      AllValidAppend(c, p.frames, q.frames);
      ParseUnique(c, p.frames + q.frames, q.rest, q.bad);
      AppendCovers(p.frames, q.frames, q.rest);
    }
  }

  /** A stream of valid frames, received up to any byte, parses to a prefix of those frames and never
      fails; a frame is missing only while its last byte is. (With a header of 0 bytes and a constant
      length above the limit there is no valid frame and even the empty stream is bad.) */
  lemma {:induction false} ParsePrefix(c: Config, fs: seq<seq<byte>>, s: seq<byte>)
    requires Productive(c) && AllValid(c, fs) && s <= Flatten(fs)
    ensures var p := Parse(c, s);
      && (p.bad ==> s == [] && BadHead(c, []))
      && p.frames <= fs
      && (forall k :: 0 <= k <= |fs| && |Flatten(fs[..k])| <= |s| ==> k <= |p.frames|)
    decreases |fs|
  {
    if fs == [] {
      assert s == [];
    } else {
      var f := fs[0];
      assert ValidFrame(c, f);
      assert Flatten(fs) == f + Flatten(fs[1..]);
      assert forall k :: 1 <= k <= |fs| ==> fs[..k][1..] == fs[1..][..k - 1];
      if |s| < |f| {
        assert s == f[..|s|];
        if |s| >= c.headerSize { assert s[..c.headerSize] == f[..c.headerSize]; }
      } else {
        var rest := s[|f|..];
        assert s == f + rest && rest <= Flatten(fs[1..]);
        ParsePrefix(c, fs[1..], rest);
        ParseFrame(c, f, rest);
        if c.headerSize == 0 { assert f[..0] == []; }
        assert [f] + fs[1..] == fs;
      }
    }
  }

  /** What is left over after a pass that did not fail is smaller than the largest frame or header. */
  lemma RestIsShort(c: Config, s: seq<byte>)
    requires Productive(c) && !Parse(c, s).bad
    ensures |Parse(c, s).rest| < Max(Max(c.headerSize, c.maxSize), 1)
  {
    ParseSound(c, s);
  }

  /** `Productive` is exactly what termination of the slice loop needs: with it every frame a turn
      delivers shortens what is left; without it a turn delivers an empty frame and stands where it was. */
  lemma ProductiveIsExact(c: Config)
    ensures Productive(c) <==> (forall s :: LoopTurn(c, s).Delivers? ==> |s[LoopTurn(c, s).size..]| < |s|)
  {
    if Productive(c) {
      forall s | LoopTurn(c, s).Delivers? ensures LoopTurn(c, s).size >= 1 {
        FrameIsNotEmpty(c, s);
      }
    } else {
      var empty: seq<byte> := [];
      assert empty[..0] == empty;
      assert LoopTurn(c, empty) == Delivers(0);
    }
  }

  // ---- The receiver seen from outside: bytes not yet cut, frames delivered, and whether it stopped.

  datatype Receiver = Receiver(pending: seq<byte>, frames: seq<seq<byte>>, dead: bool)

  const Fresh := Receiver([], [], false)

  /** One read of `chunk`; a receiver that met a bad length takes no more reads. */
  function Feed(c: Config, r: Receiver, chunk: seq<byte>): Receiver
    requires Productive(c)
  {
    if r.dead then r
    else
      var p := Parse(c, r.pending + chunk);
      Receiver(p.rest, r.frames + p.frames, p.bad)
  }

  function FeedAll(c: Config, r: Receiver, chunks: seq<seq<byte>>): Receiver
    requires Productive(c)
    decreases |chunks|
  {
    if chunks == [] then r else FeedAll(c, Feed(c, r, chunks[0]), chunks[1..])
  }

  /** The receiver has so far seen the stream `s`. */
  ghost predicate HasSeen(c: Config, r: Receiver, s: seq<byte>)
    requires Productive(c)
  {
    var p := Parse(c, s);
    r.frames == p.frames && r.dead == p.bad && (!r.dead ==> r.pending == p.rest)
  }

  lemma FeedExtends(c: Config, r: Receiver, s: seq<byte>, chunk: seq<byte>)
    requires Productive(c) && HasSeen(c, r, s)
    ensures HasSeen(c, Feed(c, r, chunk), s + chunk)
  {
    ParseAppend(c, s, chunk);
  }

  lemma {:induction false} FeedAllExtends(c: Config, r: Receiver, s: seq<byte>, chunks: seq<seq<byte>>)
    requires Productive(c) && HasSeen(c, r, s)
    ensures HasSeen(c, FeedAll(c, r, chunks), s + Flatten(chunks))
    decreases |chunks|
  {
    if chunks == [] {
      assert s + Flatten(chunks) == s;
    } else {
      FeedExtends(c, r, s, chunks[0]);
      FeedAllExtends(c, Feed(c, r, chunks[0]), s + chunks[0], chunks[1..]);
      assert s + chunks[0] + Flatten(chunks[1..]) == s + Flatten(chunks);
    }
  }

  /** Chunking independence: however the stream is cut into non-empty reads, the frames delivered and
      whether the receiver fails are those of the parse of the whole stream. */
  lemma ChunkingIndependence(c: Config, chunks: seq<seq<byte>>)
    requires Productive(c) && chunks != []
    ensures HasSeen(c, FeedAll(c, Fresh, chunks), Flatten(chunks))
  {
    var first := Feed(c, Fresh, chunks[0]);
    assert Fresh.pending + chunks[0] == chunks[0];
    assert first.frames == Parse(c, chunks[0]).frames;
    FeedAllExtends(c, first, chunks[0], chunks[1..]);
  }

  /** The same stream in two chunkings: same frames, same verdict. */
  lemma SameStreamSameFrames(c: Config, xs: seq<seq<byte>>, ys: seq<seq<byte>>)
    requires Productive(c) && xs != [] && ys != [] && Flatten(xs) == Flatten(ys)
    ensures var x, y := FeedAll(c, Fresh, xs), FeedAll(c, Fresh, ys);
      x.frames == y.frames && x.dead == y.dead && (!x.dead ==> x.pending == y.pending)
  {
    ChunkingIndependence(c, xs);
    ChunkingIndependence(c, ys);
  }

  /** Equal to an observer: once dead, the bytes still in the buffer are never looked at again. */
  ghost predicate SameReceiver(a: Receiver, b: Receiver) {
    a.frames == b.frames && a.dead == b.dead && (!a.dead ==> a.pending == b.pending)
  }

  /** What the receiver shows after the stream `s`; before any read it is fresh. */
  ghost predicate Tracks(c: Config, r: Receiver, s: seq<byte>)
    requires Productive(c)
  {
    if s == [] then r == Fresh else HasSeen(c, r, s)
  }

  lemma FeedTracks(c: Config, r: Receiver, r': Receiver, s: seq<byte>, chunk: seq<byte>)
    requires Productive(c) && Tracks(c, r, s) && chunk != [] && SameReceiver(r', Feed(c, r, chunk))
    ensures Tracks(c, r', s + chunk)
  {
    if s == [] {
      assert s + chunk == chunk && r.pending + chunk == chunk;
    } else {
      FeedExtends(c, r, s, chunk);
    }
  }
}
