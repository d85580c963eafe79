/** The message dispatcher: routes a frame by its header to a typed handler, which works on the
    received bytes in place. */
module Dispatcher {
  import opened Streams
  import opened Framing

  /** A handler ran for message type `kind` on the bytes `view`. */
  datatype Call<T> = Call(kind: T, view: seq<byte>)

  /** A registered handler for a struct of `size` bytes. `effect` is what it leaves of the bytes it views;
      it may depend on every call the handlers had before, since they keep state. */
  datatype Handler<!T> = Handler(size: nat, effect: (seq<Call<T>>, seq<byte>) -> seq<byte>)

  /** A handler gets a reference to its struct, so it writes those bytes and no others. */
  ghost predicate WithinView<T(!new)>(h: Handler<T>) {
    forall calls, v :: |v| == h.size ==> |h.effect(calls, v)| == h.size
  }

  ghost predicate AllWithinView<T(!new)>(table: map<T, Handler<T>>) {
    forall t :: t in table ==> WithinView(table[t])
  }

  /** What routing depends on: the header length, the extractor (type and total size), the table. */
  datatype Router<!T> = Router(headerSize: nat, extractor: seq<byte> -> (T, nat), table: map<T, Handler<T>>)

  function KindOf<T>(r: Router<T>, data: seq<byte>): T
    requires r.headerSize <= |data|
  {
    r.extractor(data[..r.headerSize]).0
  }

  /** A type is registered for the header of `data`. */
  predicate Registered<T(==)>(r: Router<T>, data: seq<byte>) {
    r.headerSize <= |data| && KindOf(r, data) in r.table
  }

  /** ... and `data` is long enough for the struct of that type. */
  predicate Handled<T(==)>(r: Router<T>, data: seq<byte>) {
    Registered(r, data) && r.table[KindOf(r, data)].size <= |data|
  }

  /** The handler call one frame causes, if it is `Handled`. */
  function CallOf<T(==)>(r: Router<T>, f: seq<byte>): seq<Call<T>>
  {
    if Handled(r, f) then [Call(KindOf(r, f), f[..r.table[KindOf(r, f)].size])] else []
  }

  /** The handler calls a list of frames causes, in order. */
  function CallsFor<T(==)>(r: Router<T>, frames: seq<seq<byte>>): seq<Call<T>>
  {
    if frames == [] then [] else CallOf(r, frames[0]) + CallsFor(r, frames[1..])
  }

  lemma {:induction false} CallsForAppend<T>(r: Router<T>, xs: seq<seq<byte>>, ys: seq<seq<byte>>)
    ensures CallsFor(r, xs + ys) == CallsFor(r, xs) + CallsFor(r, ys)
  {
    if xs == [] {
      assert xs + ys == ys;
    } else {
      CallsForAppend(r, xs[1..], ys);
      assert (xs + ys)[0] == xs[0] && (xs + ys)[1..] == xs[1..] + ys;
      Associative(CallOf(r, xs[0]), CallsFor(r, xs[1..]), CallsFor(r, ys));
    }
  }

  /** What one frame does, told by the header extractor and the table alone: its type is looked up, and the
      handler of that type, if there is one and the frame has all of its struct, gets the first bytes of the
      frame, as many as the struct has. */
  lemma OneFrame<T>(r: Router<T>, f: seq<byte>)
    ensures Registered(r, f) <==> r.headerSize <= |f| && r.extractor(f[..r.headerSize]).0 in r.table
    ensures CallsFor(r, [f]) ==
      if r.headerSize <= |f| && r.extractor(f[..r.headerSize]).0 in r.table
         && r.table[r.extractor(f[..r.headerSize]).0].size <= |f|
      then var kind := r.extractor(f[..r.headerSize]).0; [Call(kind, f[..r.table[kind].size])]
      else []
  {
    assert [f][1..] == [];
  }

  /** The size function made from the extractor. The receive loop only applies it to spans of
      `headerSize` bytes; on a shorter one the lambda of `get_size_lambda` would read past its end. */
  function SizeOf<T>(r: Router<T>, header: seq<byte>): nat
  {
    if r.headerSize <= |header| then r.extractor(header[..r.headerSize]).1 else 0
  }

  /** The framing the dispatcher hands to the TCP classes: header length and total size from its own extractor. */
  function FramingOf<T>(r: Router<T>, maxSize: nat): Config
  {
    Config(r.headerSize, maxSize, header => SizeOf(r, header))
  }

  /** What happens to a frame can be told from its header alone. */
  predicate HeaderDecides<T(==)>(r: Router<T>, header: seq<byte>)
    requires |header| == r.headerSize
  {
    var (kind, total) := r.extractor(header);
    kind in r.table && r.table[kind].size <= total
  }

  lemma HeaderIsEnough<T>(r: Router<T>, f: seq<byte>)
    requires r.headerSize <= |f| && r.extractor(f[..r.headerSize]).1 == |f|
    ensures Handled(r, f) <==> HeaderDecides(r, f[..r.headerSize])
  {
  }

  /** Dispatcher and framing agree: for a stream cut with the dispatcher's own size function no frame is
      too short to be routed, and a handler runs for exactly those frames whose header names a registered
      type and announces at least its struct. */
  lemma {:induction false} FramesReachTheTable<T>(r: Router<T>, maxSize: nat, s: seq<byte>, i: nat)
    requires Productive(FramingOf(r, maxSize)) && i < |Parse(FramingOf(r, maxSize), s).frames|
    ensures var f := Parse(FramingOf(r, maxSize), s).frames[i];
      && r.headerSize <= |f| <= maxSize && r.extractor(f[..r.headerSize]).1 == |f|
      && (CallsFor(r, [f]) != [] <==> HeaderDecides(r, f[..r.headerSize]))
  {
    var c := FramingOf(r, maxSize);
    ParseSound(c, s);
    var f := Parse(c, s).frames[i];
    assert ValidFrame(c, f);
    assert f[..r.headerSize][..r.headerSize] == f[..r.headerSize];
    HeaderIsEnough(r, f);
    OneFrame(r, f);
  }

  class MessageDispatcher<!T(==,!new)> {
    const headerSize: nat
    const extractor: seq<byte> -> (T, nat)
    var handlers: map<T, Handler<T>>
    var calls: seq<Call<T>>             // all calls so far, which stand for the state the handlers keep

    constructor (headerSize: nat, extractor: seq<byte> -> (T, nat))
      ensures this.headerSize == headerSize && this.extractor == extractor
      ensures handlers == map[] && calls == []
    {
      this.headerSize, this.extractor := headerSize, extractor;
      handlers, calls := map[], [];
    }

    ghost function Routing(): Router<T>
      reads this`handlers
    {
      Router(headerSize, extractor, handlers)
    }

    method AddHandler(kind: T, size: nat, effect: (seq<Call<T>>, seq<byte>) -> seq<byte>)
      modifies this`handlers
      ensures handlers == old(handlers)[kind := Handler(size, effect)]
    {
      handlers := handlers[kind := Handler(size, effect)];
    }

    /** Routes `buf[off..off + len]`. The result says that the type is registered; the handler runs
        only if the frame is also long enough. Bytes outside the handler's view keep their values. */
    method Dispatch(buf: array<byte>, off: nat, len: nat) returns (found: bool)
      requires off + len <= buf.Length && AllWithinView(handlers)
      modifies buf, this`calls
      ensures found <==> headerSize <= len && extractor(old(buf[..])[off..off + headerSize]).0 in handlers
      ensures calls == old(calls) +
        if found && handlers[extractor(old(buf[..])[off..off + headerSize]).0].size <= len
        then var kind := extractor(old(buf[..])[off..off + headerSize]).0;
             [Call(kind, old(buf[..])[off..off + handlers[kind].size])]
        else []
      ensures found <==> Registered(Routing(), old(buf[off..off + len]))
      ensures calls == old(calls) + CallsFor(Routing(), [old(buf[off..off + len])])
      ensures forall i :: 0 <= i < off || off + len <= i < buf.Length ==> buf[i] == old(buf[i])
      ensures !Handled(Routing(), old(buf[off..off + len])) ==> buf[..] == old(buf[..])
      ensures var f := old(buf[off..off + len]);
        Handled(Routing(), f) ==>
          var h := handlers[KindOf(Routing(), f)];
          && buf[off..off + h.size] == h.effect(old(calls), f[..h.size])
          && buf[off + h.size..] == old(buf[..])[off + h.size..]
    {
      ghost var f := buf[off..off + len];
      OneFrame(Routing(), f);
      if len < headerSize {
        return false;
      }
      var header := buf[off..off + headerSize];
      assert header == f[..headerSize];
      var kind := extractor(header).0;
      if kind !in handlers {
        return false;
      }
      var h := handlers[kind];
      if len >= h.size {
        var view := buf[off..off + h.size];
        assert view == f[..h.size];
        var after := h.effect(calls, view);
        assert WithinView(h);
        calls := calls + [Call(kind, view)];
        forall i | 0 <= i < h.size {
          buf[off + i] := after[i];
        }
        assert buf[off..off + h.size] == after;
      }
      return true;
    }
  }
}
