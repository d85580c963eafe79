/** The binary log format: a packed 16-byte header in network byte order, then the payload. */
module RimLog {
  import opened Streams

  datatype Option<+T> = None | Some(value: T)

  datatype Record = Record(id: nat, timestamp: nat, payload: seq<byte>)

  /** The low `width` bytes of `n`, most significant first: a cast to an unsigned integer of that
      width followed by `htobe`. */
  function BigEndian(n: nat, width: nat): (r: seq<byte>)
    ensures |r| == width
  {
    if width == 0 then [] else BigEndian(n / 256, width - 1) + [(n % 256) as byte]
  }

  function FromBigEndian(s: seq<byte>): nat
  {
    if s == [] then 0 else 256 * FromBigEndian(s[..|s| - 1]) + s[|s| - 1] as nat
  }

  function Pow256(w: nat): (r: nat)
    ensures r >= 1
  {
    if w == 0 then 1 else 256 * Pow256(w - 1)
  }

  const TwoTo32: nat := 0x1_0000_0000
  const TwoTo64: nat := 0x1_0000_0000_0000_0000

  lemma Widths()
    ensures Pow256(4) == TwoTo32 && Pow256(8) == TwoTo64
  {
    assert Pow256(2) == 0x1_0000;
    assert Pow256(4) == 256 * (256 * Pow256(2));
    assert Pow256(6) == 256 * (256 * Pow256(4));
    assert Pow256(8) == 256 * (256 * Pow256(6));
  }

  /** Reading back gives the value less a multiple of 256^width. */
  lemma {:induction false} ReadBack(n: nat, width: nat) returns (k: nat)
    ensures FromBigEndian(BigEndian(n, width)) < Pow256(width)
    ensures n == k * Pow256(width) + FromBigEndian(BigEndian(n, width))
  {
    if width == 0 {
      k := n;
    } else {
      k := ReadBack(n / 256, width - 1);
      assert BigEndian(n, width)[..width - 1] == BigEndian(n / 256, width - 1);
      Carry(n, k, Pow256(width - 1), FromBigEndian(BigEndian(n / 256, width - 1)));
    }
  }

  lemma Carry(n: nat, k: nat, p: nat, low: nat)
    requires n / 256 == k * p + low
    ensures n == k * (256 * p) + (256 * low + n % 256)
  {
    assert k * (256 * p) == 256 * (k * p);
  }

  lemma Multiple(k: nat, p: nat)
    requires k >= 1
    ensures k * p >= p
  {
    assert k * p == (k - 1) * p + p;
  }

  /** The value survives exactly when it fits. */
  lemma ReadBackExact(n: nat, width: nat)
    ensures FromBigEndian(BigEndian(n, width)) == n <==> n < Pow256(width)
  {
    var k := ReadBack(n, width);
    if k >= 1 {
      Multiple(k, Pow256(width));
    }
  }

  lemma {:induction false} WriteBack(s: seq<byte>)
    ensures BigEndian(FromBigEndian(s), |s|) == s
  {
    if s != [] {
      WriteBack(s[..|s| - 1]);
      var high, low := FromBigEndian(s[..|s| - 1]), s[|s| - 1] as nat;
      assert (256 * high + low) / 256 == high && (256 * high + low) % 256 == low;
    }
  }

  lemma DivTwice(n: nat, p: nat)
    requires p >= 1
    ensures n / 256 / p == n / (256 * p)
  {
    var q, m := n / 256 / p, n / 256 % p;
    assert n == 256 * (q * p + m) + n % 256 && 256 * (q * p) == q * (256 * p);
    assert 0 <= 256 * m + n % 256 < 256 * p;
    DivUnique(n, 256 * p, q, 256 * m + n % 256);
  }

  lemma DivUnique(n: nat, d: nat, q: nat, r: nat)
    requires n == q * d + r && r < d
    ensures n / d == q
  {
    var k := n / d;
    assert k * d <= n < k * d + d;
    if k + 1 <= q { Multiple(q - k, d); }
    if q + 1 <= k { Multiple(k - q, d); }
  }

  /** The byte of weight 256^(width - 1 - i). */
  function Digit(n: nat, width: nat, i: nat): nat
    requires i < width
  {
    n / Pow256(width - 1 - i) % 256
  }

  /** Network byte order: the most significant byte comes first. */
  lemma {:induction false} NetworkOrder(n: nat, width: nat, i: nat)
    requires i < width
    ensures BigEndian(n, width)[i] as nat == Digit(n, width, i)
  {
    if i < width - 1 {
      NetworkOrder(n / 256, width - 1, i);
      DivTwice(n, Pow256(width - 2 - i));
    }
  }

  /** A 32-bit field, byte by byte. */
  lemma WordLayout(n: nat)
    requires n < TwoTo32
    ensures var b := BigEndian(n, 4);
      n == 0x100_0000 * (b[0] as nat) + 0x1_0000 * (b[1] as nat) + 0x100 * (b[2] as nat) + b[3] as nat
  {
    assert BigEndian(n, 4) == BigEndian(n / 256, 3) + [(n % 256) as byte];
    assert BigEndian(n / 256, 3) == BigEndian(n / 256 / 256, 2) + [(n / 256 % 256) as byte];
    assert BigEndian(n / 256 / 256, 2) == BigEndian(n / 256 / 256 / 256, 1) + [(n / 256 / 256 % 256) as byte];
    assert BigEndian(n / 256 / 256 / 256, 1) == BigEndian(0, 0) + [(n / 256 / 256 / 256 % 256) as byte];
  }

  // ---- Records.

  /** Header and payload; the length field is the payload length cast to 32 bits. */
  function Encode(r: Record): (s: seq<byte>)
    ensures |s| == 16 + |r.payload|
  {
    BigEndian(r.id, 4) + BigEndian(|r.payload|, 4) + BigEndian(r.timestamp, 8) + r.payload
  }

  function EncodeAll(rs: seq<Record>): seq<byte>
  {
    if rs == [] then [] else Encode(rs[0]) + EncodeAll(rs[1..])
  }

  /** Reads records until the bytes run out; `None` when they end inside a record. */
  function DecodeAll(s: seq<byte>): Option<seq<Record>>
    decreases |s|
  {
    if s == [] then Some([])
    else if |s| < 16 then None
    else
      var n := FromBigEndian(s[4..8]);
      if |s| - 16 < n then None
      else
        var rest := DecodeAll(s[16 + n..]);
        if rest.None? then None
        else Some([Record(FromBigEndian(s[..4]), FromBigEndian(s[8..16]), s[16..16 + n])] + rest.value)
  }

  /** The id and the timestamp are what their C++ types hold. */
  predicate Typed(r: Record) { r.id < TwoTo32 && r.timestamp < TwoTo64 }

  predicate Fits(r: Record) { Typed(r) && |r.payload| < TwoTo32 }

  lemma {:induction false} EncodeAllAppend(xs: seq<Record>, ys: seq<Record>)
    ensures EncodeAll(xs + ys) == EncodeAll(xs) + EncodeAll(ys)
  {
    if xs == [] {
      assert xs + ys == ys;
    } else {
      EncodeAllAppend(xs[1..], ys);
      assert (xs + ys)[0] == xs[0] && (xs + ys)[1..] == xs[1..] + ys;
      Associative(Encode(xs[0]), EncodeAll(xs[1..]), EncodeAll(ys));
    }
  }

  /** The header fields of an encoded record followed by anything. */
  lemma Fields(r: Record, tail: seq<byte>)
    ensures var s := Encode(r) + tail;
      && s[..4] == BigEndian(r.id, 4) && s[4..8] == BigEndian(|r.payload|, 4)
      && s[8..16] == BigEndian(r.timestamp, 8) && s[16..] == r.payload + tail
  {
  }

  /** The bytes of a record: id, length and timestamp, each most significant byte first, then the payload. */
  lemma RecordLayout(r: Record)
    ensures var s := Encode(r);
      && (forall i: nat :: i < 4 ==> s[..4][i] as nat == Digit(r.id, 4, i))
      && (forall i: nat :: i < 4 ==> s[4..8][i] as nat == Digit(|r.payload|, 4, i))
      && (forall i: nat :: i < 8 ==> s[8..16][i] as nat == Digit(r.timestamp, 8, i))
      && s[16..] == r.payload
  {
    var s := Encode(r);
    Fields(r, []);
    assert s + [] == s && r.payload + [] == r.payload;
    FieldLayout(r.id, 4);
    FieldLayout(|r.payload|, 4);
    FieldLayout(r.timestamp, 8);
  }

  lemma FieldLayout(n: nat, width: nat)
    ensures forall i: nat :: i < width ==> BigEndian(n, width)[i] as nat == Digit(n, width, i)
  {
    forall i: nat | i < width ensures BigEndian(n, width)[i] as nat == Digit(n, width, i) {
      NetworkOrder(n, width, i);
    }
  }

  lemma DecodeOne(r: Record, tail: seq<byte>)
    requires Fits(r)
    ensures DecodeAll(Encode(r) + tail) ==
      (if DecodeAll(tail).None? then None else Some([r] + DecodeAll(tail).value))
  {
    var s := Encode(r) + tail;
    Fields(r, tail);
    Widths();
    ReadBackExact(r.id, 4);
    ReadBackExact(|r.payload|, 4);
    ReadBackExact(r.timestamp, 8);
    var n := |r.payload|;
    assert s[16..16 + n] == s[16..][..n] == r.payload;
    assert s[16 + n..] == s[16..][n..] == tail;
  }

  /** Round trip: a log of records that fit decodes to those records. */
  lemma {:induction false} RoundTrip(rs: seq<Record>)
    requires forall i :: 0 <= i < |rs| ==> Fits(rs[i])
    ensures DecodeAll(EncodeAll(rs)) == Some(rs)
  {
    if rs != [] {
      RoundTrip(rs[1..]);
      DecodeOne(rs[0], EncodeAll(rs[1..]));
      assert [rs[0]] + rs[1..] == rs;
    }
  }

  lemma HeadIsEncoding(s: seq<byte>, r: Record, n: nat)
    requires 16 + n <= |s| && n == FromBigEndian(s[4..8])
    requires r == Record(FromBigEndian(s[..4]), FromBigEndian(s[8..16]), s[16..16 + n])
    requires BigEndian(FromBigEndian(s[..4]), 4) == s[..4] && BigEndian(n, 4) == s[4..8]
    requires BigEndian(FromBigEndian(s[8..16]), 8) == s[8..16]
    ensures Encode(r) + s[16 + n..] == s
  {
    Pieces(s, n);
  }

  lemma Pieces<T>(s: seq<T>, n: nat)
    requires 16 + n <= |s|
    ensures s[..4] + s[4..8] + s[8..16] + s[16..16 + n] + s[16 + n..] == s
  {
  }

  /** The other way round: bytes that decode are the encoding of what they decode to, so no two logs
      of records that fit have the same bytes. */
  lemma {:induction false} DecodedIsEncoding(s: seq<byte>)
    requires DecodeAll(s).Some?
    ensures EncodeAll(DecodeAll(s).value) == s
    decreases |s|
  {
    if s != [] {
      var n := FromBigEndian(s[4..8]);
      DecodedIsEncoding(s[16 + n..]);
      WriteBack(s[..4]);
      WriteBack(s[4..8]);
      WriteBack(s[8..16]);
      var r := DecodeAll(s).value[0];
      assert DecodeAll(s).value[1..] == DecodeAll(s[16 + n..]).value;
      HeadIsEncoding(s, r, n);
    }
  }

  /** One record survives the log exactly when its length survives the 32-bit cast. */
  lemma LengthCastIsExact(r: Record)
    requires Typed(r)
    ensures DecodeAll(Encode(r)) == Some([r]) <==> |r.payload| < TwoTo32
  {
    var s, none: seq<Record> := Encode(r), [];
    assert s + [] == s;
    if |r.payload| < TwoTo32 {
      DecodeOne(r, []);
      assert DecodeAll([]) == Some(none) && [r] + none == [r];
    } else {
      Fields(r, []);
      Widths();
      var _ := ReadBack(|r.payload|, 4);
      var n, d := FromBigEndian(s[4..8]), DecodeAll(s);
      assert n < TwoTo32 <= |r.payload|;
      if d.Some? {
        assert |d.value[0].payload| == n;
        assert d != Some([r]);
      }
    }
  }

  /** What an empty buffer of this capacity accepts (see `AsyncLog.Commit`). */
  predicate Acceptable(capacity: nat, r: Record) { 16 + |r.payload| <= capacity }

  /** Every record the logger may accept survives the cast exactly when the capacity is below
      2^32 + 16. */
  lemma CapacityIsExact(capacity: nat)
    ensures capacity < TwoTo32 + 16 <==>
      forall r :: Typed(r) && Acceptable(capacity, r) ==> DecodeAll(Encode(r)) == Some([r])
  {
    if capacity < TwoTo32 + 16 {
      forall r | Typed(r) && Acceptable(capacity, r) ensures DecodeAll(Encode(r)) == Some([r]) {
        LengthCastIsExact(r);
      }
    } else {
      var r := Record(0, 0, seq(TwoTo32, _ => 0));
      LengthCastIsExact(r);
      assert Typed(r) && Acceptable(capacity, r);
    }
  }
}
