/** Byte streams and the concatenation of messages, shared by every other module. */
module Streams {

  newtype byte = x: int | 0 <= x < 256

  /** All messages of `ms`, one after the other. */
  function Flatten<U>(ms: seq<seq<U>>): (r: seq<U>)
  {
    if ms == [] then [] else ms[0] + Flatten(ms[1..])
  }

  lemma Associative<U>(a: seq<U>, b: seq<U>, c: seq<U>)
    ensures a + (b + c) == a + b + c
  {
  }

  lemma {:induction false} FlattenAppend<U>(xs: seq<seq<U>>, ys: seq<seq<U>>)
    ensures Flatten(xs + ys) == Flatten(xs) + Flatten(ys)
  {
    if xs == [] {
      assert xs + ys == ys;
    } else {
      FlattenAppend(xs[1..], ys);
      assert (xs + ys)[0] == xs[0] && (xs + ys)[1..] == xs[1..] + ys;
      Associative(xs[0], Flatten(xs[1..]), Flatten(ys));
    }
  }

  lemma FlattenOne<U>(m: seq<U>)
    ensures Flatten([m]) == m
  {
    assert Flatten([m]) == m + Flatten([m][1..]);
  }

  /** Cutting the list of messages cuts the stream. */
  lemma FlattenSplit<U>(ms: seq<seq<U>>, k: nat)
    requires k <= |ms|
    ensures Flatten(ms) == Flatten(ms[..k]) + Flatten(ms[k..])
  {
    FlattenAppend(ms[..k], ms[k..]);
    assert ms[..k] + ms[k..] == ms;
  }

  /** Fewer messages give a prefix of the stream. */
  lemma FlattenPrefix<U>(xs: seq<seq<U>>, ys: seq<seq<U>>)
    requires xs <= ys
    ensures Flatten(xs) <= Flatten(ys)
  {
    FlattenSplit(ys, |xs|);
    assert ys[..|xs|] == xs;
  }

  /** Two prefixes of one sequence are comparable. */
  lemma PrefixesCompare<T>(a: seq<T>, b: seq<T>, s: seq<T>)
    requires a <= s && b <= s && |a| <= |b|
    ensures a <= b
  {
    assert a == s[..|a|] && b == s[..|b|];
    assert b[..|a|] == a;
  }

  function Max(a: int, b: int): int { if a < b then b else a }

  function Min(a: int, b: int): int { if a < b then a else b }
}
