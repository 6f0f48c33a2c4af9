/**
 Bytes, optional values and the few list operations the other modules share.
 */
module Bytes {

  type byte = x: int | 0 <= x < 256

  datatype Option<+T> = None | Some(value: T)

  type Pad = x: int | 0 <= x < 2

  /** One value per pad. */
  datatype Pair<T> = Pair(first: T, second: T) {
    function At(pad: Pad): T {
      if pad == 0 then first else second
    }

    function With(pad: Pad, value: T): Pair<T> {
      if pad == 0 then Pair(value, second) else Pair(first, value)
    }
  }

  function Min(a: int, b: int): int {
    if a <= b then a else b
  }

  function Max(a: int, b: int): int {
    if a >= b then a else b
  }

  /** The bit test `flags & flag != 0`, for `flag` a single bit. */
  predicate HasFlag(flags: byte, flag: int)
    requires flag > 0
  {
    flags / flag % 2 == 1
  }

  function Zeros(n: nat): (zs: seq<byte>)
    ensures |zs| == n
    ensures forall i :: 0 <= i < n ==> zs[i] == 0
  {
    seq(n, i => 0)
  }

  lemma Assoc<T>(a: seq<T>, b: seq<T>, c: seq<T>)
    ensures (a + b) + c == a + (b + c)
  {
  }

  /** Equal sequences with equally long tails have the same tail. */
  lemma SameTail<T>(a: seq<T>, b: seq<T>, c: seq<T>, d: seq<T>)
    requires a + b == c + d && |b| == |d|
    ensures b == d
  {
    assert b == (a + b)[|a|..];
    assert d == (c + d)[|c|..];
  }

  /** All the elements of `parts`, one part after the other. */
  function Concat<T>(parts: seq<seq<T>>): seq<T> {
    if parts == [] then [] else parts[0] + Concat(parts[1..])
  }

  lemma {:induction false} ConcatAppend<T>(a: seq<seq<T>>, b: seq<seq<T>>)
    ensures Concat(a + b) == Concat(a) + Concat(b)
  {
    if a == [] {
      assert a + b == b;
    } else {
      ConcatAppend(a[1..], b);
      assert (a + b)[0] == a[0] && (a + b)[1..] == a[1..] + b;
      Assoc(a[0], Concat(a[1..]), Concat(b));
    }
  }

  lemma ConcatSnoc<T>(a: seq<seq<T>>, x: seq<T>)
    ensures Concat(a + [x]) == Concat(a) + x
  {
    ConcatAppend(a, [x]);
    assert Concat([x]) == x;
  }

  /** Equally long parts can be cut out of their concatenation again. */
  lemma {:induction false} ConcatUniform<T>(parts: seq<seq<T>>, size: nat)
    requires forall i :: 0 <= i < |parts| ==> |parts[i]| == size
    ensures |Concat(parts)| == size * |parts|
  {
    if parts != [] {
      ConcatUniform(parts[1..], size);
      calc {
        |Concat(parts)|;
        size + size * (|parts| - 1);
        size * |parts|;
      }
    }
  }

  lemma ConcatPart<T>(parts: seq<seq<T>>, size: nat, i: nat)
    requires forall k :: 0 <= k < |parts| ==> |parts[k]| == size
    requires i < |parts|
    ensures 0 <= size * i <= size * i + size <= |Concat(parts)|
    ensures Concat(parts)[size * i..size * i + size] == parts[i]
  {
    var before, after := parts[..i], parts[i + 1..];
    assert parts == before + ([parts[i]] + after);
    ConcatAppend(before, [parts[i]] + after);
    assert ([parts[i]] + after)[1..] == after;
    ConcatUniform(before, size);
  }

  // ─── Quotients ────────────────────────────────────────────────────────────

  lemma MultiplesApart(d: nat, p: nat, q: nat)
    requires p < q
    ensures d * p + d <= d * q
  {
    assert d * q == d * (p + 1) + d * (q - p - 1);
  }

  lemma QuotientIs(n: nat, d: nat, q: nat)
    requires d > 0 && d * q <= n < d * q + d
    ensures n / d == q
  {
    var p := n / d;
    if p < q {
      MultiplesApart(d, p, q);
    } else if q < p {
      MultiplesApart(d, q, p);
    }
  }

  lemma Distributed(a: nat, d: nat, q: nat, s: nat)
    ensures a * (d * q + s) == (a * d) * q + a * s
  {
    assert a * (d * q) == (a * d) * q;
  }

  /** Dividing twice is dividing by the product. */
  lemma DividedTwice(n: nat, a: nat, d: nat)
    requires a > 0 && d > 0
    ensures a * d > 0 && n / a / d == n / (a * d)
  {
    var part, q := n / a, n / a / d;
    var s, t := part % d, n % a;
    Distributed(a, d, q, s);
    MultiplesApart(a, s, d);
    RemainderFits(n, a * d, q, a * s + t);
  }

  lemma RemainderFits(n: nat, d: nat, q: nat, rest: nat)
    requires n == d * q + rest && rest < d
    ensures n / d == q
  {
    QuotientIs(n, d, q);
  }
}
