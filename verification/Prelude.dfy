/** Shared vocabulary: optional values, fallible results, bytes and a few sequence facts. */
module Prelude {

  datatype Option<+T> = None | Some(value: T)

  datatype Result<+T, +E> = Ok(value: T) | Err(error: E) {
    predicate IsFailure() { Err? }
    function PropagateFailure<U>(): Result<U, E>
      requires Err?
    {
      Err(error)
    }
    function Extract(): T
      requires Ok?
    {
      value
    }
  }

  type Byte = b: int | 0 <= b < 256
  type Bytes = seq<Byte>

  function Min(a: int, b: int): (r: int)
    ensures r <= a && r <= b && (r == a || r == b)
  {
    if a <= b then a else b
  }

  function Max(a: int, b: int): (r: int)
    ensures a <= r && b <= r && (r == a || r == b)
  {
    if a <= b then b else a
  }

  function Concat<T>(parts: seq<seq<T>>): seq<T> {
    if parts == [] then [] else parts[0] + Concat(parts[1..])
  }

  lemma {:induction false} ConcatAppend<T>(parts: seq<seq<T>>, last: seq<T>)
    ensures Concat(parts + [last]) == Concat(parts) + last
  {
    if parts == [] {
      assert parts + [last] == [last];
      assert Concat([last]) == last + Concat([]);
    } else {
      assert (parts + [last])[1..] == parts[1..] + [last];
      ConcatAppend(parts[1..], last);
    }
  }

  lemma {:induction false} ConcatSplit<T>(a: seq<seq<T>>, b: seq<seq<T>>)
    ensures Concat(a + b) == Concat(a) + Concat(b)
  {
    if a == [] {
      assert a + b == b;
    } else {
      assert (a + b)[1..] == a[1..] + b;
      ConcatSplit(a[1..], b);
    }
  }

  /** 2 to the power k. */
  function Pow2(k: nat): (p: nat)
    ensures p >= 1
  {
    if k == 0 then 1 else 2 * Pow2(k - 1)
  }

  lemma {:induction false} Pow2Add(a: nat, b: nat)
    ensures Pow2(a + b) == Pow2(a) * Pow2(b)
  {
    if b > 0 {
      Pow2Add(a, b - 1);
      assert Pow2(a + b) == 2 * Pow2(a + b - 1);
    }
  }

  /** n shifted right, as the source's `>>`. */
  function ShiftRight(n: nat, bits: nat): nat {
    if bits == 0 then n else ShiftRight(n / 2, bits - 1)
  }

  /** A right shift is a division that rounds down. */
  lemma {:induction false} ShiftRounds(n: nat, bits: nat)
    ensures ShiftRight(n, bits) * Pow2(bits) <= n < (ShiftRight(n, bits) + 1) * Pow2(bits)
  {
    if bits > 0 {
      ShiftRounds(n / 2, bits - 1);
      var q, p := ShiftRight(n, bits), Pow2(bits - 1);
      Doubled(q, p);
      Doubled(q + 1, p);
    }
  }

  lemma Doubled(q: nat, p: nat)
    ensures q * (2 * p) == 2 * (q * p)
  {
  }

  /** The number of significant bits of n: 64 minus the leading zeros of a 64-bit n. */
  function BitLen(n: nat): nat {
    if n == 0 then 0 else 1 + BitLen(n / 2)
  }

  lemma {:induction false} BitLenBounds(n: nat)
    ensures n < Pow2(BitLen(n))
    ensures n > 0 ==> Pow2(BitLen(n) - 1) <= n
  {
    if n > 0 { BitLenBounds(n / 2); }
  }

  lemma {:induction false} BitLenMonotone(a: nat, b: nat)
    requires a <= b
    ensures BitLen(a) <= BitLen(b)
  {
    if a > 0 { BitLenMonotone(a / 2, b / 2); }
  }

  /** The n low-order bytes of v, most significant first. */
  function BigEndian(v: nat, n: nat): (b: Bytes)
    ensures |b| == n
  {
    if n == 0 then [] else BigEndian(v / 256, n - 1) + [v % 256]
  }

  function FromBigEndian(b: Bytes): nat {
    if b == [] then 0 else 256 * FromBigEndian(b[..|b| - 1]) + b[|b| - 1]
  }

  function Pow256(n: nat): (p: nat)
    ensures p >= 1
  {
    if n == 0 then 1 else 256 * Pow256(n - 1)
  }

  lemma {:induction false} BigEndianRoundTrip(v: nat, n: nat)
    requires v < Pow256(n)
    ensures FromBigEndian(BigEndian(v, n)) == v
  {
    if n > 0 {
      BigEndianRoundTrip(v / 256, n - 1);
      assert BigEndian(v, n)[..n - 1] == BigEndian(v / 256, n - 1);
    }
  }
}
