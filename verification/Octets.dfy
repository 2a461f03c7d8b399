/** Bytes and the operations on them that the codecs use. */
module Octets {
  import opened Powers

  newtype byte = x: int | 0 <= x < 256

  type Bytes = seq<byte>

  /** Byte subtraction, wrapping around. */
  function Minus(b: byte, k: int): byte {
    ((b as int - k) % 256) as byte
  }

  /** The low k bits of a and b, combined bit by bit. */
  function Bitwise(op: (int, int) -> bool, a: nat, b: nat, k: nat): (c: nat)
    ensures c < Pow2(k)
  {
    if k == 0 then 0 else 2 * Bitwise(op, a / 2, b / 2, k - 1) + if op(a % 2, b % 2) then 1 else 0
  }

  predicate Differ(x: int, y: int) { x != y }

  predicate Either(x: int, y: int) { x == 1 || y == 1 }

  function Xor(a: byte, b: byte): byte {
    assert Pow2(8) == 256;
    Bitwise(Differ, a as nat, b as nat, 8) as byte
  }

  function Or(a: byte, b: byte): byte {
    assert Pow2(8) == 256;
    Bitwise(Either, a as nat, b as nat, 8) as byte
  }

  /** Subtraction is undone by addition, modulo 256. */
  lemma MinusMeans(b: byte, k: int)
    ensures (Minus(b, k) as int + k) % 256 == b as int
  {
    ModPlus(b as int - k, k);
  }

  lemma ModPlus(a: int, k: int)
    ensures (a % 256 + k) % 256 == (a + k) % 256
  {
    assert a == 256 * (a / 256) + a % 256;
    assert a + k == 256 * (a / 256) + (a % 256 + k);
  }

  lemma {:induction false} BitwiseAt(op: (int, int) -> bool, a: nat, b: nat, k: nat, i: nat)
    requires i < k
    ensures Bitwise(op, a, b, k) / Pow2(i) % 2 == 1 <==> op(a / Pow2(i) % 2, b / Pow2(i) % 2)
  {
    var c := Bitwise(op, a / 2, b / 2, k - 1);
    assert Bitwise(op, a, b, k) / 2 == c;
    if i > 0 {
      BitwiseAt(op, a / 2, b / 2, k - 1, i - 1);
      DivTwice(Bitwise(op, a, b, k), Pow2(i - 1));
      DivTwice(a, Pow2(i - 1));
      DivTwice(b, Pow2(i - 1));
    }
  }

  lemma DivTwice(a: nat, d: nat)
    requires d > 0
    ensures a / (2 * d) == a / 2 / d
  {
    var q, r := a / 2 / d, a / 2 % d;
    assert a / 2 == q * d + r;
    var rest := 2 * r + a % 2;
    assert a == q * (2 * d) + rest && 0 <= rest < 2 * d;
    DivUnique(a, 2 * d, q, rest);
  }

  lemma DivUnique(a: nat, d: nat, q: nat, r: nat)
    requires a == q * d + r && r < d
    ensures a / d == q
  {
    var p := a / d;
    assert a == p * d + a % d;
    Steps(p, q, d);
    Steps(q, p, d);
  }

  lemma Steps(p: nat, q: nat, d: nat)
    ensures p < q ==> p * d + d <= q * d
  {
    if p < q {
      var k: nat := q - p - 1;
      assert q * d == p * d + d + k * d;
      assert k * d >= 0;
    }
  }

  /** Bit i of the result, for each of the eight. */
  lemma XorBits(a: byte, b: byte, i: nat)
    requires i < 8
    ensures Xor(a, b) as nat / Pow2(i) % 2 == 1 <==> a as nat / Pow2(i) % 2 != b as nat / Pow2(i) % 2
    ensures Or(a, b) as nat / Pow2(i) % 2 == 1 <==> a as nat / Pow2(i) % 2 == 1 || b as nat / Pow2(i) % 2 == 1
  {
    BitwiseAt(Differ, a as nat, b as nat, 8, i);
    BitwiseAt(Either, a as nat, b as nat, 8, i);
  }

  lemma {:induction false} BitwiseUndone(a: nat, b: nat, k: nat)
    requires a < Pow2(k)
    ensures Bitwise(Differ, Bitwise(Differ, a, b, k), b, k) == a
  {
    if k > 0 {
      BitwiseUndone(a / 2, b / 2, k - 1);
    }
  }

  /** Exclusive or undoes itself. */
  lemma XorUndone(a: byte, b: byte)
    ensures Xor(Xor(a, b), b) == a
  {
    assert Pow2(8) == 256;
    BitwiseUndone(a as nat, b as nat, 8);
  }

  lemma {:induction false} BitsEqual(a: nat, b: nat, k: nat)
    requires a < Pow2(k) && b < Pow2(k)
    ensures Bitwise(Differ, a, b, k) == 0 <==> a == b
  {
    if k > 0 {
      BitsEqual(a / 2, b / 2, k - 1);
    }
  }

  lemma {:induction false} BitsZero(a: nat, b: nat, k: nat)
    requires a < Pow2(k) && b < Pow2(k)
    ensures Bitwise(Either, a, b, k) == 0 <==> a == 0 && b == 0
  {
    if k > 0 {
      BitsZero(a / 2, b / 2, k - 1);
    }
  }

  lemma XorZero(a: byte, b: byte)
    ensures Xor(a, b) == 0 <==> a == b
  {
    assert Pow2(8) == 256;
    BitsEqual(a as nat, b as nat, 8);
  }

  lemma OrZero(a: byte, b: byte)
    ensures Or(a, b) == 0 <==> a == 0 && b == 0
  {
    assert Pow2(8) == 256;
    BitsZero(a as nat, b as nat, 8);
  }

  /** Go's copy, to the part of p that starts at n. */
  method CopyInto(p: array<byte>, n: nat, chunk: Bytes)
    requires n + |chunk| <= p.Length
    modifies p
    ensures p[n..n + |chunk|] == chunk
    ensures p[..n] == old(p[..n]) && p[n + |chunk|..] == old(p[n + |chunk|..])
  {
    for i := 0 to |chunk|
      invariant p[..n] == old(p[..n]) && p[n..n + i] == chunk[..i]
      invariant p[n + i..] == old(p[n + i..])
    {
      p[n + i] := chunk[i];
    }
  }
}
