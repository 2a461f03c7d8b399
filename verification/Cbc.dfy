/** Cipher block chaining over a block cipher that is given as a function. */
module Cbc {
  import opened Octets

  type Block = b: Bytes | |b| == 16 witness seq(16, _ => 0)

  function XorAll(a: Block, b: Block): Block {
    seq(16, i requires 0 <= i < 16 => Xor(a[i], b[i]))
  }

  /** The last block of c, or the vector when c is empty: what the next block is chained to. */
  function LastBlock(iv: Block, c: Bytes): Block {
    if |c| < 16 then iv else c[|c| - 16..]
  }

  function Encrypt(cipher: Block -> Block, iv: Block, p: Bytes): (c: Bytes)
    requires |p| % 16 == 0
    ensures |c| == |p|
    decreases |p|
  {
    if p == [] then []
    else
      var b := cipher(XorAll(p[..16], iv));
      b + Encrypt(cipher, b, p[16..])
  }

  function Decrypt(decipher: Block -> Block, iv: Block, c: Bytes): (p: Bytes)
    requires |c| % 16 == 0
    ensures |p| == |c|
    decreases |c|
  {
    if c == [] then [] else XorAll(decipher(c[..16]), iv) + Decrypt(decipher, c[..16], c[16..])
  }

  function BlockAt(c: Bytes, i: nat): Block
    requires 16 * i + 16 <= |c|
  {
    c[16 * i..16 * i + 16]
  }

  lemma BlockDrop(c: Bytes, i: nat)
    requires i > 0 && 16 * i + 16 <= |c|
    ensures BlockAt(c, i) == BlockAt(c[16..], i - 1)
  {
    var from := 16 * (i - 1);
    assert 16 * i == 16 + from;
    assert c[16..][from..from + 16] == c[16 + from..16 + from + 16];
  }

  /** Section 6.2 of NIST SP 800-38A, byte by byte: the plaintext is the deciphered block, combined with
      the ciphertext block before it, and in the first block with the vector. */
  lemma DecryptBytes(decipher: Block -> Block, iv: Block, c: Bytes, i: nat, j: nat)
    requires |c| % 16 == 0 && 16 * i + 16 <= |c| && j < 16
    ensures var block: Block := c[16 * i..16 * i + 16];
      Decrypt(decipher, iv, c)[16 * i + j]
      == Xor(decipher(block)[j], if i == 0 then iv[j] else c[16 * i + j - 16])
  {
    DecryptBlocks(decipher, iv, c, i);
    var p := Decrypt(decipher, iv, c);
    assert BlockAt(p, i)[j] == p[16 * i + j];
    assert i > 0 ==> BlockAt(c, i - 1)[j] == c[16 * i + j - 16];
  }

  /** The same for whole blocks. */
  lemma {:induction false} DecryptBlocks(decipher: Block -> Block, iv: Block, c: Bytes, i: nat)
    requires |c| % 16 == 0 && 16 * i + 16 <= |c|
    ensures BlockAt(Decrypt(decipher, iv, c), i)
         == XorAll(decipher(BlockAt(c, i)), if i == 0 then iv else BlockAt(c, i - 1))
    decreases i
  {
    var head: Bytes := XorAll(decipher(c[..16]), iv);
    var tail := Decrypt(decipher, c[..16], c[16..]);
    assert (head + tail)[..16] == head && (head + tail)[16..] == tail;
    assert Decrypt(decipher, iv, c) == head + tail;
    if i == 0 {
      assert BlockAt(head + tail, 0) == (head + tail)[..16] && BlockAt(c, 0) == c[..16];
    } else {
      DecryptBlocks(decipher, c[..16], c[16..], i - 1);
      BlockDrop(head + tail, i);
      BlockDrop(c, i);
      if i > 1 {
        BlockDrop(c, i - 1);
      }
    }
  }

  lemma XorAllUndone(a: Block, b: Block)
    ensures XorAll(XorAll(a, b), b) == a
  {
    forall i | 0 <= i < 16
      ensures XorAll(XorAll(a, b), b)[i] == a[i]
    {
      XorUndone(a[i], b[i]);
    }
  }

  /** Decryption undoes encryption. */
  lemma {:induction false} RoundTrip(cipher: Block -> Block, decipher: Block -> Block, iv: Block, p: Bytes)
    requires |p| % 16 == 0
    requires forall b :: decipher(cipher(b)) == b
    ensures Decrypt(decipher, iv, Encrypt(cipher, iv, p)) == p
    decreases |p|
  {
    if p != [] {
      var first: Block := p[..16];
      var b := cipher(XorAll(first, iv));
      var tail := Encrypt(cipher, b, p[16..]);
      var c: Bytes := b + tail;
      assert Encrypt(cipher, iv, p) == c;
      assert c[..16] == b && c[16..] == tail;
      XorAllUndone(first, iv);
      RoundTrip(cipher, decipher, b, p[16..]);
      assert Decrypt(decipher, iv, c) == first + p[16..];
    }
  }

  /** Decrypting in two parts, the second chained to the first, is decrypting in one. */
  lemma {:induction false} DecryptSplit(decipher: Block -> Block, iv: Block, a: Bytes, b: Bytes)
    requires |a| % 16 == 0 && |b| % 16 == 0
    ensures Decrypt(decipher, iv, a + b) == Decrypt(decipher, iv, a) + Decrypt(decipher, LastBlock(iv, a), b)
    ensures LastBlock(iv, a + b) == LastBlock(LastBlock(iv, a), b)
    decreases |a|
  {
    if a == [] {
      assert a + b == b;
    } else {
      assert (a + b)[..16] == a[..16] && (a + b)[16..] == a[16..] + b;
      DecryptSplit(decipher, a[..16], a[16..], b);
    }
  }
}
