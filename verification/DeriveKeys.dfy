/** The RAR 5 key derivation: three PBKDF2 outputs from one pass, and the password check. The
    keyed hash and the checksum hash are given as functions. */
module DeriveKeys {
  import opened Octets
  import opened Powers

  const MAX_SALT := 64
  const PW_CHECK_SIZE := 8
  const MAX_INT := 0x7FFF_FFFF_FFFF_FFFF

  type Digest = b: Bytes | |b| == 32 witness seq(32, _ => 0)

  function XorDigests(a: Digest, b: Digest): Digest {
    seq(32, i requires 0 <= i < 32 => Xor(a[i], b[i]))
  }

  /** U_i of section 5.2 of RFC 8018, for the first block. */
  function U(prf: Bytes -> Digest, salt: Bytes, i: nat): Digest
    requires i > 0
  {
    if i == 1 then prf(salt + [0, 0, 0, 1]) else prf(U(prf, salt, i - 1))
  }

  /** F of section 5.2 of RFC 8018: U_1 to U_c, combined. */
  function F(prf: Bytes -> Digest, salt: Bytes, c: nat): Digest
    requires c > 0
  {
    if c == 1 then U(prf, salt, 1) else XorDigests(F(prf, salt, c - 1), U(prf, salt, c))
  }

  /** PBKDF2 of section 5.2 of RFC 8018 with a key length of one digest. */
  function Pbkdf2(hmac: (Bytes, Bytes) -> Digest, password: Bytes, salt: Bytes, c: nat): Digest
    requires c > 0
  {
    F(text => hmac(password, text), salt, c)
  }

  /** Section 5.2 of RFC 8018 in a chain us of keyed hashes, each of the one before it and the first of the
      salt and a one: every byte of the result is that byte of all of them, combined. */
  lemma {:induction false} Pbkdf2Means(hmac: (Bytes, Bytes) -> Digest, password: Bytes, salt: Bytes, us: seq<Digest>,
                                       j: nat)
    requires us != [] && us[0] == hmac(password, salt + [0, 0, 0, 1]) && j < 32
    requires forall i :: 0 < i < |us| ==> us[i] == hmac(password, us[i - 1])
    ensures Pbkdf2(hmac, password, salt, |us|)[j] == Combined(us, j)
    ensures us[|us| - 1] == U(text => hmac(password, text), salt, |us|)
    decreases |us|
  {
    if |us| > 1 {
      var before := us[..|us| - 1];
      assert forall i :: 0 <= i < |before| ==> before[i] == us[i];
      Pbkdf2Means(hmac, password, salt, before, j);
      assert us[|us| - 1] == hmac(password, before[|before| - 1]);
    }
  }

  function Combined(us: seq<Digest>, j: nat): byte
    requires us != [] && j < 32
  {
    if |us| == 1 then us[0][j] else Xor(Combined(us[..|us| - 1], j), us[|us| - 1][j])
  }

  lemma CombinedMeans(u: Digest, v: Digest, us: seq<Digest>, j: nat)
    requires us != [] && j < 32
    ensures Combined([u], j) == u[j] && Combined([u, v], j) == Xor(u[j], v[j])
    ensures Combined(us + [v], j) == Xor(Combined(us, j), v[j])
  {
    assert (us + [v])[..|us|] == us && [u, v][..1] == [u];
  }

  /** 1 << uint(k) in a 64-bit signed integer: uint of a negative k is large, so that the bit
      is shifted out, and the shift by 63 gives the negative minimum. */
  function ShiftedOne(k: int): int {
    if 0 <= k < 63 then Pow2(k) else if k == 63 then -MAX_INT - 1 else 0
  }

  /** Decrementing wraps around. */
  function Predecessor(n: int): int {
    if n == -MAX_INT - 1 then MAX_INT else n - 1
  }

  /** The iterations of the first key: those that the loops make and the initial one. */
  function Iterations(kdfCount: int): (c: nat)
    ensures c > 0
  {
    if 0 <= kdfCount <= 63 then Pow2(kdfCount) else 1
  }

  /** One turn of the inner loop: u is replaced by its keyed hash and t takes it in. */
  method Iterate(prf: Bytes -> Digest, t: array<byte>, u: array<byte>)
    requires t.Length == 32 && u.Length == 32 && t != u
    modifies t, u
    ensures u[..] == prf(old(u[..]))
    ensures t[..] == XorDigests(old(t[..]), u[..])
  {
    ghost var before := t[..];
    CopyInto(u, 0, prf(u[..]));
    assert u[..] == u[0..32];
    for j := 0 to 32
      invariant u[..] == prf(old(u[..]))
      invariant forall i :: 0 <= i < j ==> t[i] == Xor(before[i], u[i])
      invariant forall i :: j <= i < 32 ==> t[i] == before[i]
    {
      t[j] := Xor(t[j], u[j]);
    }
  }

  /** How often a loop runs that counts down from iter to zero. */
  function Turns(iter: int): nat {
    if iter > 0 then iter else 0
  }

  /** The loop for one key: it takes t and u from c iterations to c plus its own turns. */
  method Extend(prf: Bytes -> Digest, salt: Bytes, t: array<byte>, u: array<byte>, iter: int, ghost c: nat)
    returns (key: Digest)
    requires t.Length == 32 && u.Length == 32 && t != u && c > 0
    requires t[..] == F(prf, salt, c) && u[..] == U(prf, salt, c)
    modifies t, u
    ensures key == t[..] == F(prf, salt, c + Turns(iter)) && u[..] == U(prf, salt, c + Turns(iter))
  {
    var left := iter;
    ghost var at := c;
    while left > 0
      invariant at > 0 && at + Turns(left) == c + Turns(iter)
      invariant t[..] == F(prf, salt, at) && u[..] == U(prf, salt, at)
    {
      Iterate(prf, t, u);
      left, at := left - 1, at + 1;
    }
    key := t[..];
  }

  lemma EightMore(k: nat)
    ensures Pow2(k + 8) == 0x100 * Pow2(k)
  {
    assert Pow2(k + 4) == 0x10 * Pow2(k) by {
      assert Pow2(k + 2) == 4 * Pow2(k);
    }
    assert Pow2(k + 6) == 4 * Pow2(k + 4);
  }

  lemma LargestShift()
    ensures Pow2(63) == MAX_INT + 1
  {
    assert Pow2(7) == 0x80;
    EightMore(7);
    EightMore(15);
    EightMore(23);
    EightMore(31);
    EightMore(39);
    EightMore(47);
    EightMore(55);
  }

  /** The count that the code arrives at by shifting and decrementing. */
  lemma CountOfIterations(kdfCount: int)
    ensures 1 + Turns(Predecessor(ShiftedOne(kdfCount))) == Iterations(kdfCount)
  {
    LargestShift();
    if 0 <= kdfCount < 63 {
      assert Pow2(kdfCount) > 0;
    }
  }

  datatype Keys = Keys(key: Digest, checkKey: Digest, pwCheck: Bytes)

  /** Byte j of the folded check value. */
  function Folded(k: Digest, j: nat): byte
    requires j < 8
  {
    Xor(Xor(Xor(k[j], k[j + 8]), k[j + 16]), k[j + 24])
  }

  /** The part of the fold that bytes 8 to 8 + n bring in. */
  function PartlyFolded(k: Digest, j: nat, n: nat): byte
    requires j < 8 && n <= 24
  {
    if n == 0 then k[j]
    else if (n - 1) % 8 == j then Xor(PartlyFolded(k, j, n - 1), k[8 + n - 1])
    else PartlyFolded(k, j, n - 1)
  }

  lemma FoldIsFour(k: Digest, j: nat)
    requires j < 8
    ensures PartlyFolded(k, j, 24) == Folded(k, j)
  {
    Steady(k, j, j, 0);
    Steady(k, j, 8 + j, j + 1);
    Steady(k, j, 16 + j, 8 + j + 1);
    Steady(k, j, 24, 16 + j + 1);
  }

  lemma {:induction false} Steady(k: Digest, j: nat, n: nat, m: nat)
    requires j < 8 && m <= n <= 24
    requires forall i :: m <= i < n ==> i % 8 != j
    ensures PartlyFolded(k, j, n) == PartlyFolded(k, j, m)
  {
    if m < n {
      assert (n - 1) % 8 != j;
      Steady(k, j, n - 1, m);
    }
  }

  /** The in-place fold of the check value. */
  method Fold(k: Digest) returns (check: Bytes)
    ensures |check| == 8 && forall j :: 0 <= j < 8 ==> check[j] == Folded(k, j)
  {
    var a := new byte[32](i requires 0 <= i < 32 => k[i]);
    for n := 0 to 24
      invariant forall i :: 8 <= i < 32 ==> a[i] == k[i]
      invariant forall j :: 0 <= j < 8 ==> a[j] == PartlyFolded(k, j, n)
    {
      a[n % 8] := Xor(a[n % 8], a[8 + n]);
    }
    check := a[..PW_CHECK_SIZE];
    forall j | 0 <= j < 8
      ensures check[j] == Folded(k, j)
    {
      FoldIsFour(k, j);
    }
  }

  /** One pass gives what three runs of PBKDF2 with c, c + 16 and c + 32 iterations give; c is
      two to the count for counts from 0 to 63, and 1 for all others. */
  method DeriveKeys(hmac: (Bytes, Bytes) -> Digest, sha256: Bytes -> Digest,
                    password: Bytes, fullSalt: Bytes, kdfCount: int)
    returns (keys: Keys)
    ensures var c, salt := if 0 <= kdfCount <= 63 then Pow2(kdfCount) else 1,
                           if |fullSalt| > 64 then fullSalt[..64] else fullSalt;
      && keys.key == Pbkdf2(hmac, password, salt, c)
      && keys.checkKey == Pbkdf2(hmac, password, salt, c + 16)
      && |keys.pwCheck| == 12
      && (forall j :: 0 <= j < 8 ==>
            var k := Pbkdf2(hmac, password, salt, c + 32);
            keys.pwCheck[j] == Xor(Xor(Xor(k[j], k[j + 8]), k[j + 16]), k[j + 24]))
      && keys.pwCheck[8..] == sha256(keys.pwCheck[..8])[..4]
  {
    var salt := fullSalt;
    if |salt| > MAX_SALT {
      salt := salt[..MAX_SALT];
    }
    var iterations := ShiftedOne(kdfCount);
    CountOfIterations(kdfCount);
    iterations := Predecessor(iterations);
    var key, checkKey, last := ThreeKeys(text => hmac(password, text), salt, iterations);
    var check := CheckValue(sha256, last);
    keys := Keys(key, checkKey, check);
  }

  /** The folded value and four bytes of its checksum. */
  method CheckValue(sha256: Bytes -> Digest, last: Digest) returns (check: Bytes)
    ensures |check| == 12 && forall j :: 0 <= j < 8 ==> check[j] == Folded(last, j)
    ensures check[8..] == sha256(check[..8])[..4]
  {
    var folded := Fold(last);
    var sum := sha256(folded);
    check := folded + sum[..4];
    assert check[..8] == folded && check[8..] == sum[..4];
  }

  method Clone(d: Digest) returns (a: array<byte>)
    ensures fresh(a) && a.Length == 32 && a[..] == d
  {
    a := new byte[32];
    CopyInto(a, 0, d);
    assert a[..] == a[0..32];
  }

  /** The state of the pass after the first keyed hash. */
  method Start(prf: Bytes -> Digest, salt: Bytes) returns (t: array<byte>, u: array<byte>, ghost c: nat)
    ensures fresh(t) && fresh(u) && t != u && t.Length == u.Length == 32 && c == 1
    ensures t[..] == F(prf, salt, c) && u[..] == U(prf, salt, c)
  {
    var first := prf(salt + [0, 0, 0, 1]);
    t := Clone(first);
    u := Clone(first);
    c := 1;
  }

  /** The shared pass: the state that the first loop leaves is where the second one starts. */
  method ThreeKeys(prf: Bytes -> Digest, salt: Bytes, iterations: int)
    returns (key: Digest, checkKey: Digest, last: Digest)
    ensures var c := 1 + Turns(iterations);
      key == F(prf, salt, c) && checkKey == F(prf, salt, c + 16) && last == F(prf, salt, c + 32)
  {
    var t, u, c := Start(prf, salt);
    key := Extend(prf, salt, t, u, iterations, c);
    c := c + Turns(iterations);
    checkKey := Extend(prf, salt, t, u, 16, c);
    last := Extend(prf, salt, t, u, 16, c + 16);
  }

  /** The comparison that does not stop early: true exactly for equal values. */
  method VerifyPassword(keys: Keys, expected: Bytes) returns (ok: bool)
    ensures ok <==> expected == keys.pwCheck
  {
    if |expected| != |keys.pwCheck| {
      return false;
    }
    var diff: byte := 0;
    for i := 0 to |expected|
      invariant diff == 0 <==> expected[..i] == keys.pwCheck[..i]
    {
      XorZero(expected[i], keys.pwCheck[i]);
      OrZero(diff, Xor(expected[i], keys.pwCheck[i]));
      diff := Or(diff, Xor(expected[i], keys.pwCheck[i]));
      assert expected[..i + 1] == expected[..i] + [expected[i]];
      assert keys.pwCheck[..i + 1] == keys.pwCheck[..i] + [keys.pwCheck[i]];
    }
    return diff == 0;
  }
}
