/** The reader that decrypts a cipher-block-chained stream, with its three buffers. */
module CbcReader {
  import opened Octets
  import opened Cbc
  import opened Wrappers

  datatype Err = Nil | EOF | UnexpectedEOF | Failed

  function Min(a: int, b: int): int {
    if a < b then a else b
  }

  /** An io.Reader over data. It returns as few bytes as it likes, may or may not report the end together
      with the last bytes, and fails at any time, if it may fail at all. An eager one, such as a reader
      over memory, returns all it can and never fails. */
  class Source {
    const data: Bytes
    const eager: bool
    const mayFail: bool
    var pos: nat
    ghost var failed: bool

    ghost predicate Valid()
      reads this
    {
      pos <= |data|
    }

    constructor (data: Bytes, eager: bool, mayFail: bool)
      ensures Valid() && this.data == data && this.eager == eager && this.mayFail == mayFail && pos == 0 && !failed
    {
      this.data, this.eager, this.mayFail, pos, failed := data, eager, mayFail, 0, false;
    }

    method Read(max: nat) returns (got: Bytes, err: Err)
      requires Valid() && max > 0
      modifies this
      ensures Valid() && pos == old(pos) + |got| && |got| <= max && got == data[old(pos)..pos]
      ensures err != UnexpectedEOF
      ensures err == Nil ==> got != []
      ensures err == EOF ==> pos == |data|
      ensures if err == Failed then failed && mayFail else failed == old(failed)
      ensures eager ==> err != Failed && |got| == Min(max, |data| - old(pos))
    {
      var fails, tells: bool := *, *;
      fails := fails && mayFail && !eager;
      var most := Min(max, |data| - pos);
      var k: nat :| k <= most && (k > 0 || most == 0 || fails);
      if eager {
        k := most;
      }
      got := data[pos..pos + k];
      pos := pos + k;
      failed := failed || fails;
      err := if fails then Failed else if pos == |data| && (tells || k == 0) then EOF else Nil;
    }

    /** One read into p[at..hi]; p[lo..at] has been read since position start. */
    method ReadSome(p: array<byte>, lo: nat, at: nat, hi: nat, ghost start: nat) returns (k: nat, err: Err)
      requires Valid() && lo <= at < hi <= p.Length && start <= pos && p[lo..at] == data[start..pos]
      modifies this, p
      ensures Valid() && pos == old(pos) + k && at + k <= hi
      ensures p[..lo] == old(p[..lo]) && p[lo..at + k] == data[start..pos]
      ensures err != UnexpectedEOF && (err == Nil ==> k > 0) && (err == EOF ==> pos == |data|)
      ensures err == Failed ==> failed && mayFail
      ensures eager ==> err != Failed && k == Min(hi - at, |data| - old(pos))
    {
      ghost var was, p0 := p[..at], pos;
      var got;
      got, err := Read(hi - at);
      CopyInto(p, at, got);
      k := |got|;
      MidSplit(p, lo, at, at + k);
      SliceSplit(data, start, p0, pos);
      assert p[..at] == was;
    }

    /** io.ReadAtLeast(src, p[lo..hi], min); io.ReadFull is the case min == hi - lo. */
    method ReadAtLeast(p: array<byte>, lo: nat, hi: nat, min: nat) returns (n: nat, err: Err)
      requires Valid() && 0 < min && lo + min <= hi <= p.Length
      modifies this, p
      ensures Valid() && pos == old(pos) + n && lo + n <= hi
      ensures p[..lo] == old(p[..lo]) && p[lo..lo + n] == data[old(pos)..pos]
      ensures err == Nil <==> n >= min
      ensures err == EOF ==> n == 0 && pos == |data|
      ensures err == UnexpectedEOF ==> n > 0 && pos == |data|
      ensures err == Failed ==> failed && mayFail
      ensures eager ==> err != Failed && n == Min(hi - lo, |data| - old(pos))
    {
      n, err := 0, Nil;
      while n < min && err == Nil
        invariant Valid() && pos == old(pos) + n && lo + n <= hi
        invariant p[..lo] == old(p[..lo]) && p[lo..lo + n] == data[old(pos)..pos]
        invariant err == EOF ==> pos == |data|
        invariant err != UnexpectedEOF && (err == Failed ==> failed && mayFail)
        invariant eager ==> err != Failed && (err != Nil || n > 0 ==> n == Min(hi - lo, |data| - old(pos)))
        decreases |data| - pos, if err == Nil then 1 else 0
      {
        var k;
        k, err := ReadSome(p, lo, lo + n, hi, old(pos));
        n := n + k;
      }
      if n >= min {
        err := Nil;
      } else if n > 0 && err == EOF {
        err := UnexpectedEOF;
      }
    }
  }

  lemma SliceSplit(s: Bytes, a: nat, b: nat, c: nat)
    requires a <= b <= c <= |s|
    ensures s[a..c] == s[a..b] + s[b..c]
  {
  }

  /** A stretch of an array, in two parts. */
  lemma MidSplit(p: array<byte>, lo: nat, at: nat, end: nat)
    requires lo <= at <= end <= p.Length
    ensures p[lo..end] == p[lo..at] + p[at..end]
    ensures p[..at][..lo] == p[..lo] && p[..at][lo..] == p[lo..at]
  {
  }

  lemma Suffix(p: array<byte>, l: nat)
    requires l <= p.Length
    ensures p[l..] == p[l..p.Length]
  {
  }

  /** The first n elements of an array, in two parts. */
  lemma FrontSplit(p: array<byte>, l: nat, n: nat)
    requires l <= n <= p.Length
    ensures p[..n] == p[..l] + p[l..n]
    ensures l == 0 ==> p[..n] == p[l..n]
  {
  }

  /** The whole blocks of data. */
  function Whole(data: Bytes): (w: Bytes)
    ensures |w| % 16 == 0 && w <= data
  {
    data[..|data| - |data| % 16]
  }

  class DecryptReader {
    const src: Source
    const decipher: Block -> Block
    const first: Block
    var iv: Block
    var buf: Bytes
    var outbuf: Bytes
    var block: array<byte>
    ghost var delivered: Bytes

    /** What the reader is there to deliver. */
    ghost function Plain(): (p: Bytes)
      ensures |p| == |Whole(src.data)|
    {
      Decrypt(decipher, first, Whole(src.data))
    }

    /** How much of the ciphertext has been decrypted. */
    ghost function Decrypted(): int
      reads this, src
    {
      src.pos - |buf|
    }

    /** Read bytes are either decrypted or held in buf, decrypted ones either delivered or held
        in outbuf, and never are both buffers in use. */
    ghost predicate Valid()
      reads this, src
    {
      && src.Valid() && block.Length == 16
      && |buf| < 16 && (buf == [] || outbuf == [])
      && Upto(Decrypted(), delivered + outbuf)
      && buf == src.data[Decrypted()..src.pos]
    }

    /** text is the decryption of the first k bytes, and the mode stands behind them. */
    ghost predicate Upto(k: int, text: Bytes)
      reads this
    {
      && 0 <= k <= |Plain()| && k % 16 == 0
      && text == Plain()[..k]
      && iv == LastBlock(first, src.data[..k])
    }

    constructor (src: Source, decipher: Block -> Block, iv: Block)
      requires src.Valid() && src.pos == 0
      ensures Valid() && fresh(block) && delivered == [] && buf == [] && outbuf == []
      ensures this.src == src && this.decipher == decipher && first == iv
    {
      this.src, this.decipher, this.first, this.iv := src, decipher, iv, iv;
      buf, outbuf, delivered := [], [], [];
      block := new byte[16];
    }

    lemma DeliversPrefix()
      requires Valid()
      ensures delivered <= Plain()
      ensures |src.data| - Decrypted() < 16 && outbuf == [] ==> delivered == Plain()
      ensures src.pos == |src.data| ==> |buf| == |src.data| % 16
    {
    }

    /** The next n bytes of the ciphertext, chained to those before, give the next n bytes of the
        plaintext. */
    lemma NextPlain(k: nat, n: nat)
      requires k % 16 == 0 && n % 16 == 0 && k + n <= |src.data|
      ensures k + n <= |Plain()|
      ensures Plain()[..k + n]
           == Plain()[..k] + Decrypt(decipher, LastBlock(first, src.data[..k]), src.data[k..k + n])
      ensures LastBlock(first, src.data[..k + n])
           == LastBlock(LastBlock(first, src.data[..k]), src.data[k..k + n])
    {
      var a, b := src.data[..k], src.data[k..k + n];
      assert src.data[..k + n] == a + b;
      PlainPrefix(k);
      PlainPrefix(k + n);
      DecryptSplit(decipher, first, a, b);
    }

    lemma PlainPrefix(k: nat)
      requires k % 16 == 0 && k <= |src.data|
      ensures k <= |Plain()| && Plain()[..k] == Decrypt(decipher, first, src.data[..k])
    {
      var w := Whole(src.data);
      assert w[..k] == src.data[..k] && w == w[..k] + w[k..];
      DecryptSplit(decipher, first, w[..k], w[k..]);
    }

    /** CryptBlocks(p[..n], p[..n]) of the chaining mode. */
    method CryptBlocks(p: array<byte>, n: nat)
      requires n <= p.Length && n % 16 == 0
      modifies this`iv, p
      ensures p[..n] == Decrypt(decipher, old(iv), old(p[..n]))
      ensures iv == LastBlock(old(iv), old(p[..n]))
    {
      var c := p[..n];
      var plain := Decrypt(decipher, iv, c);
      CopyInto(p, 0, plain);
      FrontSplit(p, 0, n);
      iv := LastBlock(iv, c);
    }

    /** The same on the next blocks of the stream. */
    method CryptNext(p: array<byte>, n: nat, ghost k: nat, ghost text: Bytes)
      requires n <= p.Length && n % 16 == 0 && k + n <= |src.data| && p[..n] == src.data[k..k + n]
      requires Upto(k, text)
      modifies this`iv, p
      ensures Upto(k + n, text + p[..n])
    {
      NextPlain(k, n);
      CryptBlocks(p, n);
    }

    method FromOutbuf(p: array<byte>) returns (n: nat)
      requires Valid() && outbuf != []
      modifies this`outbuf, this`delivered, p
      ensures Valid() && n <= p.Length && (p.Length > 0 ==> n > 0)
      ensures delivered == old(delivered) + p[..n]
    {
      n := if p.Length < |outbuf| then p.Length else |outbuf|;
      var chunk, rest := outbuf[..n], outbuf[n..];
      CopyInto(p, 0, chunk);
      assert p[..n] == p[0..n];
      assert delivered + (chunk + rest) == delivered + chunk + rest && outbuf == chunk + rest;
      delivered := delivered + chunk;
      outbuf := rest;
    }

    /** Complete the block that buf begins. */
    method FillBlock() returns (err: Err)
      requires Valid() && outbuf == []
      modifies this`buf, src, block
      ensures src.Valid()
      ensures err == Nil ==> buf == [] && Decrypted() == old(Decrypted()) + 16
      ensures err == Nil ==> block[..16] == src.data[old(Decrypted())..src.pos]
      ensures err == Failed ==> src.failed && src.mayFail
      ensures err != Nil ==> buf == old(buf)
      ensures err == EOF ==> src.pos == old(src.pos) == |src.data|
      ensures err == UnexpectedEOF ==>
        old(src.pos) < src.pos == |src.data| && |src.data| - old(Decrypted()) < 16
    {
      var l := |buf|;
      ghost var k, held, pos := Decrypted(), buf, src.pos;
      var got;
      got, err := src.ReadAtLeast(block, l, 16, 16 - l);
      if err == Nil {
        Suffix(block, l);
        CopyInto(block, 0, buf);
        buf := [];
        Suffix(block, l);
        FrontSplit(block, 0, l);
        FrontSplit(block, l, 16);
        assert block[..l] == held;
        SliceSplit(src.data, k, pos, k + 16);
      }
    }

    /** Decrypt one block and hand out as much of it as p takes. */
    method SmallRead(p: array<byte>) returns (n: nat, err: Err)
      requires Valid() && outbuf == [] && p.Length < 16 && p != block
      modifies this, src, p, block
      ensures block == old(block) || fresh(block)
      ensures n <= p.Length && delivered == old(delivered) + p[..n]
      ensures err == Nil ==> Valid() && n == p.Length && buf == []
      ensures err == Failed ==> src.failed && src.mayFail
      ensures err != Nil ==> n == 0 && buf == old(buf)
      ensures err == EOF ==> Valid() && src.pos == old(src.pos) == |src.data|
      ensures err == UnexpectedEOF ==>
        old(src.pos) < |src.data| && |src.data| - old(Decrypted()) < 16 && |src.data| % 16 != 0
    {
      ghost var k := Decrypted();
      assert delivered + [] == delivered;
      err := FillBlock();
      if err != Nil {
        return 0, err;
      }
      CryptNext(block, 16, k, delivered);
      n := p.Length;
      HandOut(p);
    }

    /** Copy the front of the decrypted block to p and keep the rest. */
    method HandOut(p: array<byte>)
      requires src.Valid() && block.Length == 16 && buf == [] && p.Length < 16 && p != block
      requires Upto(Decrypted(), delivered + block[..16])
      modifies this`outbuf, this`delivered, this`block, p
      ensures Valid() && fresh(block) && delivered == old(delivered) + p[..p.Length]
    {
      var n := p.Length;
      var head, tail := block[..n], block[n..];
      assert block[..16] == head + tail;
      CopyInto(p, 0, head);
      FrontSplit(p, 0, n);
      assert delivered + (head + tail) == delivered + head + tail;
      outbuf := tail;
      delivered := delivered + head;
      block := new byte[16];
    }

    method FrontBuf(p: array<byte>)
      requires |buf| <= p.Length
      modifies this`buf, p
      ensures buf == [] && p[..|old(buf)|] == old(buf)
    {
      if |buf| > 0 {
        CopyInto(p, 0, buf);
        FrontSplit(p, 0, |buf|);
        buf := [];
      }
    }

    /** Read what buf holds and as many further bytes as come, at least one block in all. */
    method FillBlocks(p: array<byte>) returns (n: nat, err: Err)
      requires Valid() && outbuf == [] && p.Length >= 16
      modifies this`buf, src, p
      ensures src.Valid()
      ensures err == Nil ==>
        && buf == [] && 16 <= n <= p.Length
        && src.pos == old(Decrypted()) + n && p[..n] == src.data[old(Decrypted())..src.pos]
      ensures err == EOF ==> src.pos == old(src.pos) == |src.data| && (old(buf) == [] ==> buf == [])
      ensures err == UnexpectedEOF ==>
        old(src.pos) < src.pos == |src.data| && |src.data| - old(Decrypted()) < 16
      ensures err == Failed ==> src.failed && src.mayFail
      ensures src.eager ==> err != Failed && (err == Nil <==> |src.data| - old(Decrypted()) >= 16)
      ensures src.eager && err == Nil ==>
        src.pos == Min(old(Decrypted()) + (p.Length - p.Length % 16), |src.data|)
    {
      ghost var k, held, pos := Decrypted(), buf, src.pos;
      var toRead := p.Length - p.Length % 16;
      var l := |buf|;
      FrontBuf(p);
      n, err := src.ReadAtLeast(p, l, toRead, 16 - l);
      if err == Nil {
        FrontSplit(p, l, l + n);
        SliceSplit(src.data, k, pos, pos + n);
        n := n + l;
      }
    }

    /** Keep the incomplete block at the end of p[..n] for the next read. */
    method KeepRemainder(p: array<byte>, n: nat, ghost k: nat) returns (m: nat)
      requires 16 <= n <= p.Length && k + n <= |src.data| && buf == [] && p[..n] == src.data[k..k + n]
      modifies this`buf
      ensures 16 <= m <= n && m % 16 == 0 && |buf| < 16
      ensures n == m + |buf| && buf == src.data[k + m..k + n] && p[..m] == src.data[k..k + m]
    {
      var remainder := n % 16;
      m := n - remainder;
      if remainder > 0 {
        buf := p[m..n];
      }
      assert p[..m] == p[..n][..m] && p[m..n] == p[..n][m..];
    }

    method FillWhole(p: array<byte>) returns (n: nat, err: Err)
      requires Valid() && outbuf == [] && p.Length >= 16
      modifies this`buf, src, p
      ensures src.Valid()
      ensures err == Nil ==>
        && 16 <= n <= p.Length && n % 16 == 0 && |buf| < 16
        && Decrypted() == old(Decrypted()) + n && p[..n] == src.data[old(Decrypted())..Decrypted()]
        && buf == src.data[Decrypted()..src.pos]
      ensures err == EOF ==> src.pos == old(src.pos) == |src.data| && (old(buf) == [] ==> buf == [])
      ensures err == UnexpectedEOF ==>
        old(src.pos) < src.pos == |src.data| && |src.data| - old(Decrypted()) < 16
      ensures err == Failed ==> src.failed && src.mayFail
      ensures src.eager ==> err != Failed && (err == Nil <==> |src.data| - old(Decrypted()) >= 16)
      ensures src.eager && err == Nil ==>
        src.pos == Min(old(Decrypted()) + (p.Length - p.Length % 16), |src.data|)
    {
      ghost var k := Decrypted();
      n, err := FillBlocks(p);
      if err == Nil {
        n := KeepRemainder(p, n, k);
      }
    }

    /** Decrypt whole blocks straight into p and keep the incomplete one. */
    method LargeRead(p: array<byte>) returns (n: nat, err: Err)
      requires Valid() && outbuf == [] && p.Length >= 16 && p != block
      modifies this, src, p
      ensures block == old(block)
      ensures n <= p.Length && delivered == old(delivered) + p[..n]
      ensures err == Nil ==> Valid() && n > 0 && n % 16 == 0
      ensures err != Nil ==> n == 0
      ensures err == EOF ==> src.pos == old(src.pos) == |src.data| && (old(buf) == [] ==> Valid())
      ensures err == UnexpectedEOF ==>
        old(src.pos) < |src.data| && |src.data| - old(Decrypted()) < 16 && |src.data| % 16 != 0
      ensures outbuf == []
      ensures err == Failed ==> src.failed && src.mayFail
      ensures src.eager ==> err != Failed && (err == Nil <==> |src.data| - old(Decrypted()) >= 16)
      ensures src.eager && err == Nil ==>
        src.pos == Min(old(Decrypted()) + (p.Length - p.Length % 16), |src.data|)
    {
      ghost var k := Decrypted();
      assert delivered + [] == delivered;
      n, err := FillWhole(p);
      if err != Nil {
        return 0, err;
      }
      CryptNext(p, n, k, delivered);
      delivered := delivered + p[..n];
      assert delivered + [] == delivered;
    }

    /** However many bytes each call asks for and each underlying read gives, what has been
        delivered is a prefix of the plaintext, and all of it at the end of the stream. The
        bytes of an incomplete last block are reported only if they had not been read before. */
    method Read(p: array<byte>) returns (n: nat, err: Err)
      requires Valid() && p != block
      modifies this, src, p, block
      ensures block == old(block) || fresh(block)
      ensures n <= p.Length && delivered == old(delivered) + p[..n]
      ensures err == Nil ==> Valid() && (p.Length > 0 ==> n > 0)
      ensures err != Nil ==> n == 0
      ensures err == EOF || err == UnexpectedEOF ==> delivered == Plain()
      ensures err == EOF ==> |old(buf)| == |src.data| % 16 && old(src.pos) == |src.data|
      ensures err == EOF && |src.data| % 16 == 0 ==> Valid()
      ensures err == UnexpectedEOF ==> |src.data| % 16 != 0 && old(src.pos) < |src.data|
      ensures err == Failed ==> delivered <= Plain() && src.failed && src.mayFail
      ensures p.Length < 16 && old(buf) == [] ==> buf == []
      ensures src.eager && p.Length >= 16 && old(outbuf) == [] ==>
        && outbuf == [] && err != Failed && (err == Nil <==> |src.data| - old(Decrypted()) >= 16)
        && (err == Nil ==> src.pos == Min(old(Decrypted()) + (p.Length - p.Length % 16), |src.data|))
    {
      DeliversPrefix();
      if outbuf != [] {
        n := FromOutbuf(p);
        return n, Nil;
      }
      if p.Length < 16 {
        n, err := SmallRead(p);
      } else {
        n, err := LargeRead(p);
      }
    }
  }

  datatype KeyError = BadKeySize | BadIVSize

  /** What NewDecrypter refuses. */
  function CheckKey(key: Bytes, iv: Bytes): Option<KeyError> {
    if |key| != 32 then Some(BadKeySize)
    else if |iv| != 16 then Some(BadIVSize)
    else None
  }

  /** NewDecryptReader, and then reads of any sizes from one up to a limit until one ends or fails. The
      stream may give any number of bytes at a time. Without a failure of the stream the result
      is the decryption of all whole blocks; an incomplete last block is always reported when
      all reads are smaller than a block. */
  method ReadAll(aes: Bytes -> (Block -> Block), key: Bytes, iv: Bytes, data: Bytes, limit: nat, mayFail: bool)
    returns (refused: Option<KeyError>, all: Bytes, err: Err)
    requires limit > 0
    ensures refused == CheckKey(key, iv)
    ensures refused.None? ==> |iv| == 16 && err != Nil && all <= Decrypt(aes(key), iv, Whole(data))
    ensures refused.None? && err == Failed ==> mayFail
    ensures refused.None? && err != Failed ==> all == Decrypt(aes(key), iv, Whole(data))
    ensures refused.None? && err == UnexpectedEOF ==> |data| % 16 != 0
    ensures refused.None? && err == EOF && limit < 16 ==> |data| % 16 == 0
  {
    refused, all, err := None, [], Nil;
    if |key| != 32 {
      return Some(BadKeySize), [], Nil;
    }
    if |iv| != 16 {
      return Some(BadIVSize), [], Nil;
    }
    var eager: bool := *;
    var d := NewReader(aes(key), iv, data, eager, mayFail);
    all, err := ReadToEnd(d, limit);
  }

  method ReadToEnd(d: DecryptReader, limit: nat) returns (all: Bytes, err: Err)
    requires d.Valid() && d.delivered == [] && d.buf == [] && limit > 0
    modifies d, d.src, d.block
    ensures err != Nil && all <= d.Plain() && (err != Failed ==> all == d.Plain())
    ensures err == Failed ==> d.src.failed && d.src.mayFail
    ensures err == UnexpectedEOF ==> |d.src.data| % 16 != 0
    ensures err == EOF && limit < 16 ==> |d.src.data| % 16 == 0
  {
    all, err := [], Nil;
    while err == Nil
      invariant d.block == old(d.block) || fresh(d.block)
      invariant all == d.delivered && all <= d.Plain()
      invariant err == Nil ==> d.Valid() && (limit < 16 ==> d.buf == [])
      invariant err == EOF || err == UnexpectedEOF ==> all == d.Plain()
      invariant err == Failed ==> d.src.failed && d.src.mayFail
      invariant err == UnexpectedEOF ==> |d.src.data| % 16 != 0
      invariant err == EOF && limit < 16 ==> |d.src.data| % 16 == 0
      decreases |d.Plain()| - |all|, if err == Nil then 1 else 0
    {
      var size: nat :| 0 < size <= limit;
      var got;
      got, err := ReadOnce(d, size);
      all := all + got;
    }
  }

  method NewReader(decipher: Block -> Block, iv: Block, data: Bytes, eager: bool, mayFail: bool)
    returns (d: DecryptReader)
    ensures fresh(d) && fresh(d.src) && fresh(d.block) && d.Valid()
    ensures d.delivered == [] && d.buf == [] && d.outbuf == [] && d.src.data == data && d.src.eager == eager
    ensures d.src.pos == 0 && d.src.mayFail == mayFail
    ensures d.Plain() == Decrypt(decipher, iv, Whole(data))
  {
    var src := new Source(data, eager, mayFail);
    d := new DecryptReader(src, decipher, iv);
  }

  method ReadOnce(d: DecryptReader, size: nat) returns (got: Bytes, err: Err)
    requires d.Valid() && size > 0
    modifies d, d.src, d.block
    ensures d.block == old(d.block) || fresh(d.block)
    ensures d.delivered == old(d.delivered) + got && d.delivered <= d.Plain()
    ensures err == Nil ==> d.Valid() && got != [] && (size < 16 && old(d.buf) == [] ==> d.buf == [])
    ensures err == EOF || err == UnexpectedEOF ==> d.delivered == d.Plain()
    ensures err == Failed ==> d.src.failed && d.src.mayFail
    ensures err == UnexpectedEOF ==> |d.src.data| % 16 != 0
    ensures err == EOF ==> |old(d.buf)| == |d.src.data| % 16
  {
    var p := new byte[size];
    var n;
    n, err := d.Read(p);
    got := p[..n];
    if err == Nil {
      d.DeliversPrefix();
    }
  }

  /** What was encrypted comes back, in reads of any sizes, when the stream does not fail. */
  method ReadBack(cipher: Block -> Block, decipher: Block -> Block, iv: Block, plain: Bytes, limit: nat, mayFail: bool)
    returns (all: Bytes, err: Err)
    requires |plain| % 16 == 0 && limit > 0
    requires forall b :: decipher(cipher(b)) == b
    ensures all <= plain && err != Nil && err != UnexpectedEOF
    ensures !mayFail ==> err == EOF && all == plain
    ensures err == EOF ==> all == plain
  {
    var data := Encrypt(cipher, iv, plain);
    RoundTrip(cipher, decipher, iv, plain);
    assert Whole(data) == data;
    var refused;
    refused, all, err := ReadAll(_ => decipher, seq(32, _ => 0), iv, data, limit, mayFail);
  }

  // ----- when an incomplete last block is reported -----

  lemma ModStep(base: nat, room: nat, rest: nat)
    requires room > 0 && base % room == 0
    ensures (base + room) % room == 0
    ensures rest < room ==> (base + rest) % room == rest
  {
    var q := base / room;
    assert base == q * room && base + room == (q + 1) * room;
    DivModUnique(base + room, room, q + 1, 0);
    if rest < room {
      DivModUnique(base + rest, room, q, rest);
    }
  }

  lemma DivModUnique(n: nat, d: nat, q: nat, r: nat)
    requires d > 0 && n == q * d + r && r < d
    ensures n % d == r
  {
    var q' := n / d;
    assert (q' - q) * d == r - n % d;
    AtLeast(q' - q, d);
    AtLeast(q - q', d);
  }

  lemma AtLeast(x: int, d: nat)
    ensures x >= 1 ==> x * d >= d && (-x) * d <= 0 - d
  {
  }

  /** Where reads of room bytes stand: before a stretch that begins at base, or after a last one that
      was short of room but not of a block. */
  predicate AtStretch(base: nat, room: nat, pos: nat, decrypted: int, total: nat) {
    || (pos == decrypted == base <= total)
    || (pos == total && total - decrypted < 16 <= total - base < room)
  }

  lemma NextStretch(base: nat, room: nat, pos: nat, decrypted: int, total: nat, pos': nat, decrypted': int)
    returns (base': nat)
    requires room >= 16 && room % 16 == 0 && base % room == 0 && AtStretch(base, room, pos, decrypted, total)
    requires total - decrypted >= 16 && pos' == Min(decrypted + room, total)
    requires decrypted % 16 == 0 && decrypted' % 16 == 0 && pos' - 16 < decrypted' <= pos'
    ensures base' % room == 0 && AtStretch(base', room, pos', decrypted', total)
  {
    ModStep(base, room, 0);
    base' := if total - base >= room then base + room else base;
  }

  lemma LastStretch(base: nat, room: nat, pos: nat, decrypted: int, total: nat)
    requires room >= 16 && base % room == 0 && AtStretch(base, room, pos, decrypted, total)
    requires total - decrypted < 16
    ensures pos < total <==> 0 < total % room < 16
    ensures pos <= total
  {
    ModStep(base, room, total - base);
  }

  /** The reader stands where reads of room bytes stand. */
  ghost predicate Stands(d: DecryptReader, base: nat, room: nat)
    requires room > 0
    reads d, d.src
  {
    && d.Valid() && d.outbuf == [] && d.src.eager && base % room == 0
    && AtStretch(base, room, d.src.pos, d.Decrypted(), |d.src.data|)
  }

  method NextRead(d: DecryptReader, size: nat, ghost room: nat, ghost base: nat)
    returns (got: Bytes, err: Err, ghost base': nat)
    requires size >= 16 && room == size - size % 16 && Stands(d, base, room)
    modifies d, d.src, d.block
    ensures d.block == old(d.block) || fresh(d.block)
    ensures d.delivered == old(d.delivered) + got && d.delivered <= d.Plain()
    ensures err == Nil ==> got != [] && Stands(d, base', room)
    ensures err != Nil ==> d.delivered == d.Plain()
    ensures err != Nil ==> err == Ending(|d.src.data|, room)
  {
    ghost var decrypted, pos, total := d.Decrypted(), d.src.pos, |d.src.data|;
    RoomIsBlocks(size);
    got, err := ReadStretch(d, size);
    base' := base;
    if err == Nil {
      base' := NextStretch(base, room, pos, decrypted, total, d.src.pos, d.Decrypted());
    } else {
      LastStretch(base, room, pos, decrypted, total);
    }
  }

  lemma RoomIsBlocks(size: nat)
    requires size >= 16
    ensures size - size % 16 >= 16 && (size - size % 16) % 16 == 0
  {
  }

  /** How reads of room bytes end. */
  function Ending(total: nat, room: nat): Err
    requires room > 0
  {
    if 0 < total % room < 16 then UnexpectedEOF else EOF
  }

  method ReadStretches(d: DecryptReader, size: nat) returns (all: Bytes, err: Err)
    requires size >= 16 && Stands(d, 0, size - size % 16) && d.delivered == []
    modifies d, d.src, d.block
    ensures all == d.Plain()
    ensures err == Ending(|d.src.data|, size - size % 16)
  {
    ghost var base: nat := 0;
    all, err := [], Nil;
    d.DeliversPrefix();
    while err == Nil
      invariant d.block == old(d.block) || fresh(d.block)
      invariant all == d.delivered <= d.Plain()
      invariant err == Nil ==> Stands(d, base, size - size % 16)
      invariant err != Nil ==> all == d.Plain()
      invariant err != Nil ==> err == Ending(|d.src.data|, size - size % 16)
      decreases |d.Plain()| - |all|, if err == Nil then 1 else 0
    {
      var got;
      got, err, base := NextRead(d, size, size - size % 16, base);
      all := all + got;
    }
  }

  /** Reads of one size, at least a block, from a stream that gives all it can: an incomplete last
      block is reported if and only if it stands alone in the last stretch that a read takes. */
  method ReadBySize(decipher: Block -> Block, iv: Block, data: Bytes, size: nat) returns (all: Bytes, err: Err)
    requires size >= 16
    ensures all == Decrypt(decipher, iv, Whole(data))
    ensures err == if 0 < |data| % (size - size % 16) < 16 then UnexpectedEOF else EOF
  {
    var d := NewReader(decipher, iv, data, true, false);
    all, err := ReadStretches(d, size);
  }

  method ReadStretch(d: DecryptReader, size: nat) returns (got: Bytes, err: Err)
    requires d.Valid() && d.outbuf == [] && d.src.eager && size >= 16
    modifies d, d.src, d.block
    ensures d.block == old(d.block) || fresh(d.block)
    ensures d.delivered == old(d.delivered) + got && d.delivered <= d.Plain()
    ensures err == Nil ==> d.Valid() && got != [] && d.outbuf == [] && |d.src.data| - old(d.Decrypted()) >= 16
    ensures old(d.Decrypted()) % 16 == 0
    ensures err == Nil ==> d.Decrypted() % 16 == 0 && d.src.pos - 16 < d.Decrypted() <= d.src.pos
    ensures err == Nil ==> d.src.pos == Min(old(d.Decrypted()) + (size - size % 16), |d.src.data|)
    ensures err != Nil ==> d.delivered == d.Plain() && |d.src.data| - old(d.Decrypted()) < 16
    ensures err != Nil ==> err == if old(d.src.pos) < |d.src.data| then UnexpectedEOF else EOF
  {
    var p := new byte[size];
    var n;
    n, err := d.Read(p);
    got := p[..n];
    if err == Nil {
      d.DeliversPrefix();
    }
  }

  /** Two reads of 32 bytes take 24 bytes of ciphertext for 16 of plaintext, and nobody learns of the
      other eight; reads of 16 bytes report them. */
  method TruncationGoesUnreported(decipher: Block -> Block, iv: Block, data: Bytes)
    returns (wide: Err, narrow: Err, all: Bytes, same: Bytes)
    requires |data| == 24
    ensures wide == EOF && narrow == UnexpectedEOF && |all| == 16 && all == same
  {
    all, wide := ReadBySize(decipher, iv, data, 32);
    same, narrow := ReadBySize(decipher, iv, data, 16);
  }
}
