/** The pure-Go yEnc decoder: a stream of article lines, some of them control lines, turned
    into decoded bytes that are handed out in reads of any size. */
module Yenc {
  import opened Octets

  const LF: byte := 0x0A
  const CR: byte := 0x0D
  const DOT: byte := 0x2E
  const EQ: byte := 0x3D

  // The control words, in ASCII.
  const YBEGIN: Bytes := [0x3D, 0x79, 0x62, 0x65, 0x67, 0x69, 0x6E, 0x20]
  const YPART: Bytes := [0x3D, 0x79, 0x70, 0x61, 0x72, 0x74, 0x20]
  const YEND: Bytes := [0x3D, 0x79, 0x65, 0x6E, 0x64, 0x20]

  // ----- one line -----

  function TrimEol(line: Bytes): (t: Bytes)
    ensures t <= line
  {
    if line != [] && (line[|line| - 1] == CR || line[|line| - 1] == LF) then TrimEol(line[..|line| - 1]) else line
  }

  /** Take off the dot that the transport put in front of a leading dot. */
  function Unstuff(t: Bytes): Bytes {
    if |t| >= 2 && t[0] == DOT && t[1] == DOT then t[1..] else t
  }

  function Unescape(t: Bytes, escaped: bool): Bytes {
    if t == [] then []
    else if escaped then [Minus(t[0], 64 + 42)] + Unescape(t[1..], false)
    else if t[0] == EQ then Unescape(t[1..], true)
    else [Minus(t[0], 42)] + Unescape(t[1..], false)
  }

  lemma AppendOne(a: Bytes, b: byte, c: Bytes)
    ensures a + ([b] + c) == a + [b] + c
  {
  }

  /** A byte that is no escape character decodes to what is 42 below it, modulo 256, and the byte behind
      an escape character to what is 106 below it. */
  lemma BytesDecode(b: byte, rest: Bytes)
    ensures b != 0x3D ==> Unescape([b] + rest, false) == [((b as int + 214) % 256) as byte] + Unescape(rest, false)
    ensures Unescape([0x3D, b] + rest, false) == [((b as int + 150) % 256) as byte] + Unescape(rest, false)
  {
    assert ([b] + rest)[1..] == rest && ([0x3D, b] + rest)[1..] == [b] + rest;
  }

  /** The words in plain letters. */
  lemma WordsSpelled(i: nat)
    ensures i < |YBEGIN| ==> i < 8 && YBEGIN[i] as int == "=ybegin "[i] as int
    ensures i < |YPART| ==> i < 7 && YPART[i] as int == "=ypart "[i] as int
    ensures i < |YEND| ==> i < 6 && YEND[i] as int == "=yend "[i] as int
    ensures |YBEGIN| == 8 && |YPART| == 7 && |YEND| == 6
  {
  }

  predicate IsControl(t: Bytes) { YBEGIN <= t || YPART <= t || YEND <= t }

  datatype Line = Skip | Begin | Stop | Data(out: Bytes)

  /** What processLine makes of a line; saw says whether a =ybegin line has gone by. */
  function Process(line: Bytes, saw: bool): Line {
    var t := TrimEol(line);
    if t == [] then Skip
    else if t == [DOT] then Stop
    else
      var u := Unstuff(t);
      if YBEGIN <= u then Begin
      else if YPART <= u then Skip
      else if YEND <= u then Stop
      else if !saw then Skip
      else Data(Unescape(u, false))
  }

  /** Until a =ybegin line has gone by, no line yields data. */
  lemma NothingBeforeBegin(line: Bytes)
    ensures !Process(line, false).Data?
    ensures Process(line, false).Begin? <==> Process(line, true).Begin?
  {
  }

  // ----- the whole stream -----

  /** Length of the first line of s, its line feed included. */
  function LineEnd(s: Bytes): (n: nat)
    ensures n <= |s| && (s != [] ==> n > 0)
  {
    if s == [] then 0 else if s[0] == LF then 1 else 1 + LineEnd(s[1..])
  }

  /** The decoded bytes of a stream, and what is left of it when decoding stops. */
  datatype Decoded = Decoded(out: Bytes, rest: Bytes)

  function Decode(s: Bytes, saw: bool): (d: Decoded)
    ensures |d.rest| <= |s|
    decreases |s|
  {
    if s == [] then Decoded([], [])
    else
      var line, rest := s[..LineEnd(s)], s[LineEnd(s)..];
      match Process(line, saw)
      case Stop => Decoded([], rest)
      case Skip => Decode(rest, saw)
      case Begin => Decode(rest, true)
      case Data(out) => var d := Decode(rest, saw); Decoded(out + d.out, d.rest)
  }

  lemma DecodeFirst(s: Bytes, saw: bool, line: Bytes, rest: Bytes)
    requires s != [] && s == line + rest && |line| == LineEnd(s)
    ensures Decode(s, saw) == match Process(line, saw)
      case Stop => Decoded([], rest)
      case Skip => Decode(rest, saw)
      case Begin => Decode(rest, true)
      case Data(out) => Decoded(out + Decode(rest, saw).out, Decode(rest, saw).rest)
  {
    assert s[..LineEnd(s)] == line && s[LineEnd(s)..] == rest;
  }

  // ----- the reader -----

  datatype Err = Nil | EOF | Failed

  /** The buffered connection below the decoder. Where it may fail, a read of a line may do so after any
      number of bytes. */
  class Source {
    const data: Bytes
    const mayFail: bool
    var pos: nat
    ghost var failed: bool

    ghost predicate Valid()
      reads this
    {
      pos <= |data|
    }

    ghost function Rest(): Bytes
      requires Valid()
      reads this
    {
      data[pos..]
    }

    constructor (data: Bytes, mayFail: bool)
      ensures Valid() && this.data == data && this.mayFail == mayFail && Rest() == data && !failed
    {
      this.data, this.mayFail := data, mayFail;
      pos, failed := 0, false;
    }

    /** ReadBytes('\n'): the line with its line feed, or what is left with EOF. */
    method ReadLine() returns (line: Bytes, err: Err)
      requires Valid()
      modifies this
      ensures Valid()
      ensures if err == Failed then failed && mayFail else failed == old(failed)
      ensures err != Failed ==>
        && old(Rest()) == line + Rest() && |line| == LineEnd(old(Rest()))
        && (err == EOF ==> Rest() == [])
        && (err == Nil ==> line != [])
    {
      var fails: bool := *;
      if mayFail && fails {
        failed := true;
        var k: nat :| pos <= k <= |data|;
        line, err, pos := data[pos..k], Failed, k;
        return;
      }
      line, err := NextLine();
    }

    method NextLine() returns (line: Bytes, err: Err)
      requires Valid()
      modifies this`pos
      ensures Valid() && err != Failed
      ensures old(Rest()) == line + Rest() && |line| == LineEnd(old(Rest()))
      ensures if err == EOF then Rest() == [] else line != []
    {
      ghost var rest := data[pos..];
      var n := 0;
      while pos + n < |data| && data[pos + n] != LF
        invariant pos + n <= |data|
        invariant LineEnd(rest) == n + LineEnd(rest[n..])
      {
        assert rest[n..][0] == data[pos + n] && rest[n..][1..] == rest[n + 1..];
        n := n + 1;
      }
      if pos + n < |data| {
        assert rest[n..][0] == LF;
        line, err := data[pos..pos + n + 1], Nil;
      } else {
        assert rest[n..] == [];
        line, err := data[pos..], EOF;
      }
      pos := pos + |line|;
    }
  }

  class Decoder {
    const src: Source
    var out: Bytes
    var outPos: nat
    var sawBegin: bool
    var done: bool
    ghost var delivered: Bytes
    ghost const whole: Decoded

    ghost predicate Valid()
      reads this, src
    {
      && src.Valid() && outPos <= |out|
      && (out != [] ==> outPos < |out|)
      && whole == Decoded(delivered + (out[outPos..] + Ahead().out), Ahead().rest)
    }

    /** What the rest of the stream will decode to. */
    ghost function Ahead(): Decoded
      requires src.Valid()
      reads `done, `sawBegin, src
    {
      if done then Decoded([], src.Rest()) else Decode(src.Rest(), sawBegin)
    }

    /** Only what decoding the whole stream gives is delivered, and a finished decoder has
        delivered all of it. */
    lemma DeliversPrefix()
      requires Valid()
      ensures delivered <= whole.out
      ensures done && out == [] ==> whole == Decoded(delivered, src.Rest())
    {
      if done && out == [] {
        assert delivered + ([] + []) == delivered;
      }
    }

    constructor (src: Source)
      requires src.Valid() && src.pos == 0
      ensures Valid() && this.src == src && delivered == [] && whole == Decode(src.data, false)
    {
      this.src, this.whole := src, Decode(src.data, false);
      out, outPos, sawBegin, done, delivered := [], 0, false, false, [];
    }

    /** processLine: sets out for a data line, sawBegin for a header line. */
    method ProcessLine(raw: Bytes) returns (stop: bool)
      requires out == []
      modifies this`out, this`sawBegin
      ensures stop <==> Process(raw, old(sawBegin)).Stop?
      ensures sawBegin == (old(sawBegin) || Process(raw, old(sawBegin)).Begin?)
      ensures out == match Process(raw, old(sawBegin)) case Data(o) => o case _ => []
    {
      var line := TrimEol(raw);
      if |line| == 0 {
        return false;
      }
      if line[0] == DOT {
        if |line| == 1 {
          return true;
        }
        if line[1] == DOT {
          line := line[1..];
        }
      }
      if YBEGIN <= line {
        sawBegin := true;
        return false;
      }
      if YPART <= line {
        return false;
      }
      if YEND <= line {
        return true;
      }
      if !sawBegin {
        return false;
      }
      out := DecodeData(line);
      stop := false;
    }

    static method DecodeData(line: Bytes) returns (o: Bytes)
      ensures o == Unescape(line, false)
    {
      o := [];
      var escaped := false;
      for i := 0 to |line|
        invariant o + Unescape(line[i..], escaped) == Unescape(line, false)
      {
        var b := line[i];
        var later := line[i + 1..];
        assert line[i..] == [b] + later;
        if escaped {
          AppendOne(o, Minus(b, 64 + 42), Unescape(later, false));
          o := o + [Minus(b, 64 + 42)];
          escaped := false;
        } else if b == EQ {
          escaped := true;
        } else {
          AppendOne(o, Minus(b, 42), Unescape(later, false));
          o := o + [Minus(b, 42)];
        }
      }
    }

    /** One turn of fill's loop: Nil with bytes in out, Nil without (go on), EOF or Failed. */
    method Turn() returns (err: Err)
      requires Valid() && out == [] && outPos == 0 && !done
      modifies this`out, this`sawBegin, src
      ensures src.Valid()
      ensures err == Failed ==> src.failed && src.mayFail
      ensures err == Nil ==> Valid() && (out == [] ==> |src.Rest()| < |old(src.Rest())|)
      ensures err == EOF ==> out == [] && whole == Decoded(delivered, src.Rest())
      ensures err == Failed ==> out == []
    {
      ghost var before, saw := src.Rest(), sawBegin;
      var line;
      line, err := src.ReadLine();
      if err == Failed {
        return;
      }
      if |line| > 0 {
        DecodeFirst(before, saw, line, src.Rest());
        assert [] + Decode(before, saw).out == Decode(before, saw).out;
        var stop := ProcessLine(line);
        if |out| > 0 {
          return Nil;
        }
        if stop {
          return EOF;
        }
      }
    }

    /** fill: read lines until one yields bytes. EOF means that nothing more will come. */
    method Fill() returns (err: Err)
      requires Valid() && out == [] && !done
      modifies this`out, this`outPos, this`sawBegin, src
      ensures src.Valid() && outPos == 0 && delivered == old(delivered) && !done
      ensures err == Failed ==> src.failed && src.mayFail
      ensures err == Nil ==> Valid() && out != []
      ensures err == EOF ==> out == [] && whole == Decoded(delivered, src.Rest())
      ensures err == Failed ==> out == []
    {
      out, outPos := [], 0;
      while true
        invariant Valid() && out == [] && outPos == 0
        decreases |src.Rest()|
      {
        err := Turn();
        if err != Nil || out != [] {
          return;
        }
      }
    }

    /** Read fills p unless the stream ends; every byte is delivered once and in order. It fails only when
        the connection does. */
    method Read(p: array<byte>) returns (n: nat, err: Err)
      requires Valid()
      modifies this, src, p
      ensures n <= p.Length && delivered == old(delivered) + p[..n] && p[n..] == old(p[n..])
      ensures err == Failed ==> src.failed && src.mayFail
      ensures err != Failed ==> Valid()
      ensures err == Nil && n < p.Length ==> n > 0 && done && out == []
      ensures err == EOF ==> n == 0 && done && out == [] && p.Length > 0
      ensures err == Failed ==> delivered <= whole.out
    {
      n := 0;
      if p.Length == 0 {
        return n, Nil;
      }
      while n < p.Length
        invariant Valid() && n <= p.Length
        invariant delivered == old(delivered) + p[..n] && p[n..] == old(p[n..])
        decreases p.Length - n, if out == [] then 1 else 0
      {
        if outPos < |out| {
          n := CopyMore(p, n, old(delivered));
          continue;
        }
        err := More();
        if err == EOF {
          return n, if n > 0 then Nil else EOF;
        }
        if err == Failed {
          return n, Failed;
        }
      }
      err := Nil;
    }

    method CopyMore(p: array<byte>, n: nat, ghost before: Bytes) returns (n': nat)
      requires Valid() && n < p.Length && outPos < |out| && delivered == before + p[..n]
      modifies this`out, this`outPos, this`delivered, p
      ensures Valid() && n < n' <= p.Length && done == old(done)
      ensures delivered == before + p[..n'] && p[n'..] == old(p[n'..])
    {
      ghost var was := p[..n];
      n' := CopyOut(p, n);
      Appended(before, was, p[n..n'], p[..n']);
    }

    /** The part of Read's loop that runs when the buffer is empty. */
    method More() returns (err: Err)
      requires Valid() && out == []
      modifies this, src
      ensures delivered == old(delivered)
      ensures err == Failed ==> src.failed && src.mayFail
      ensures err != Failed ==> Valid()
      ensures err == Nil ==> out != [] && !old(done)
      ensures err == EOF ==> done && out == []
      ensures err == Failed ==> !old(done)
      ensures err == Failed ==> delivered <= whole.out
    {
      if done {
        return EOF;
      }
      assert delivered <= whole.out;
      err := Fill();
      if err == EOF {
        done := true;
        assert delivered + (out[outPos..] + []) == delivered;
      }
    }

    /** copy(p[n:], d.out[d.outPos:]) and the reset of an emptied buffer. */
    method CopyOut(p: array<byte>, n: nat) returns (n': nat)
      requires Valid() && n < p.Length && outPos < |out|
      modifies this`out, this`outPos, this`delivered, p
      ensures Valid() && n < n' <= p.Length && done == old(done)
      ensures delivered == old(delivered) + p[n..n']
      ensures p[..n] == old(p[..n]) && p[n'..] == old(p[n'..])
    {
      var room, left := p.Length - n, |out| - outPos;
      var copied := if room < left then room else left;
      n' := n + copied;
      CopyInto(p, n, out[outPos..outPos + copied]);
      Advance(copied);
    }

    /** Take the copied bytes off the buffer. */
    method Advance(copied: nat)
      requires Valid() && outPos + copied <= |out| && copied > 0
      modifies this`out, this`outPos, this`delivered
      ensures Valid() && delivered == old(delivered) + old(out[outPos..outPos + copied])
    {
      ghost var ahead, was, held, pos := Ahead(), delivered, out, outPos;
      ghost var chunk := held[pos..pos + copied];
      MoveAcross(was, held, pos, copied, ahead.out);
      delivered := was + chunk;
      outPos := outPos + copied;
      if outPos == |out| {
        assert held[pos + copied..] == [];
        outPos, out := 0, [];
      }
      assert out[outPos..] == held[pos + copied..] && Ahead() == ahead;
    }
  }

  lemma MoveAcross(a: Bytes, buf: Bytes, pos: nat, k: nat, b: Bytes)
    requires pos + k <= |buf|
    ensures a + (buf[pos..] + b) == a + buf[pos..pos + k] + (buf[pos + k..] + b)
  {
    assert buf[pos..] == buf[pos..pos + k] + buf[pos + k..];
  }

  function Total(sizes: seq<nat>, k: nat): nat
    requires k <= |sizes|
  {
    if k == 0 then 0 else Total(sizes, k - 1) + sizes[k - 1]
  }

  lemma Appended(before: Bytes, a: Bytes, b: Bytes, c: Bytes)
    requires c[..] == a + b
    ensures (before + a) + b == before + c
  {
  }

  /** What the first sizes come to. */
  lemma TotalCounts(sizes: seq<nat>, k: nat)
    requires k < |sizes|
    ensures Total(sizes, 0) == 0 && Total(sizes, k + 1) == Total(sizes, k) + sizes[k]
  {
  }

  lemma {:induction false} TotalMono(sizes: seq<nat>, j: nat, k: nat)
    requires j <= k <= |sizes|
    ensures Total(sizes, j) <= Total(sizes, k)
  {
    if j < k {
      TotalMono(sizes, j, k - 1);
    }
  }

  /** Reads of any sizes, one after the other, until the sizes run out or an error: together
      they yield a prefix of the decoding of the whole stream. As long as the connection does not fail
      that is as many bytes as were asked for, or all there are. */
  method ReadAll(data: Bytes, sizes: seq<nat>, mayFail: bool) returns (all: Bytes, err: Err)
    ensures all <= Decode(data, false).out && |all| <= Total(sizes, |sizes|)
    ensures err == Failed ==> mayFail
    ensures err == Nil ==> |all| == Total(sizes, |sizes|) || all == Decode(data, false).out
    ensures err == EOF ==> all == Decode(data, false).out
  {
    var src := new Source(data, mayFail);
    var d := new Decoder(src);
    all, err := ReadFrom(d, sizes);
  }

  method ReadFrom(d: Decoder, sizes: seq<nat>) returns (all: Bytes, err: Err)
    requires d.Valid() && d.delivered == []
    modifies d, d.src
    ensures all <= d.whole.out && |all| <= Total(sizes, |sizes|)
    ensures err == Failed ==> d.src.failed && d.src.mayFail
    ensures err == Nil ==> |all| == Total(sizes, |sizes|) || all == d.whole.out
    ensures err == EOF ==> all == d.whole.out
  {
    all := [];
    for i := 0 to |sizes|
      invariant d.Valid() && all == d.delivered
      invariant all <= d.whole.out && |all| <= Total(sizes, i)
      invariant |all| == Total(sizes, i) || all == d.whole.out
    {
      var got;
      got, err := ReadOnce(d, sizes[i]);
      all := all + got;
      TotalMono(sizes, i + 1, |sizes|);
      if err != Nil {
        return;
      }
    }
    err := Nil;
  }

  method ReadOnce(d: Decoder, size: nat) returns (got: Bytes, err: Err)
    requires d.Valid()
    modifies d, d.src
    ensures d.delivered == old(d.delivered) + got && d.delivered <= d.whole.out && |got| <= size
    ensures err == Failed ==> d.src.failed && d.src.mayFail
    ensures err != Failed ==> d.Valid()
    ensures err == Nil ==> |got| == size || d.delivered == d.whole.out
    ensures err == EOF ==> d.delivered == d.whole.out
  {
    var p := new byte[size];
    var n;
    n, err := d.Read(p);
    got := p[..n];
    if err != Failed {
      d.DeliversPrefix();
    }
  }

  /** A connection that does not fail gives exactly the first bytes of the decoding, as many as are asked
      for, or all there are, and the end is reported only behind the last. */
  method ReadSteady(data: Bytes, sizes: seq<nat>) returns (all: Bytes, err: Err)
    ensures err != Failed
    ensures var whole, asked := Decode(data, false).out, Total(sizes, |sizes|);
      && all == whole[..if asked < |whole| then asked else |whole|]
      && (err == EOF ==> asked >= |whole|)
  {
    all, err := ReadAll(data, sizes, false);
  }
}
