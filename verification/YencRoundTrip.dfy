/** Encoding as the yEnc draft 1.3 describes it ("Encoding Principle"), dot-stuffing as in
    section 3.1.1 of RFC 3977, and what the decoder makes of the result. */
module YencRoundTrip {
  import opened Octets
  import opened Yenc

  function Plus(b: byte, k: int): byte {
    ((b as int + k) % 256) as byte
  }

  /** A byte to be encoded, and whether the encoder escapes it. */
  datatype Token = Token(b: byte, escaped: bool)

  function EncodeToken(t: Token): Bytes {
    if t.escaped then [EQ, Plus(t.b, 42 + 64)] else [Plus(t.b, 42)]
  }

  /** CR, LF and the escape character itself are escaped; what follows an escape is no CR or LF. */
  predicate Legal(t: Token) {
    if t.escaped then Plus(t.b, 42 + 64) != CR && Plus(t.b, 42 + 64) != LF
    else Plus(t.b, 42) != CR && Plus(t.b, 42) != LF && Plus(t.b, 42) != EQ
  }

  /** The draft's rule: the critical characters NUL, LF, CR and = are escaped, any other may be,
      as long as the escape sequence brings in no critical character and does not read "=y". */
  predicate LegalInDraft(t: Token) {
    var o, e := Plus(t.b, 42), Plus(t.b, 42 + 64);
    if o == 0 || o == LF || o == CR || o == EQ then t.escaped
    else t.escaped ==> e != 0 && e != LF && e != CR && e != EQ && e != 0x79
  }

  function EncodeLine(ts: seq<Token>): Bytes {
    if ts == [] then [] else EncodeToken(ts[0]) + EncodeLine(ts[1..])
  }

  function BytesOf(ts: seq<Token>): (r: Bytes)
    ensures |r| == |ts|
  {
    if ts == [] then [] else [ts[0].b] + BytesOf(ts[1..])
  }

  predicate LegalLine(ts: seq<Token>) {
    forall i :: 0 <= i < |ts| ==> Legal(ts[i])
  }

  function Stuff(line: Bytes): Bytes {
    if line != [] && line[0] == DOT then [DOT] + line else line
  }

  const EOL: Bytes := [CR, LF]

  function Transmit(lines: seq<seq<Token>>): Bytes {
    if lines == [] then [] else Stuff(EncodeLine(lines[0])) + EOL + Transmit(lines[1..])
  }

  function Payload(lines: seq<seq<Token>>): Bytes {
    if lines == [] then [] else BytesOf(lines[0]) + Payload(lines[1..])
  }

  // ----- one line -----

  lemma {:induction false} LineHasNoBreak(ts: seq<Token>)
    requires LegalLine(ts)
    ensures CR !in EncodeLine(ts) && LF !in EncodeLine(ts)
    ensures ts != [] ==> EncodeLine(ts) != []
  {
    if ts != [] {
      assert Legal(ts[0]);
      LineHasNoBreak(ts[1..]);
    }
  }

  /** Unescaping undoes the encoding of a line. */
  lemma {:induction false} UnescapeInverts(ts: seq<Token>)
    requires LegalLine(ts)
    ensures Unescape(EncodeLine(ts), false) == BytesOf(ts)
  {
    if ts != [] {
      assert Legal(ts[0]);
      UnescapeInverts(ts[1..]);
      UnescapeToken(ts[0], EncodeLine(ts[1..]));
    }
  }

  /** One token is read off the front of a line. */
  lemma UnescapeToken(t: Token, rest: Bytes)
    requires Legal(t)
    ensures Unescape(EncodeToken(t) + rest, false) == [t.b] + Unescape(rest, false)
  {
    var line := EncodeToken(t) + rest;
    if t.escaped {
      assert line == [EQ] + ([Plus(t.b, 42 + 64)] + rest);
      assert line[1..] == [Plus(t.b, 42 + 64)] + rest && line[1..][1..] == rest;
      assert Unescape(line, false) == Unescape(line[1..], true);
    } else {
      assert line == [Plus(t.b, 42)] + rest && line[1..] == rest;
    }
  }

  lemma TrimEolExact(t: Bytes)
    requires t != [] ==> t[|t| - 1] != CR && t[|t| - 1] != LF
    ensures TrimEol(t + EOL) == t
  {
    assert (t + EOL)[..|t| + 1] == t + [CR];
    assert (t + [CR])[..|t|] == t;
    assert TrimEol(t + EOL) == TrimEol(t + [CR]) == TrimEol(t);
  }

  /** A stuffed data line is taken for a control line exactly when its text starts like one,
      and never for the terminator. */
  lemma ProcessEncoded(ts: seq<Token>)
    requires LegalLine(ts)
    ensures var r := Process(Stuff(EncodeLine(ts)) + EOL, true);
      && (ts == [] ==> r == Skip)
      && (ts != [] && !IsControl(EncodeLine(ts)) ==> r == Data(BytesOf(ts)))
      && (IsControl(EncodeLine(ts)) ==> !r.Data?)
  {
    var line := EncodeLine(ts);
    var sent := Stuff(line);
    LineHasNoBreak(ts);
    assert sent != [] ==> sent[|sent| - 1] in line || sent == [DOT] + line;
    TrimEolExact(sent);
    UnescapeInverts(ts);
    if line != [] && line[0] == DOT {
      assert sent[0] == DOT && sent[1] == DOT && sent[1..] == line;
    } else if line != [] {
      assert Unstuff(sent) == line;
    }
  }

  /** Without the transport's stuffing, a data line decodes to its own bytes exactly when it is
      no control line, not a lone dot, and does not start with two dots. */
  lemma UnstuffedLine(ts: seq<Token>)
    requires LegalLine(ts) && ts != []
    ensures var line := EncodeLine(ts);
      Process(line + EOL, true) == Data(BytesOf(ts)) <==>
        !IsControl(line) && line != [DOT] && !(|line| >= 2 && line[0] == DOT && line[1] == DOT)
  {
    var line := EncodeLine(ts);
    LineHasNoBreak(ts);
    TrimEolExact(line);
    UnescapeInverts(ts);
    if |line| >= 2 && line[0] == DOT && line[1] == DOT {
      var t, rest := ts[0], EncodeLine(ts[1..]);
      assert line == EncodeToken(t) + rest;
      assert !t.escaped && line[1..] == rest;
      UnescapeInverts(ts[1..]);
      assert |BytesOf(ts[1..])| < |BytesOf(ts)|;
    }
  }

  lemma DraftLineIsLegal(ts: seq<Token>)
    requires forall i :: 0 <= i < |ts| ==> LegalInDraft(ts[i])
    ensures LegalLine(ts)
  {
    forall i | 0 <= i < |ts| ensures Legal(ts[i]) {
    }
  }

  lemma DraftTokenIsNotEqY(t: Token, rest: Bytes)
    requires LegalInDraft(t)
    ensures var line := EncodeToken(t) + rest; !(|line| >= 2 && line[0] == EQ && line[1] == 0x79)
  {
  }

  /** Under the draft's rule no data line looks like a control line. */
  lemma DraftLineIsNotControl(ts: seq<Token>)
    requires ts != [] ==> LegalInDraft(ts[0])
    ensures !IsControl(EncodeLine(ts))
  {
    if ts != [] {
      DraftTokenIsNotEqY(ts[0], EncodeLine(ts[1..]));
    }
  }

  // ----- a whole article -----

  lemma {:induction false} FirstLine(line: Bytes, rest: Bytes)
    requires LF !in line
    ensures LineEnd(line + EOL + rest) == |line| + 2
  {
    var s := line + EOL + rest;
    if line == [] {
      assert s[0] == CR && s[1..][0] == LF;
    } else {
      assert s[0] == line[0] && s[1..] == line[1..] + EOL + rest;
      FirstLine(line[1..], rest);
    }
  }

  lemma DecodeLineThen(line: Bytes, rest: Bytes, saw: bool)
    requires LF !in line
    ensures Decode(line + EOL + rest, saw) == match Process(line + EOL, saw)
      case Stop => Decoded([], rest)
      case Skip => Decode(rest, saw)
      case Begin => Decode(rest, true)
      case Data(out) => Decoded(out + Decode(rest, saw).out, Decode(rest, saw).rest)
  {
    FirstLine(line, rest);
    DecodeFirst(line + EOL + rest, saw, line + EOL, rest);
  }

  ghost predicate Clean(lines: seq<seq<Token>>) {
    forall i :: 0 <= i < |lines| ==> !IsControl(EncodeLine(lines[i]))
  }

  /** A sent line and what follows it. */
  lemma SentLineDecodes(ts: seq<Token>, behind: Bytes)
    requires LegalLine(ts)
    ensures var d := Decode(Stuff(EncodeLine(ts)) + EOL + behind, true);
      && (!IsControl(EncodeLine(ts)) ==>
            d == Decoded(BytesOf(ts) + Decode(behind, true).out, Decode(behind, true).rest))
      && (IsControl(EncodeLine(ts)) ==> |d.out| <= |Decode(behind, true).out| && ts != [])
  {
    LineHasNoBreak(ts);
    ProcessEncoded(ts);
    DecodeLineThen(Stuff(EncodeLine(ts)), behind, true);
    assert [] + Decode(behind, true).out == Decode(behind, true).out;
  }

  lemma TransmitFirst(lines: seq<seq<Token>>, rest: Bytes)
    requires lines != []
    ensures Transmit(lines) + rest == Stuff(EncodeLine(lines[0])) + EOL + (Transmit(lines[1..]) + rest)
  {
  }

  lemma PayloadFirst(lines: seq<seq<Token>>, x: Bytes)
    requires lines != []
    ensures BytesOf(lines[0]) + (Payload(lines[1..]) + x) == Payload(lines) + x
  {
  }

  /** What one more line does to a decoded rest. */
  lemma LineBefore(lines: seq<seq<Token>>, rest: Bytes)
    requires lines != [] && LegalLine(lines[0]) && !IsControl(EncodeLine(lines[0]))
    ensures var d := Decode(Transmit(lines[1..]) + rest, true);
      Decode(Transmit(lines) + rest, true) == Decoded(BytesOf(lines[0]) + d.out, d.rest)
  {
    TransmitFirst(lines, rest);
    SentLineDecodes(lines[0], Transmit(lines[1..]) + rest);
  }

  /** Lines without control words decode to their bytes, and decoding goes on behind them. */
  lemma {:induction false} CleanLinesDecode(lines: seq<seq<Token>>, rest: Bytes)
    requires (forall i :: 0 <= i < |lines| ==> LegalLine(lines[i])) && Clean(lines)
    ensures Decode(Transmit(lines) + rest, true)
         == Decoded(Payload(lines) + Decode(rest, true).out, Decode(rest, true).rest)
  {
    var d := Decode(rest, true);
    if lines == [] {
      assert Transmit(lines) + rest == rest && Payload(lines) + d.out == d.out;
    } else {
      assert LegalLine(lines[0]) && !IsControl(EncodeLine(lines[0]));
      CleanLinesDecode(lines[1..], rest);
      LineBefore(lines, rest);
      PayloadFirst(lines, d.out);
    }
  }

  /** One control-like line costs at least its own bytes. */
  lemma {:induction false} ControlLinesLose(lines: seq<seq<Token>>, rest: Bytes)
    requires forall i :: 0 <= i < |lines| ==> LegalLine(lines[i])
    requires Decode(rest, true).out == []
    ensures |Decode(Transmit(lines) + rest, true).out| <= |Payload(lines)|
    ensures !Clean(lines) ==> |Decode(Transmit(lines) + rest, true).out| < |Payload(lines)|
  {
    if lines == [] {
      assert Transmit(lines) + rest == rest;
    } else {
      TransmitFirst(lines, rest);
      assert LegalLine(lines[0]);
      SentLineDecodes(lines[0], Transmit(lines[1..]) + rest);
      ControlLinesLose(lines[1..], rest);
      assert !IsControl(EncodeLine(lines[0])) && Clean(lines[1..]) ==> Clean(lines);
    }
  }

  /** An article: a =ybegin line, for a part of a larger file a =ypart line, data lines, optionally a
      =yend line, the terminator, and whatever the server sends next. */
  datatype Article = Article(begin: Bytes, part: seq<Bytes>, lines: seq<seq<Token>>, trailer: seq<Bytes>, next: Bytes)

  const TERMINATOR: Bytes := [DOT, CR, LF]

  function Tail(a: Article): Bytes {
    (if a.trailer == [] then [] else a.trailer[0] + EOL) + TERMINATOR + a.next
  }

  function Body(a: Article): Bytes {
    Transmit(a.lines) + Tail(a)
  }

  function OnTheWire(a: Article): Bytes {
    a.begin + EOL + if a.part == [] then Body(a) else a.part[0] + EOL + Body(a)
  }

  predicate HeaderLine(word: Bytes, line: Bytes) {
    line != [] && word <= line && LF !in line && line[|line| - 1] != CR
  }

  ghost predicate Framed(a: Article) {
    && HeaderLine(YBEGIN, a.begin)
    && (a.part != [] ==> |a.part| == 1 && HeaderLine(YPART, a.part[0]))
    && (a.trailer != [] ==> |a.trailer| == 1 && HeaderLine(YEND, a.trailer[0]))
  }

  ghost predicate WellFormed(a: Article) {
    && Framed(a)
    && forall i :: 0 <= i < |a.lines| ==> LegalLine(a.lines[i])
  }

  lemma HeaderProcess(word: Bytes, line: Bytes, saw: bool)
    requires (word == YBEGIN || word == YPART || word == YEND) && HeaderLine(word, line)
    ensures Process(line + EOL, saw) == if word == YBEGIN then Begin else if word == YPART then Skip else Stop
  {
    assert line[|line| - 1] in line;
    TrimEolExact(line);
    assert line[0] == word[0] && line[2] == word[2];
  }

  /** Decoding stops behind the =yend line if there is one: the terminator is then left unread. */
  lemma TailDecodes(a: Article)
    requires WellFormed(a)
    ensures Decode(Tail(a), true) == Decoded([], if a.trailer == [] then a.next else TERMINATOR + a.next)
  {
    var behind := TERMINATOR + a.next;
    if a.trailer == [] {
      assert Tail(a) == [DOT] + EOL + a.next;
      DecodeLineThen([DOT], a.next, true);
      TrimEolExact([DOT]);
    } else {
      assert Tail(a) == a.trailer[0] + EOL + behind;
      HeaderProcess(YEND, a.trailer[0], true);
      DecodeLineThen(a.trailer[0], behind, true);
    }
  }

  lemma ArticleDecodes(a: Article)
    requires WellFormed(a)
    ensures Decode(OnTheWire(a), false) == Decode(Transmit(a.lines) + Tail(a), true)
  {
    HeaderProcess(YBEGIN, a.begin, false);
    DecodeLineThen(a.begin, if a.part == [] then Body(a) else a.part[0] + EOL + Body(a), false);
    if a.part != [] {
      HeaderProcess(YPART, a.part[0], true);
      DecodeLineThen(a.part[0], Body(a), true);
    }
  }

  /** Round trip: an article decodes to the bytes it was made from if and only if no data line
      looks like a control line. */
  lemma RoundTrip(a: Article)
    requires WellFormed(a)
    ensures Decode(OnTheWire(a), false).out == Payload(a.lines) <==> Clean(a.lines)
  {
    ArticleDecodes(a);
    TailDecodes(a);
    if Clean(a.lines) {
      CleanLinesDecode(a.lines, Tail(a));
      assert Payload(a.lines) + [] == Payload(a.lines);
    } else {
      ControlLinesLose(a.lines, Tail(a));
    }
  }

  /** Under the draft's rule the round trip always succeeds. */
  lemma DraftRoundTrip(a: Article)
    requires Framed(a)
    requires forall i, j :: 0 <= i < |a.lines| && 0 <= j < |a.lines[i]| ==> LegalInDraft(a.lines[i][j])
    ensures Decode(OnTheWire(a), false).out == Payload(a.lines)
  {
    forall i | 0 <= i < |a.lines| ensures !IsControl(EncodeLine(a.lines[i])) {
      assert a.lines[i] != [] ==> LegalInDraft(a.lines[i][0]);
      DraftLineIsNotControl(a.lines[i]);
    }
    forall i | 0 <= i < |a.lines| ensures LegalLine(a.lines[i]) {
      DraftLineIsLegal(a.lines[i]);
    }
    RoundTrip(a);
  }

  /** Draining the decoder leaves the connection at the start of the next response only for an
      article without a =yend line. Otherwise the terminator is still to be read. */
  lemma ConnectionAfterDrain(a: Article)
    requires WellFormed(a) && Clean(a.lines)
    ensures Decode(OnTheWire(a), false).rest == if a.trailer == [] then a.next else TERMINATOR + a.next
    ensures Decode(OnTheWire(a), false).rest == a.next <==> a.trailer == []
  {
    ArticleDecodes(a);
    TailDecodes(a);
    CleanLinesDecode(a.lines, Tail(a));
    assert |TERMINATOR + a.next| > |a.next|;
  }

  /** An encoder that escapes a byte without need can produce a data line "=yend " and so cut
      the article off: the rule against "=y" is needed. */
  lemma NeedlessEscapeCutsOff()
    ensures var line := [Token(15, true), Token(59, false), Token(68, false), Token(58, false), Token(246, false)];
      LegalLine(line) && EncodeLine(line) == YEND
  {
    var line := [Token(15, true), Token(59, false), Token(68, false), Token(58, false), Token(246, false)];
    assert line[1..] == [Token(59, false), Token(68, false), Token(58, false), Token(246, false)];
    assert line[1..][1..] == [Token(68, false), Token(58, false), Token(246, false)];
    assert line[1..][1..][1..] == [Token(58, false), Token(246, false)];
    assert line[1..][1..][1..][1..] == [Token(246, false)];
    assert EncodeLine(line[1..][1..][1..][1..]) == [0x20];
  }
}
