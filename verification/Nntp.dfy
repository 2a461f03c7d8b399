/** Providers, NNTP error kinds, and the exclusions a lookup collects on its way. */
module Nntp {
  import opened Wrappers

  datatype Provider = Provider(host: string, backbone: string, maxConnections: int)

  datatype ErrorType =
    | Unknown | Connection | Authentication | Timeout | ArticleNotFound | GroupNotFound
    | PermissionDenied | ServerBusy | InvalidCommand | Protocol | YencDecode | NoAvailableConnection

  /** An error as the callers tell it apart: an NNTP error, a recovered panic, or anything else
      (a cancelled context, an exhausted provider list). */
  datatype Error = Nntp(kind: ErrorType) | Panic | Plain

  function Classify(code: int): ErrorType {
    if code == 430 || code == 423 then ArticleNotFound
    else if code == 411 then GroupNotFound
    else if code == 502 then PermissionDenied
    else if code == 503 then ServerBusy
    else if code == 481 || code == 482 then Authentication
    else if code == 400 then ServerBusy
    else if code == 500 || code == 501 then InvalidCommand
    else if code >= 400 then Protocol
    else Unknown
  }

  /** What each reply code of interest is taken for. */
  lemma CodesMean(code: int)
    ensures Classify(code) == ArticleNotFound <==> code in {423, 430}
    ensures Classify(code) == ServerBusy <==> code in {400, 503}
    ensures Classify(code) == Authentication <==> code in {481, 482}
    ensures Classify(code) == PermissionDenied <==> code == 502
    ensures Classify(code) == GroupNotFound <==> code == 411
    ensures Classify(code) == InvalidCommand <==> code in {500, 501}
    ensures Classify(code) == Unknown <==> code < 400
    ensures Classify(code) !in {Connection, Timeout, YencDecode, NoAvailableConnection}
  {
  }

  predicate Retriable(e: Error) {
    e.Nntp? && (e.kind.Connection? || e.kind.Timeout? || e.kind.ServerBusy?)
  }

  predicate IsNotFound(e: Error) { e == Nntp(ArticleNotFound) }

  // ----- backbones -----

  predicate IsSpace(c: char) { c == ' ' || '\t' <= c <= '\r' }

  function Lower(c: char): char {
    if 'A' <= c <= 'Z' then c - 'A' + 'a' else c
  }

  function TrimLeft(s: string): string {
    if s != [] && IsSpace(s[0]) then TrimLeft(s[1..]) else s
  }

  function TrimRight(s: string): string {
    if s != [] && IsSpace(s[|s| - 1]) then TrimRight(s[..|s| - 1]) else s
  }

  function NormalizeBackbone(s: string): string {
    var t := TrimRight(TrimLeft(s));
    seq(|t|, i requires 0 <= i < |t| => Lower(t[i]))
  }

  function Upper(c: char): char {
    if 'a' <= c <= 'z' then c - 'a' + 'A' else c
  }

  function Uppercase(s: string): string { seq(|s|, i requires 0 <= i < |s| => Upper(s[i])) }

  lemma TrimUpper(s: string)
    ensures TrimLeft(Uppercase(s)) == Uppercase(TrimLeft(s)) && TrimRight(Uppercase(s)) == Uppercase(TrimRight(s))
  {
    if s != [] {
      assert Uppercase(s)[1..] == Uppercase(s[1..]) && Uppercase(s)[..|s| - 1] == Uppercase(s[..|s| - 1]);
      TrimUpper(s[1..]);
      TrimUpper(s[..|s| - 1]);
    }
  }

  /** Case does not matter in the name of a backbone. */
  lemma CaseDoesNotMatter(s: string)
    ensures NormalizeBackbone(Uppercase(s)) == NormalizeBackbone(s)
  {
    TrimUpper(s);
    TrimUpper(TrimLeft(s));
  }

  lemma TrimLeftMeans(s: string)
    ensures TrimLeft(s) == [] || !IsSpace(TrimLeft(s)[0])
    ensures s == [] || !IsSpace(s[0]) ==> TrimLeft(s) == s
  {
  }

  lemma {:induction false} TrimRightMeans(s: string)
    ensures TrimRight(s) <= s
    ensures TrimRight(s) == [] || !IsSpace(TrimRight(s)[|TrimRight(s)| - 1])
    ensures s == [] || !IsSpace(s[|s| - 1]) ==> TrimRight(s) == s
  {
    if s != [] && IsSpace(s[|s| - 1]) {
      TrimRightMeans(s[..|s| - 1]);
    }
  }

  lemma {:induction false} TrimLeftKeepsEnd(s: string, c: char)
    requires IsSpace(c)
    ensures TrimRight(TrimLeft(s + [c])) == TrimRight(TrimLeft(s))
  {
    if s == [] {
      assert s + [c] == [c] && [c][1..] == [];
    } else if IsSpace(s[0]) {
      assert (s + [c])[1..] == s[1..] + [c];
      TrimLeftKeepsEnd(s[1..], c);
    } else {
      assert (s + [c])[..|s|] == s;
    }
  }

  /** Nor do spaces before and behind it. */
  lemma SpacesDoNotMatter(s: string, c: char)
    requires c in {' ', '\t', '\n', '\r'}
    ensures NormalizeBackbone([c] + s) == NormalizeBackbone(s) == NormalizeBackbone(s + [c])
  {
    assert ([c] + s)[1..] == s;
    TrimLeftKeepsEnd(s, c);
  }

  /** Nothing else is lost: a name without capitals and without spaces around it stays as it is. */
  lemma NormalStays(s: string)
    requires s != [] ==> !IsSpace(s[0]) && !IsSpace(s[|s| - 1])
    requires forall i :: 0 <= i < |s| ==> !('A' <= s[i] <= 'Z')
    ensures NormalizeBackbone(s) == s
  {
    TrimLeftMeans(s);
    TrimRightMeans(s);
  }

  // ----- exclusions -----

  datatype Exclusions = Exclusions(hosts: set<string>, backbones: set<string>) {
    predicate Excludes(p: Provider) {
      p.host in hosts || (NormalizeBackbone(p.backbone) != "" && NormalizeBackbone(p.backbone) in backbones)
    }

    function ExcludeHost(host: string): Exclusions {
      if host == "" then this else this.(hosts := hosts + {host})
    }

    /** After a not-found reply: the whole backbone when it has a name, else the host. */
    function ExcludeForNotFound(p: Provider): Exclusions {
      var b := NormalizeBackbone(p.backbone);
      if b != "" then this.(backbones := backbones + {b}) else ExcludeHost(p.host)
    }
  }

  const NoExclusions := Exclusions({}, {})

  /** Ruling out a host rules out exactly the providers on it, besides those ruled out before. */
  lemma HostExcludesExactly(x: Exclusions, host: string, q: Provider)
    ensures x.ExcludeHost(host).Excludes(q) <==> x.Excludes(q) || (host != "" && q.host == host)
    ensures !NoExclusions.Excludes(q)
  {
  }

  /** A not-found reply from p rules out exactly the providers on p's backbone, or those that
      share p's host when p names no backbone, in addition to those ruled out before. */
  lemma NotFoundExcludesExactly(x: Exclusions, p: Provider, q: Provider)
    ensures x.ExcludeForNotFound(p).Excludes(q) <==>
      (x.Excludes(q)
       || (NormalizeBackbone(p.backbone) != "" && NormalizeBackbone(q.backbone) == NormalizeBackbone(p.backbone))
       || (NormalizeBackbone(p.backbone) == "" && p.host != "" && q.host == p.host))
  {
    var y := x.ExcludeForNotFound(p);
    assert NormalizeBackbone(p.backbone) != "" ==> y.backbones == x.backbones + {NormalizeBackbone(p.backbone)};
    assert NormalizeBackbone(p.backbone) == "" && p.host != "" ==> y.hosts == x.hosts + {p.host};
  }
}
