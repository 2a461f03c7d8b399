/** What becomes of a call, told from the script alone: when it moves on to another provider, when it
    gives up, and which error it reports. */
module FailoverOutcomes {
  import opened Wrappers
  import opened Nntp
  import opened Failover
  import opened FailoverLaws

  // ----- moving on -----

  /** Positions of the providers that are ruled out. */
  function RuledOut(ps: seq<Provider>, x: Exclusions): set<nat> {
    set i: nat | i < |ps| && x.Excludes(ps[i])
  }

  function Below(n: nat): (s: set<nat>)
    ensures |s| == n && forall i: nat :: i in s <==> i < n
  {
    if n == 0 then {} else Below(n - 1) + {n - 1}
  }

  lemma SomeLeft(ps: seq<Provider>, x: Exclusions, g: nat)
    requires g < |ps| && !x.Excludes(ps[g])
    ensures |RuledOut(ps, x)| < |ps|
  {
    Smaller(RuledOut(ps, x), Below(|ps|) - {g});
  }

  lemma {:induction false} Smaller(a: set<nat>, b: set<nat>)
    requires a <= b
    ensures |a| <= |b|
  {
    if i :| i in a {
      Smaller(a - {i}, b - {i});
    }
  }

  lemma {:induction false} SomeReady(ps: seq<Provider>, x: Exclusions, a: Acquire, g: nat, i: nat)
    requires i <= g < |ps| && !x.Excludes(ps[g]) && a.free(g) && a.dials(g)
    ensures FirstReady(ps, x, a, i).Some?
    decreases g - i
  {
    if i < g {
      SomeReady(ps, x, a, g, i + 1);
    }
  }

  /** A round whose renewals all succeed ends well or with the failure of an execution. */
  lemma {:induction false} TryEnds(ps: seq<Provider>, home: Provider, current: Provider, r: Round, j: nat, limit: nat,
                                   ran: seq<Ran>, g: nat)
    requires j < limit && g < |ps|
    requires forall i: nat :: var a := r.attempts(i);
      && !a.ctxDone && !a.sleepCut && a.fallback.free(g) && a.fallback.dials(g)
    ensures var t := TryOn(ps, home, current, r, j, limit, ran);
      && |ran| < |t.ran| && ran <= t.ran
      && t.ran[|ran|] == Ran(current, r.attempts(j).result)
      && (r.attempts(j).result.None? ==> t.error.None?)
      && (t.error.Some? ==> exists i: nat :: r.attempts(i).result == t.error)
      && t.error == t.ran[|t.ran| - 1].result
    decreases limit - j
  {
    var a := r.attempts(j);
    assert NoExclusions.Excludes(ps[g]) == false;
    SomeReady(ps, NoExclusions, a.fallback, g, 0);
    if a.result.Some? && Retriable(a.result.value) && j + 1 < limit {
      var got := Acquired(ps, NoExclusions, a.fallback).value;
      TryEnds(ps, home, Next(home, got, a.swap), r, j + 1, limit, ran + [Ran(current, a.result)], g);
    }
  }

  predicate OtherBackbone(p: Provider, q: Provider) {
    NormalizeBackbone(p.backbone) == "" || NormalizeBackbone(p.backbone) != NormalizeBackbone(q.backbone)
  }

  /** No two providers share a host, and none but g is on the backbone of g. */
  ghost predicate StandsAlone(ps: seq<Provider>, g: nat)
    requires g < |ps|
  {
    && (forall i :: 0 <= i < |ps| ==> ps[i].host != "")
    && (forall i, j :: 0 <= i < j < |ps| ==> ps[i].host != ps[j].host)
    && (forall i :: 0 <= i < |ps| && i != g ==> OtherBackbone(ps[i], ps[g]))
  }

  lemma ChargeRulesOut(ps: seq<Provider>, x: Exclusions, g: nat, h: nat, e: Error)
    requires g < |ps| && h < |ps| && h != g && StandsAlone(ps, g) && !x.Excludes(ps[g]) && !x.Excludes(ps[h])
    requires e in {Nntp(Connection), Nntp(Timeout), Nntp(ServerBusy), Nntp(ArticleNotFound), Panic}
    ensures Charge(x, ps[h], e).Some?
    ensures var x' := Charge(x, ps[h], e).value; !x'.Excludes(ps[g]) && |RuledOut(ps, x')| > |RuledOut(ps, x)|
  {
    var x' := Charge(x, ps[h], e).value;
    assert x'.Excludes(ps[h]) && !x'.Excludes(ps[g]);
    assert RuledOut(ps, x) + {h} <= RuledOut(ps, x');
    Smaller(RuledOut(ps, x) + {h}, RuledOut(ps, x'));
  }

  ghost predicate AlwaysServes(runs: seq<Ran>, p: Provider) {
    forall q :: q in runs && q.p == p ==> q.result.None?
  }

  /** The context lasts, provider g is always ready, and nothing worse happens than failures after which
      the call may go on. */
  ghost predicate Steady(ps: seq<Provider>, s: Script, g: nat) {
    forall i: nat :: SteadyRound(s(i), g)
  }

  ghost predicate SteadyRound(r: Round, g: nat) {
    && !r.ctxDone && r.acquire.free(g) && r.acquire.dials(g)
    && forall j: nat :: var a := r.attempts(j);
      && !a.ctxDone && !a.sleepCut && a.fallback.free(g) && a.fallback.dials(g)
      && (a.result.Some? ==>
            a.result.value in {Nntp(Connection), Nntp(Timeout), Nntp(ServerBusy), Nntp(ArticleNotFound), Panic})
  }

  /** What a round has run stays in the record of the call. */
  lemma RanStays(ps: seq<Provider>, s: Script, limit: nat, k: nat, x: Exclusions, last: Option<Error>, ran: seq<Ran>,
                 t: Tried, home: Provider)
    requires limit > 0 && k < |ps| && !s(k).ctxDone && Acquired(ps, x, s(k).acquire) == Some(home)
    requires t == TryOn(ps, home, home, s(k), 0, limit, ran)
    ensures t.ran <= Rounds(ps, s, limit, k, x, last, ran).ran
    ensures forall q :: q in t.ran ==> q in Rounds(ps, s, limit, k, x, last, ran).ran
  {
    if t.error.Some? && Charge(x, home, t.error.value).Some? {
      RoundsExtends(ps, s, limit, k + 1, Charge(x, home, t.error.value).value, t.error, t.ran);
    }
  }

  lemma SteadyTry(ps: seq<Provider>, r: Round, limit: nat, g: nat, home: Provider, ran: seq<Ran>)
    requires limit > 0 && g < |ps| && SteadyRound(r, g)
    ensures var t := TryOn(ps, home, home, r, 0, limit, ran);
      && t.error.Some? ==>
        && t.error.value in {Nntp(Connection), Nntp(Timeout), Nntp(ServerBusy), Nntp(ArticleNotFound), Panic}
        && exists q :: q in t.ran && q.p == home && q.result.Some?
  {
    TryEnds(ps, home, home, r, 0, limit, ran, g);
    var t := TryOn(ps, home, home, r, 0, limit, ran);
    if t.error.Some? {
      var i: nat :| r.attempts(i).result == t.error;
      assert t.ran[|ran|] in t.ran;
    }
  }

  /** A round ends the call well, or the call goes on with one more provider ruled out, though not g. */
  lemma RoundMovesOn(ps: seq<Provider>, s: Script, limit: nat, g: nat, k: nat, x: Exclusions, last: Option<Error>,
                     ran: seq<Ran>)
    returns (x': Exclusions, t: Tried)
    requires limit > 0 && g < |ps| && StandsAlone(ps, g) && SteadyRound(s(k), g) && k < |ps| && !x.Excludes(ps[g])
    requires AlwaysServes(Rounds(ps, s, limit, k, x, last, ran).ran, ps[g])
    ensures var o := Rounds(ps, s, limit, k, x, last, ran);
      o.error.None?
      || (o == Rounds(ps, s, limit, k + 1, x', t.error, t.ran)
          && !x'.Excludes(ps[g]) && |RuledOut(ps, x')| > |RuledOut(ps, x)|)
  {
    SomeReady(ps, x, s(k).acquire, g, 0);
    var h := FirstReady(ps, x, s(k).acquire, 0).value;
    t, x' := TryOn(ps, ps[h], ps[h], s(k), 0, limit, ran), x;
    if t.error.Some? {
      SteadyTry(ps, s(k), limit, g, ps[h], ran);
      RanStays(ps, s, limit, k, x, last, ran, t, ps[h]);
      assert h != g;
      ChargeRulesOut(ps, x, g, h, t.error.value);
      x' := Charge(x, ps[h], t.error.value).value;
    }
  }

  lemma {:induction false} RoundsMoveOn(ps: seq<Provider>, s: Script, limit: nat, g: nat, k: nat, x: Exclusions,
                                        last: Option<Error>, ran: seq<Ran>)
    requires limit > 0 && g < |ps| && StandsAlone(ps, g) && Steady(ps, s, g)
    requires k <= |ps| && !x.Excludes(ps[g]) && k <= |RuledOut(ps, x)|
    ensures var o := Rounds(ps, s, limit, k, x, last, ran); AlwaysServes(o.ran, ps[g]) ==> o.error.None?
    decreases |ps| - k
  {
    SomeLeft(ps, x, g);
    assert SteadyRound(s(k), g);
    if AlwaysServes(Rounds(ps, s, limit, k, x, last, ran).ran, ps[g]) {
      var x', t := RoundMovesOn(ps, s, limit, g, k, x, last, ran);
      RoundsMoveOnIf(ps, s, limit, g, k, x, last, ran, x', t);
    }
  }

  lemma {:induction false} RoundsMoveOnIf(ps: seq<Provider>, s: Script, limit: nat, g: nat, k: nat, x: Exclusions,
                                          last: Option<Error>, ran: seq<Ran>, x': Exclusions, t: Tried)
    requires limit > 0 && g < |ps| && StandsAlone(ps, g) && Steady(ps, s, g)
    requires k < |ps| && !x.Excludes(ps[g]) && k <= |RuledOut(ps, x)|
    requires var o := Rounds(ps, s, limit, k, x, last, ran);
      o.error.None?
      || (o == Rounds(ps, s, limit, k + 1, x', t.error, t.ran)
          && !x'.Excludes(ps[g]) && |RuledOut(ps, x')| > |RuledOut(ps, x)|)
    ensures var o := Rounds(ps, s, limit, k, x, last, ran); AlwaysServes(o.ran, ps[g]) ==> o.error.None?
    decreases |ps| - k, 0
  {
    var o := Rounds(ps, s, limit, k, x, last, ran);
    if o.error.Some? {
      RoundsMoveOn(ps, s, limit, g, k + 1, x', t.error, t.ran);
    }
  }

  /** The call moves on: whatever transient failures, panics and not-found replies come from the other
      providers, it succeeds when some provider is always free, always dials and always serves, and is
      alone on its host and backbone, while the context lasts. */
  lemma MovesOn(ps: seq<Provider>, s: Script, limit: nat, g: nat)
    requires limit > 0 && g < |ps|
    requires forall i :: 0 <= i < |ps| ==> ps[i].host != ""
    requires forall i, j :: 0 <= i < j < |ps| ==> ps[i].host != ps[j].host
    requires forall i :: 0 <= i < |ps| && i != g ==>
      NormalizeBackbone(ps[i].backbone) == "" || NormalizeBackbone(ps[i].backbone) != NormalizeBackbone(ps[g].backbone)
    requires forall i: nat :: !s(i).ctxDone && s(i).acquire.free(g) && s(i).acquire.dials(g)
    requires forall i: nat, j: nat :: var a := s(i).attempts(j);
      && !a.ctxDone && !a.sleepCut && a.fallback.free(g) && a.fallback.dials(g)
      && (a.result.Some? ==>
            a.result.value in {Nntp(Connection), Nntp(Timeout), Nntp(ServerBusy), Nntp(ArticleNotFound), Panic})
    ensures var o := FailoverRun(ps, s, limit, []);
      (forall q :: q in o.ran && q.p == ps[g] ==> q.result.None?) ==> o.error.None?
  {
    assert forall i: nat :: SteadyRound(s(i), g);
    RoundsMoveOn(ps, s, limit, g, 0, NoExclusions, None, []);
  }

  // ----- nobody left to ask -----

  lemma {:induction false} NobodyLeft(ps: seq<Provider>, s: Script, limit: nat, k: nat, x: Exclusions,
                                      last: Option<Error>, ran: seq<Ran>)
    requires limit > 0 && k <= |ps| && (forall p :: p in ps ==> x.Excludes(p))
    requires (forall i: nat :: !s(i).ctxDone) && last.Some?
    ensures var o := Rounds(ps, s, limit, k, x, last, ran);
      o.ran == ran && o.error == if k == |ps| then last else Some(Plain)
    decreases |ps| - k
  {
    if k < |ps| {
      NoneReadyWhenRuledOut(ps, x, s(k).acquire, 0);
      NobodyLeft(ps, s, limit, k + 1, x, Some(Plain), ran);
    }
  }

  lemma {:induction false} NoneReadyWhenRuledOut(ps: seq<Provider>, x: Exclusions, a: Acquire, i: nat)
    requires i <= |ps| && forall p :: p in ps ==> x.Excludes(p)
    ensures FirstReady(ps, x, a, i).None?
    decreases |ps| - i
  {
    if i < |ps| {
      assert ps[i] in ps;
      NoneReadyWhenRuledOut(ps, x, a, i + 1);
    }
  }

  /** When all providers are on one backbone, a not-found reply rules out all of them at once. The call
      then asks nobody else, as it should; but it reports the reply only if there is a single provider.
      With more, the rounds that are left find no eligible provider, and that is what the call reports. */
  lemma SharedBackboneHidesNotFound(ps: seq<Provider>, s: Script, limit: nat, g: nat)
    requires limit > 0 && g < |ps| && NormalizeBackbone(ps[g].backbone) != ""
    requires forall p :: p in ps ==> NormalizeBackbone(p.backbone) == NormalizeBackbone(ps[g].backbone)
    requires forall i: nat :: !s(i).ctxDone
    requires s(0).acquire.free(g) && s(0).acquire.dials(g)
    requires forall h: nat :: h < g ==> !s(0).acquire.free(h) || !s(0).acquire.dials(h)
    requires !s(0).attempts(0).ctxDone && s(0).attempts(0).result == Some(Nntp(ArticleNotFound))
    ensures var o := FailoverRun(ps, s, limit, []);
      && o.ran == [Ran(ps[g], Some(Nntp(ArticleNotFound)))]
      && o.error == Some(if |ps| == 1 then Nntp(ArticleNotFound) else Plain)
  {
    FirstIsTaken(ps, NoExclusions, s(0).acquire, g);
    var e := Nntp(ArticleNotFound);
    var x := Charge(NoExclusions, ps[g], e).value;
    forall p | p in ps
      ensures x.Excludes(p)
    {
      NotFoundExcludesExactly(NoExclusions, ps[g], p);
    }
    var ran := [Ran(ps[g], Some(e))];
    RunsOnce(ps, ps[g], s(0), limit, 0, [], ps[g]);
    assert [] + ran == ran;
    NobodyLeft(ps, s, limit, 1, x, Some(e), ran);
  }

  // ----- running out of providers -----

  /** Charging one of providers that have nothing in common rules out that one. */
  lemma ChargeRulesOutOne(ps: seq<Provider>, x: Exclusions, h: nat, e: Error)
    requires h < |ps| && !x.Excludes(ps[h]) && (forall g: nat :: g < |ps| ==> StandsAlone(ps, g))
    requires e in {Nntp(Connection), Nntp(Timeout), Nntp(ServerBusy), Nntp(ArticleNotFound), Panic}
    ensures Charge(x, ps[h], e).Some?
    ensures |RuledOut(ps, Charge(x, ps[h], e).value)| == |RuledOut(ps, x)| + 1
  {
    var x' := Charge(x, ps[h], e).value;
    forall i: nat | i < |ps| ensures x'.Excludes(ps[i]) <==> x.Excludes(ps[i]) || i == h {
      assert StandsAlone(ps, h);
    }
    assert RuledOut(ps, x') == RuledOut(ps, x) + {h};
  }

  lemma OneLeft(ps: seq<Provider>, x: Exclusions) returns (g: nat)
    requires |RuledOut(ps, x)| < |ps|
    ensures g < |ps| && !x.Excludes(ps[g])
  {
    if forall g: nat :: g < |ps| ==> x.Excludes(ps[g]) {
      Smaller(Below(|ps|), RuledOut(ps, x));
      assert false;
    }
    g :| g < |ps| && !x.Excludes(ps[g]);
  }

  ghost predicate AllReady(ps: seq<Provider>, s: Script) {
    forall i: nat, g: nat :: g < |ps| ==> SteadyRound(s(i), g)
  }

  ghost predicate ReportsItsLast(o: Outcome) { o.ran != [] && o.error == o.ran[|o.ran| - 1].result }

  lemma RoundReportsLast(ps: seq<Provider>, s: Script, limit: nat, k: nat, x: Exclusions, last: Option<Error>,
                         ran: seq<Ran>)
    returns (x': Exclusions, t: Tried)
    requires limit > 0 && (forall g: nat :: g < |ps| ==> StandsAlone(ps, g)) && AllReady(ps, s)
    requires k == |RuledOut(ps, x)| < |ps|
    ensures var o := Rounds(ps, s, limit, k, x, last, ran);
      ReportsItsLast(o)
      || (k + 1 < |ps| && o == Rounds(ps, s, limit, k + 1, x', t.error, t.ran) && k + 1 == |RuledOut(ps, x')|)
  {
    var g := OneLeft(ps, x);
    assert SteadyRound(s(k), g);
    SomeReady(ps, x, s(k).acquire, g, 0);
    var h := FirstReady(ps, x, s(k).acquire, 0).value;
    t, x' := TryOn(ps, ps[h], ps[h], s(k), 0, limit, ran), x;
    TryReports(ps, ps[h], s(k), limit, ran, g);
    if t.error.Some? {
      ChargeRulesOutOne(ps, x, h, t.error.value);
      x' := Charge(x, ps[h], t.error.value).value;
    }
  }

  lemma TryReports(ps: seq<Provider>, home: Provider, r: Round, limit: nat, ran: seq<Ran>, g: nat)
    requires limit > 0 && g < |ps| && SteadyRound(r, g)
    ensures var t := TryOn(ps, home, home, r, 0, limit, ran);
      && t.ran != [] && t.error == t.ran[|t.ran| - 1].result
      && (t.error.Some? ==>
            t.error.value in {Nntp(Connection), Nntp(Timeout), Nntp(ServerBusy), Nntp(ArticleNotFound), Panic})
  {
    TryEnds(ps, home, home, r, 0, limit, ran, g);
    SteadyTry(ps, r, limit, g, home, ran);
  }

  lemma {:induction false} RoundsReportLast(ps: seq<Provider>, s: Script, limit: nat, k: nat, x: Exclusions,
                                            last: Option<Error>, ran: seq<Ran>)
    requires limit > 0 && (forall g: nat :: g < |ps| ==> StandsAlone(ps, g)) && AllReady(ps, s)
    requires k == |RuledOut(ps, x)| < |ps|
    ensures ReportsItsLast(Rounds(ps, s, limit, k, x, last, ran))
    decreases |ps| - k
  {
    var x', t := RoundReportsLast(ps, s, limit, k, x, last, ran);
    if !ReportsItsLast(Rounds(ps, s, limit, k, x, last, ran)) {
      RoundsReportLast(ps, s, limit, k + 1, x', t.error, t.ran);
    }
  }

  /** With every provider ready, none sharing a host or a backbone, and nothing but transient failures,
      not-found replies and panics, the call reports what came of its last execution: in particular the
      last failure when all have failed. */
  lemma ReportsLast(ps: seq<Provider>, s: Script, limit: nat)
    requires limit > 0 && ps != []
    requires forall i :: 0 <= i < |ps| ==> ps[i].host != ""
    requires forall i, j :: 0 <= i < j < |ps| ==> ps[i].host != ps[j].host
    requires forall i, j :: 0 <= i < |ps| && 0 <= j < |ps| && i != j ==> OtherBackbone(ps[i], ps[j])
    requires AllReady(ps, s)
    ensures var o := FailoverRun(ps, s, limit, []); o.ran != [] && o.error == o.ran[|o.ran| - 1].result
  {
    assert RuledOut(ps, NoExclusions) == {};
    RoundsReportLast(ps, s, limit, 0, NoExclusions, None, []);
  }

  // ----- giving up -----

  /** A round runs an operation that has failed for good no further, and reports that failure. */
  lemma {:induction false} TryGivesUp(ps: seq<Provider>, home: Provider, current: Provider, r: Round, j: nat,
                                      limit: nat, ran: seq<Ran>, i: nat)
    requires j < limit
    ensures var t := TryOn(ps, home, current, r, j, limit, ran);
      |ran| <= i < |t.ran| && t.ran[i].result.Some?
      && t.ran[i].result.value !in {Nntp(Connection), Nntp(Timeout), Nntp(ServerBusy)} ==>
        i == |t.ran| - 1 && t.error == t.ran[i].result
    decreases limit - j
  {
    var a := r.attempts(j);
    var ran' := ran + [Ran(current, a.result)];
    TryOnExtends(ps, home, current, r, j, limit, ran);
    if !a.ctxDone && a.result.Some? && Retriable(a.result.value) && j + 1 < limit && !a.sleepCut {
      var got := Acquired(ps, NoExclusions, a.fallback);
      if got.Some? {
        TryGivesUp(ps, home, Next(home, got.value, a.swap), r, j + 1, limit, ran', i);
        TryOnExtends(ps, home, Next(home, got.value, a.swap), r, j + 1, limit, ran');
      }
    }
  }

  lemma {:induction false} RoundsGiveUp(ps: seq<Provider>, s: Script, limit: nat, k: nat, x: Exclusions,
                                        last: Option<Error>, ran: seq<Ran>, i: nat)
    requires k <= |ps| && limit > 0
    ensures var o := Rounds(ps, s, limit, k, x, last, ran); |ran| <= i ==> EndsCall(o.ran, i, o.error)
    decreases |ps| - k
  {
    if k < |ps| && !s(k).ctxDone {
      match Acquired(ps, x, s(k).acquire) {
        case None => RoundsGiveUp(ps, s, limit, k + 1, x, Some(AcquireError(ps, x, s(k).acquire)), ran, i);
        case Some(home) =>
          var t := TryOn(ps, home, home, s(k), 0, limit, ran);
          if t.error.Some? && Charge(x, home, t.error.value).Some? {
            RoundsGiveUp(ps, s, limit, k + 1, Charge(x, home, t.error.value).value, t.error, t.ran, i);
          }
          RoundGivesUp(ps, s, limit, k, x, last, ran, i, home, t);
      }
    }
  }

  predicate EndsCall(runs: seq<Ran>, i: nat, error: Option<Error>) {
    i < |runs| && runs[i].result.Some?
    && runs[i].result.value !in {Nntp(Connection), Nntp(Timeout), Nntp(ServerBusy), Nntp(ArticleNotFound), Panic} ==>
      i == |runs| - 1 && error == runs[i].result
  }

  lemma RoundGivesUp(ps: seq<Provider>, s: Script, limit: nat, k: nat, x: Exclusions, last: Option<Error>,
                     ran: seq<Ran>, i: nat, home: Provider, t: Tried)
    requires k < |ps| && limit > 0 && !s(k).ctxDone && Acquired(ps, x, s(k).acquire) == Some(home)
    requires t == TryOn(ps, home, home, s(k), 0, limit, ran)
    requires t.error.Some? && Charge(x, home, t.error.value).Some? && |t.ran| <= i ==>
      var o := Rounds(ps, s, limit, k + 1, Charge(x, home, t.error.value).value, t.error, t.ran);
      EndsCall(o.ran, i, o.error)
    ensures var o := Rounds(ps, s, limit, k, x, last, ran); |ran| <= i ==> EndsCall(o.ran, i, o.error)
  {
    TryGivesUp(ps, home, home, s(k), 0, limit, ran, i);
    RanStays(ps, s, limit, k, x, last, ran, t, home);
  }

  /** The call gives up at once: an execution that fails with anything but a transient failure, a
      not-found reply or a panic is the last one of the call, and the call reports its failure. */
  lemma GivesUp(ps: seq<Provider>, s: Script, limit: nat, i: nat)
    requires limit > 0
    ensures var o := FailoverRun(ps, s, limit, []);
      i < |o.ran| && o.ran[i].result.Some?
      && o.ran[i].result.value !in {Nntp(Connection), Nntp(Timeout), Nntp(ServerBusy), Nntp(ArticleNotFound), Panic} ==>
        i == |o.ran| - 1 && o.error == o.ran[i].result
  {
    RoundsGiveUp(ps, s, limit, 0, NoExclusions, None, [], i);
  }

  /** The end of the context ends the round, the wait for another attempt, and the call. */
  lemma EndsWithContext(ps: seq<Provider>, s: Script, home: Provider, limit: nat, j: nat, ran: seq<Ran>,
                        current: Provider, g: nat)
    requires j < limit
    ensures var r := s(0);
      && (r.attempts(j).ctxDone ==> TryOn(ps, home, current, r, j, limit, ran) == Tried(Some(Plain), ran))
      && (ps != [] && r.ctxDone ==> FailoverRun(ps, s, limit, ran) == Outcome(Some(Plain), ran, NoExclusions))
    ensures var a := s(0).attempts(j);
      !a.ctxDone && a.sleepCut && j + 1 < limit && g < |ps| && a.fallback.free(g) && a.fallback.dials(g)
      && a.result in {Some(Nntp(Connection)), Some(Nntp(Timeout)), Some(Nntp(ServerBusy))} ==>
        TryOn(ps, home, current, s(0), j, limit, ran) == Tried(Some(Plain), ran + [Ran(current, a.result)])
  {
    var f := s(0).attempts(j).fallback;
    if g < |ps| && f.free(g) && f.dials(g) {
      SomeReady(ps, NoExclusions, f, g, 0);
    }
  }

  // ----- trying again -----

  lemma {:induction false} FirstFrom(ps: seq<Provider>, x: Exclusions, a: Acquire, g: nat, i: nat)
    requires i <= g < |ps| && !x.Excludes(ps[g]) && a.free(g) && a.dials(g)
    requires forall h: nat :: h < g ==> x.Excludes(ps[h]) || !a.free(h) || !a.dials(h)
    ensures FirstReady(ps, x, a, i) == Some(g)
    decreases g - i
  {
    if i < g {
      FirstFrom(ps, x, a, g, i + 1);
    }
  }

  /** A connection is taken of the first provider that is not ruled out, free and can be reached. */
  lemma FirstIsTaken(ps: seq<Provider>, x: Exclusions, a: Acquire, g: nat)
    requires g < |ps| && !x.Excludes(ps[g]) && a.free(g) && a.dials(g)
    requires forall h: nat :: h < g ==> x.Excludes(ps[h]) || !a.free(h) || !a.dials(h)
    ensures Acquired(ps, x, a) == Some(ps[g])
  {
    FirstFrom(ps, x, a, g, 0);
  }

  /** With none free, the winner of the race is taken unless the race was abandoned; then its slot stays
      taken. */
  lemma WinnerIsTaken(ps: seq<Provider>, x: Exclusions, a: Acquire, kept: seq<string>)
    requires forall h: nat :: !a.free(h)
    requires a.race.Some? && a.race.value < |ps| && !x.Excludes(ps[a.race.value])
    ensures Acquired(ps, x, a) == if a.abandoned then None else Some(ps[a.race.value])
    ensures KeptBy(ps, x, a, kept) == if a.abandoned then kept + [ps[a.race.value].host] else kept
  {
    NoneReady(ps, x, a, 0);
  }

  lemma {:induction false} NoneReady(ps: seq<Provider>, x: Exclusions, a: Acquire, i: nat)
    requires (forall h: nat :: !a.free(h)) && i <= |ps|
    ensures FirstReady(ps, x, a, i).None?
    decreases |ps| - i
  {
    if i < |ps| {
      NoneReady(ps, x, a, i + 1);
    }
  }

  /** After a transient failure the operation is run again within the same round, on a connection of the
      original provider if one is to be had, and else on that of the first provider g that is ready. */
  lemma RunsAgain(ps: seq<Provider>, home: Provider, r: Round, limit: nat, j: nat, ran: seq<Ran>, current: Provider,
                  g: nat)
    requires j + 1 < limit && !r.attempts(j).ctxDone && !r.attempts(j).sleepCut && !r.attempts(j + 1).ctxDone
    requires r.attempts(j).result in {Some(Nntp(Connection)), Some(Nntp(Timeout)), Some(Nntp(ServerBusy))}
    requires var f := r.attempts(j).fallback;
      g < |ps| && f.free(g) && f.dials(g) && forall h: nat :: h < g ==> !f.free(h) || !f.dials(h)
    ensures var t := TryOn(ps, home, current, r, j, limit, ran);
      && |t.ran| >= |ran| + 2 && t.ran[|ran|] == Ran(current, r.attempts(j).result)
      && t.ran[|ran| + 1].result == r.attempts(j + 1).result
      && t.ran[|ran| + 1].p == if ps[g].host != home.host && r.attempts(j).swap then home else ps[g]
  {
    FirstIsTaken(ps, NoExclusions, r.attempts(j).fallback, g);
    var next := if ps[g].host != home.host && r.attempts(j).swap then home else ps[g];
    var ran' := ran + [Ran(current, r.attempts(j).result)];
    StartsWith(ps, home, next, r, j + 1, limit, ran');
    TryOnExtends(ps, home, next, r, j + 1, limit, ran');
  }

  lemma StartsWith(ps: seq<Provider>, home: Provider, current: Provider, r: Round, j: nat, limit: nat, ran: seq<Ran>)
    requires j < limit && !r.attempts(j).ctxDone
    ensures var t := TryOn(ps, home, current, r, j, limit, ran);
      ran <= t.ran && |t.ran| > |ran| && t.ran[|ran|] == Ran(current, r.attempts(j).result)
  {
    var a := r.attempts(j);
    var got := Acquired(ps, NoExclusions, a.fallback);
    if a.result.Some? && Retriable(a.result.value) && got.Some? && j + 1 < limit && !a.sleepCut {
      TryOnExtends(ps, home, Next(home, got.value, a.swap), r, j + 1, limit, ran + [Ran(current, a.result)]);
    }
  }

  /** The last attempt of a round and one after which no fresh connection is to be had are not repeated:
      the one reports its own failure, the other why there was no connection. */
  lemma RunsNoMore(ps: seq<Provider>, home: Provider, r: Round, limit: nat, j: nat, ran: seq<Ran>, current: Provider,
                   g: nat)
    requires j < limit && !r.attempts(j).ctxDone
    requires r.attempts(j).result in {Some(Nntp(Connection)), Some(Nntp(Timeout)), Some(Nntp(ServerBusy))}
    ensures var f, ran' := r.attempts(j).fallback, ran + [Ran(current, r.attempts(j).result)];
      && (j + 1 == limit && g < |ps| && f.free(g) && f.dials(g) ==>
            TryOn(ps, home, current, r, j, limit, ran) == Tried(r.attempts(j).result, ran'))
      && (ps != [] && NothingToBeHad(f) ==>
            TryOn(ps, home, current, r, j, limit, ran) == Tried(Some(f.error), ran'))
  {
    var f := r.attempts(j).fallback;
    if g < |ps| && f.free(g) && f.dials(g) {
      SomeReady(ps, NoExclusions, f, g, 0);
    }
    if NothingToBeHad(f) {
      NoneReady(ps, NoExclusions, f, 0);
      assert ps != [] ==> ps[0] in ps && !NoExclusions.Excludes(ps[0]);
    }
  }

  /** No slot is free, and the race ends without a winner. */
  ghost predicate NothingToBeHad(a: Acquire) { a.race.None? && forall h: nat :: !a.free(h) }

  /** A round in which no connection is to be had is passed over: the call succeeds on the connection that
      a later round gets, as long as rounds are left. */
  lemma BusyRoundsArePassed(ps: seq<Provider>, s: Script, limit: nat, m: nat, g: nat)
    requires limit > 0 && m < |ps| && g < |ps|
    requires forall k: nat :: k <= m ==> !s(k).ctxDone
    requires forall k: nat :: k < m ==> NothingToBeHad(s(k).acquire)
    requires s(m).acquire.free(g) && s(m).acquire.dials(g)
    requires forall h: nat :: h < g ==> !s(m).acquire.free(h) || !s(m).acquire.dials(h)
    requires !s(m).attempts(0).ctxDone && s(m).attempts(0).result.None?
    ensures var o := FailoverRun(ps, s, limit, []); o.error == None && o.ran == [Ran(ps[g], None)]
  {
    BusyFrom(ps, s, limit, 0, m, g, None);
  }

  lemma {:induction false} BusyFrom(ps: seq<Provider>, s: Script, limit: nat, k: nat, m: nat, g: nat,
                                    last: Option<Error>)
    requires limit > 0 && k <= m < |ps| && g < |ps|
    requires forall k: nat :: k <= m ==> !s(k).ctxDone
    requires forall k: nat :: k < m ==> NothingToBeHad(s(k).acquire)
    requires s(m).acquire.free(g) && s(m).acquire.dials(g)
    requires forall h: nat :: h < g ==> !s(m).acquire.free(h) || !s(m).acquire.dials(h)
    requires !s(m).attempts(0).ctxDone && s(m).attempts(0).result.None?
    ensures var o := Rounds(ps, s, limit, k, NoExclusions, last, []); o.error == None && o.ran == [Ran(ps[g], None)]
    decreases m - k
  {
    if k == m {
      FirstIsTaken(ps, NoExclusions, s(k).acquire, g);
    } else {
      assert NothingToBeHad(s(k).acquire);
      NoneReady(ps, NoExclusions, s(k).acquire, 0);
      BusyFrom(ps, s, limit, k + 1, m, g, Some(AcquireError(ps, NoExclusions, s(k).acquire)));
    }
  }

  /** When no round gets a connection, the call runs nothing and reports what the last round met with. */
  lemma {:induction false} NoConnectionAtAll(ps: seq<Provider>, s: Script, limit: nat, k: nat, last: Option<Error>)
    requires limit > 0 && k < |ps|
    requires forall k: nat :: !s(k).ctxDone
    requires forall k: nat :: NothingToBeHad(s(k).acquire)
    ensures var o := Rounds(ps, s, limit, k, NoExclusions, last, []);
      o.ran == [] && o.error == Some(s(|ps| - 1).acquire.error)
    decreases |ps| - k
  {
    assert NothingToBeHad(s(k).acquire) && ps[0] in ps;
    NoneReady(ps, NoExclusions, s(k).acquire, 0);
    if k + 1 < |ps| {
      NoConnectionAtAll(ps, s, limit, k + 1, Some(s(k).acquire.error));
    }
  }

  /** Every other failure ends the round with itself. */
  lemma RunsOnce(ps: seq<Provider>, home: Provider, r: Round, limit: nat, j: nat, ran: seq<Ran>, current: Provider)
    requires j < limit && !r.attempts(j).ctxDone
    requires r.attempts(j).result !in {Some(Nntp(Connection)), Some(Nntp(Timeout)), Some(Nntp(ServerBusy))}
    ensures TryOn(ps, home, current, r, j, limit, ran)
         == Tried(r.attempts(j).result, ran + [Ran(current, r.attempts(j).result)])
  {
  }
}
