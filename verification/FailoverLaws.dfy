/** What ExecuteWithFailover guarantees over all scripts, proved about the function FailoverRun
    that the method Pools.ExecuteWithFailover computes. */
module FailoverLaws {
  import opened Wrappers
  import opened Nntp
  import opened Failover

  // ----- executions -----

  /** New executions, at most so many, follow the old ones; all but the last new one failed,
      and the last one too unless the outcome is success. */
  ghost predicate Extends(ran: seq<Ran>, ran': seq<Ran>, error: Option<Error>, most: nat) {
    && ran <= ran' && |ran'| <= |ran| + most
    && (forall i :: |ran| <= i < |ran'| - 1 ==> ran'[i].result.Some?)
    && (error.Some? && |ran| < |ran'| ==> ran'[|ran'| - 1].result.Some?)
    && (error.None? ==> |ran| < |ran'| && ran'[|ran'| - 1].result.None?)
  }

  lemma ExtendsTrans(a: seq<Ran>, b: seq<Ran>, c: seq<Ran>, e: Error, error: Option<Error>, m: nat, n: nat)
    requires Extends(a, b, Some(e), m) && Extends(b, c, error, n)
    ensures Extends(a, c, error, m + n)
  {
    assert forall i :: 0 <= i < |b| ==> b[i] == c[i];
  }

  /** n rounds of at most limit executions. */
  function Budget(n: nat, limit: nat): nat {
    if n == 0 then 0 else limit + Budget(n - 1, limit)
  }

  lemma BudgetIsProduct(n: nat, limit: nat)
    ensures Budget(n, limit) == n * limit
  {
  }

  lemma {:induction false} TryOnExtends(ps: seq<Provider>, home: Provider, current: Provider, r: Round, j: nat,
                                        limit: nat, ran: seq<Ran>)
    requires j < limit
    ensures var t := TryOn(ps, home, current, r, j, limit, ran); Extends(ran, t.ran, t.error, limit - j)
    decreases limit - j
  {
    var a := r.attempts(j);
    var ran' := ran + [Ran(current, a.result)];
    if !a.ctxDone && a.result.Some? && Retriable(a.result.value) && j + 1 < limit && !a.sleepCut {
      var got := Acquired(ps, NoExclusions, a.fallback);
      if got.Some? {
        TryOnExtends(ps, home, Next(home, got.value, a.swap), r, j + 1, limit, ran');
        ExtendsTrans(ran, ran', TryOn(ps, home, current, r, j, limit, ran).ran, a.result.value,
                     TryOn(ps, home, current, r, j, limit, ran).error, 1, limit - j - 1);
      }
    }
  }

  lemma {:induction false} RoundsExtends(ps: seq<Provider>, s: Script, limit: nat, k: nat, x: Exclusions,
                                         last: Option<Error>, ran: seq<Ran>)
    requires k <= |ps| && limit > 0
    ensures var o := Rounds(ps, s, limit, k, x, last, ran); Extends(ran, o.ran, o.error, Budget(|ps| - k, limit))
    decreases |ps| - k
  {
    if k < |ps| && !s(k).ctxDone {
      match Acquired(ps, x, s(k).acquire) {
        case None => RoundsExtends(ps, s, limit, k + 1, x, Some(AcquireError(ps, x, s(k).acquire)), ran);
        case Some(home) =>
          TryOnExtends(ps, home, home, s(k), 0, limit, ran);
          var t := TryOn(ps, home, home, s(k), 0, limit, ran);
          if t.error.Some? && Charge(x, home, t.error.value).Some? {
            RoundAfterRound(ps, s, limit, k, Charge(x, home, t.error.value).value, ran, t);
          }
      }
    }
  }

  lemma {:induction false} RoundAfterRound(ps: seq<Provider>, s: Script, limit: nat, k: nat, x: Exclusions,
                                           ran: seq<Ran>, t: Tried)
    requires k < |ps| && limit > 0 && t.error.Some? && Extends(ran, t.ran, t.error, limit)
    ensures var o := Rounds(ps, s, limit, k + 1, x, t.error, t.ran);
      Extends(ran, o.ran, o.error, Budget(|ps| - k, limit))
    decreases |ps| - k, 0
  {
    RoundsExtends(ps, s, limit, k + 1, x, t.error, t.ran);
    var o := Rounds(ps, s, limit, k + 1, x, t.error, t.ran);
    ExtendsTrans(ran, t.ran, o.ran, t.error.value, o.error, limit, Budget(|ps| - (k + 1), limit));
  }

  /** The operation runs at most limit times per provider, is never run again once it has
      succeeded, and success is reported exactly when the last execution succeeded. */
  lemma SuccessIsLastExecution(ps: seq<Provider>, s: Script, limit: nat, ran: seq<Ran>)
    requires limit > 0
    ensures var o := FailoverRun(ps, s, limit, ran);
      && ran <= o.ran && |o.ran| - |ran| <= |ps| * limit
      && (o.error.None? <==> |o.ran| > |ran| && o.ran[|o.ran| - 1].result.None?)
      && (forall i :: |ran| <= i < |o.ran| - 1 ==> o.ran[i].result.Some?)
  {
    RoundsExtends(ps, s, limit, 0, NoExclusions, None, ran);
    BudgetIsProduct(|ps|, limit);
  }

  // ----- the slots that abandoned races keep -----

  /** A race is abandoned because the caller's context has ended: it returns the error of the context,
      and no round begins after it. */
  ghost predicate EndsForGood(s: Script) {
    && (forall k: nat :: s(k).acquire.abandoned ==> s(k + 1).ctxDone)
    && (forall k, j :: s(k).attempts(j).fallback.abandoned ==> s(k).attempts(j).fallback.error == Plain)
  }

  ghost predicate NoneAbandoned(s: Script) {
    && (forall k :: !s(k).acquire.abandoned)
    && (forall k, j :: !s(k).attempts(j).fallback.abandoned)
  }

  lemma {:induction false} KeptOnEnds(ps: seq<Provider>, home: Provider, current: Provider, r: Round, j: nat,
                                      limit: nat, ran: seq<Ran>, kept: seq<string>)
    requires j < limit
    requires forall i :: r.attempts(i).fallback.abandoned ==> r.attempts(i).fallback.error == Plain
    ensures var kept' := KeptOn(ps, r, j, limit, kept);
      && kept <= kept' && |kept'| <= |kept| + 1
      && (kept' != kept ==> TryOn(ps, home, current, r, j, limit, ran).error == Some(Plain))
      && ((forall i :: !r.attempts(i).fallback.abandoned) ==> kept' == kept)
    decreases limit - j
  {
    var a := r.attempts(j);
    if FailsFast(a) && !a.ctxDone && Acquired(ps, NoExclusions, a.fallback).Some? && j + 1 < limit && !a.sleepCut {
      var got := Acquired(ps, NoExclusions, a.fallback).value;
      KeptOnEnds(ps, home, Next(home, got, a.swap), r, j + 1, limit, ran + [Ran(current, a.result)], kept);
    }
  }

  /** A call keeps at most one slot taken for good, and none when no race is abandoned. */
  lemma {:induction false} KeepsAtMostOne(ps: seq<Provider>, s: Script, limit: nat, k: nat, x: Exclusions,
                                          ran: seq<Ran>, kept: seq<string>)
    requires k <= |ps| && limit > 0 && EndsForGood(s)
    ensures var kept' := KeptRounds(ps, s, limit, k, x, ran, kept);
      kept <= kept' && |kept'| <= |kept| + 1 && (NoneAbandoned(s) ==> kept' == kept)
    decreases |ps| - k
  {
    if k < |ps| && !s(k).ctxDone {
      match Acquired(ps, x, s(k).acquire) {
        case None =>
          if KeptBy(ps, x, s(k).acquire, kept) == kept {
            KeepsAtMostOne(ps, s, limit, k + 1, x, ran, kept);
          }
        case Some(home) =>
          KeptOnEnds(ps, home, home, s(k), 0, limit, ran, kept);
          var t := TryOn(ps, home, home, s(k), 0, limit, ran);
          if KeptOn(ps, s(k), 0, limit, kept) == kept && t.error.Some? && Charge(x, home, t.error.value).Some? {
            KeepsAtMostOne(ps, s, limit, k + 1, Charge(x, home, t.error.value).value, t.ran, kept);
          }
      }
    }
  }

  // ----- who is blamed -----

  ghost predicate DistinctHosts(ps: seq<Provider>) {
    forall p, q :: p in ps && q in ps && p.host == q.host ==> p == q
  }

  /** The provider whose connection attempt j of a round runs on. */
  function At(ps: seq<Provider>, home: Provider, r: Round, j: nat): Provider {
    if j == 0 then home
    else match Acquired(ps, NoExclusions, r.attempts(j - 1).fallback)
      case Some(got) => Next(home, got, r.attempts(j - 1).swap)
      case None => home
  }

  /** Execution j of a round. */
  function RanAt(ps: seq<Provider>, home: Provider, r: Round, j: nat): Ran {
    Ran(At(ps, home, r, j), r.attempts(j).result)
  }

  predicate IsRun(ps: seq<Provider>, home: Provider, r: Round, i: nat, ran: seq<Ran>, offset: int) {
    0 <= offset + i < |ran| && ran[offset + i] == RanAt(ps, home, r, i)
  }

  ghost predicate AreRuns(ps: seq<Provider>, home: Provider, r: Round, j: nat, n: nat, ran: seq<Ran>, offset: int) {
    forall i: nat :: j <= i < n ==> IsRun(ps, home, r, i, ran, offset)
  }

  /** From attempt j on a round executes m attempts, one after the other. */
  ghost predicate Executes(ps: seq<Provider>, home: Provider, r: Round, j: nat, m: nat, ran: seq<Ran>, ran': seq<Ran>)
  {
    && |ran'| == |ran| + m && ran <= ran'
    && AreRuns(ps, home, r, j, j + m, ran', |ran| - j)
  }

  predicate FailsFast(a: Attempt) {
    a.result.Some? && Retriable(a.result.value)
  }

  /** The attempt fails with a transient error, and a fresh connection is found. */
  predicate IsRenewed(ps: seq<Provider>, a: Attempt) {
    FailsFast(a) && Acquired(ps, NoExclusions, a.fallback).Some?
  }

  /** How a round whose last attempt is a may fail: by the result of a, by the error of the renewal
      after it, or by the end of the context. */
  predicate EndsWith(ps: seq<Provider>, a: Attempt, e: Error) {
    || e == Plain
    || a.result == Some(e)
    || (FailsFast(a) && Acquired(ps, NoExclusions, a.fallback).None? && e == AcquireError(ps, NoExclusions, a.fallback))
  }

  lemma ExecutesOneMore(ps: seq<Provider>, home: Provider, r: Round, j: nat, m: nat, ran: seq<Ran>, ran': seq<Ran>)
    requires Executes(ps, home, r, j + 1, m, ran + [RanAt(ps, home, r, j)], ran')
    ensures Executes(ps, home, r, j, m + 1, ran, ran')
  {
    var first := ran + [RanAt(ps, home, r, j)];
    assert ran'[|ran|] == first[|ran|] && first[..|ran|] == ran;
    assert |first| - (j + 1) == |ran| - j;
  }

  /** What a round makes of its attempts from j on. */
  ghost predicate Follows(ps: seq<Provider>, home: Provider, r: Round, j: nat, m: nat, ran: seq<Ran>, t: Tried) {
    && Executes(ps, home, r, j, m, ran, t.ran)
    && (forall i: nat :: j <= i < j + m - 1 ==> IsRenewed(ps, r.attempts(i)))
    && (m == 0 ==> t.error == Some(Plain))
    && (m > 0 && t.error.Some? ==> EndsWith(ps, r.attempts(j + m - 1), t.error.value))
    && (m > 0 && !FailsFast(r.attempts(j + m - 1)) ==> t.error == r.attempts(j + m - 1).result)
  }

  /** Attempt j of a round is followed by another one. */
  predicate GoesOn(ps: seq<Provider>, r: Round, j: nat, limit: nat) {
    !r.attempts(j).ctxDone && IsRenewed(ps, r.attempts(j)) && j + 1 < limit && !r.attempts(j).sleepCut
  }

  /** How many attempts a round makes from attempt j on. */
  function Made(ps: seq<Provider>, r: Round, j: nat, limit: nat): (m: nat)
    requires j < limit
    ensures m <= limit - j
    decreases limit - j
  {
    if r.attempts(j).ctxDone then 0
    else if GoesOn(ps, r, j, limit) then 1 + Made(ps, r, j + 1, limit)
    else 1
  }

  /** The last attempt is the first one that succeeds, fails for good, finds no fresh connection, has
      its wait cut or reaches the limit, or else the one before the context has ended. */
  lemma {:induction false} MadeMeans(ps: seq<Provider>, r: Round, j: nat, limit: nat)
    requires j < limit
    ensures var m := Made(ps, r, j, limit);
      && (forall i: nat :: j <= i < j + m - 1 ==> GoesOn(ps, r, i, limit))
      && (m > 0 ==> !r.attempts(j + m - 1).ctxDone)
      && (m > 0 && GoesOn(ps, r, j + m - 1, limit) ==> r.attempts(j + m).ctxDone)
      && (m == 0 ==> r.attempts(j).ctxDone)
    decreases limit - j
  {
    if GoesOn(ps, r, j, limit) {
      MadeMeans(ps, r, j + 1, limit);
    }
  }

  /** The executions of a round and its error, read off the script. */
  lemma {:induction false} TryOnFollows(ps: seq<Provider>, home: Provider, r: Round, j: nat, limit: nat,
                                        ran: seq<Ran>)
    requires j < limit
    ensures Follows(ps, home, r, j, Made(ps, r, j, limit), ran,
                    TryOn(ps, home, At(ps, home, r, j), r, j, limit, ran))
    decreases limit - j
  {
    var t := TryOn(ps, home, At(ps, home, r, j), r, j, limit, ran);
    if GoesOn(ps, r, j, limit) {
      TryOnFollows(ps, home, r, j + 1, limit, ran + [RanAt(ps, home, r, j)]);
      FollowsOneMore(ps, home, r, j, Made(ps, r, j + 1, limit), ran, t);
    } else if !r.attempts(j).ctxDone {
      FollowsOnce(ps, home, r, j, ran, t);
    }
  }

  lemma FollowsOnce(ps: seq<Provider>, home: Provider, r: Round, j: nat, ran: seq<Ran>, t: Tried)
    requires t.ran == ran + [RanAt(ps, home, r, j)]
    requires t.error.Some? ==> EndsWith(ps, r.attempts(j), t.error.value)
    requires !FailsFast(r.attempts(j)) ==> t.error == r.attempts(j).result
    ensures Follows(ps, home, r, j, 1, ran, t)
  {
    assert j + 1 - 1 == j;
    assert t.ran[(|ran| - j) + j] == RanAt(ps, home, r, j);
  }

  lemma FollowsOneMore(ps: seq<Provider>, home: Provider, r: Round, j: nat, m: nat, ran: seq<Ran>, t: Tried)
    requires Follows(ps, home, r, j + 1, m, ran + [RanAt(ps, home, r, j)], t) && IsRenewed(ps, r.attempts(j))
    ensures Follows(ps, home, r, j, m + 1, ran, t)
  {
    ExecutesOneMore(ps, home, r, j, m, ran, t.ran);
    assert (j + 1) + m - 1 == j + (m + 1) - 1;
  }

  lemma RoundFollows(ps: seq<Provider>, home: Provider, r: Round, limit: nat, ran: seq<Ran>)
    requires limit > 0
    ensures 0 <= Made(ps, r, 0, limit) <= limit
    ensures Follows(ps, home, r, 0, Made(ps, r, 0, limit), ran, TryOn(ps, home, home, r, 0, limit, ran))
  {
    TryOnFollows(ps, home, r, 0, limit, ran);
  }

  /** After attempt a the round goes on with a connection of its own provider. */
  predicate StaysHome(ps: seq<Provider>, home: Provider, a: Attempt) {
    var got := Acquired(ps, NoExclusions, a.fallback);
    got.Some? && (got.value.host == home.host || a.swap)
  }

  lemma RenewedRun(ps: seq<Provider>, home: Provider, r: Round, m: nat, ran: seq<Ran>, t: Tried, i: nat)
    requires Follows(ps, home, r, 0, m, ran, t) && home in ps && DistinctHosts(ps) && i < m - 1
    ensures t.ran[|ran| + i + 1].p == home <==> StaysHome(ps, home, r.attempts(i))
  {
    assert IsRenewed(ps, r.attempts(i));
    assert IsRun(ps, home, r, i + 1, t.ran, |ran|);
  }

  ghost predicate AllOn(runs: seq<Ran>, p: Provider) {
    forall q :: q in runs ==> q.p == p
  }

  ghost predicate AllStayHome(ps: seq<Provider>, home: Provider, r: Round, n: int) {
    forall i: nat :: i < n ==> StaysHome(ps, home, r.attempts(i))
  }

  lemma FollowsHome(ps: seq<Provider>, home: Provider, r: Round, m: nat, ran: seq<Ran>, t: Tried)
    requires Follows(ps, home, r, 0, m, ran, t) && home in ps && DistinctHosts(ps)
    ensures AllOn(t.ran[|ran|..], home) <==> AllStayHome(ps, home, r, m - 1)
  {
    var runs := t.ran[|ran|..];
    assert m > 0 ==> IsRun(ps, home, r, 0, t.ran, |ran|) && runs[0].p == home;
    if AllOn(runs, home) {
      forall i: nat | i < m - 1
        ensures StaysHome(ps, home, r.attempts(i))
      {
        RenewedRun(ps, home, r, m, ran, t, i);
        assert runs[i + 1] in runs;
      }
    }
    if AllStayHome(ps, home, r, m - 1) {
      forall k | 0 < k < m
        ensures runs[k].p == home
      {
        RenewedRun(ps, home, r, m, ran, t, k - 1);
      }
    }
  }

  /** All executions of a round were on the provider that it began with if and only if after each of
      them but the last the fresh connection was of that provider or could be swapped for one that
      was. */
  lemma RoundStaysHome(ps: seq<Provider>, home: Provider, r: Round, limit: nat, ran: seq<Ran>)
    requires limit > 0 && home in ps && DistinctHosts(ps)
    ensures ran <= TryOn(ps, home, home, r, 0, limit, ran).ran
    ensures AllOn(TryOn(ps, home, home, r, 0, limit, ran).ran[|ran|..], home)
      <==> AllStayHome(ps, home, r, Made(ps, r, 0, limit) - 1)
  {
    RoundFollows(ps, home, r, limit, ran);
    FollowsHome(ps, home, r, Made(ps, r, 0, limit), ran, TryOn(ps, home, home, r, 0, limit, ran));
  }

  // ----- which exclusions are earned -----

  predicate NotFoundOn(r: Ran, backbone: string) {
    NormalizeBackbone(r.p.backbone) == backbone && r.result == Some(Nntp(ArticleNotFound))
  }

  predicate FailedOn(r: Ran, host: string) {
    r.p.host == host && r.result.Some?
  }

  ghost predicate SomeNotFoundOn(runs: seq<Ran>, backbone: string) {
    exists q :: q in runs && NotFoundOn(q, backbone)
  }

  ghost predicate SomeFailedOn(runs: seq<Ran>, host: string) {
    exists q :: q in runs && FailedOn(q, host)
  }

  /** The last of m attempts was told not-found by a provider on the backbone of home. */
  predicate LastToldNotFound(ps: seq<Provider>, home: Provider, r: Round, m: int) {
    && m > 0 && r.attempts(m - 1).result == Some(Nntp(ArticleNotFound))
    && NormalizeBackbone(At(ps, home, r, m - 1).backbone) == NormalizeBackbone(home.backbone)
  }

  /** Only the last execution of a round can have been told not-found. */
  lemma OnlyLastNotFound(ps: seq<Provider>, home: Provider, r: Round, m: nat, ran: seq<Ran>, t: Tried, k: nat)
    requires Follows(ps, home, r, 0, m, ran, t) && k < m
    ensures t.ran[|ran|..][k] == RanAt(ps, home, r, k)
    ensures t.ran[|ran|..][k].result == Some(Nntp(ArticleNotFound)) ==> k == m - 1
  {
    assert IsRun(ps, home, r, k, t.ran, |ran|);
    assert k < m - 1 ==> IsRenewed(ps, r.attempts(k));
  }

  lemma FollowsBackbone(ps: seq<Provider>, home: Provider, r: Round, m: nat, ran: seq<Ran>, t: Tried)
    requires Follows(ps, home, r, 0, m, ran, t)
    ensures SomeNotFoundOn(t.ran[|ran|..], NormalizeBackbone(home.backbone)) <==> LastToldNotFound(ps, home, r, m)
  {
    var runs, b := t.ran[|ran|..], NormalizeBackbone(home.backbone);
    if q :| q in runs && NotFoundOn(q, b) {
      var k :| 0 <= k < |runs| && runs[k] == q;
      OnlyLastNotFound(ps, home, r, m, ran, t, k);
    }
    if LastToldNotFound(ps, home, r, m) {
      OnlyLastNotFound(ps, home, r, m, ran, t, m - 1);
      assert runs[m - 1] in runs && NotFoundOn(runs[m - 1], b);
    }
  }

  /** Some execution of a round was told not-found on the backbone of the provider that the round is
      charged to, if and only if its last attempt was. It was not when the last attempt had strayed
      to another backbone, nor when the not-found came from a login while a fresh connection was
      sought. */
  lemma RoundEarnsBackbone(ps: seq<Provider>, home: Provider, r: Round, limit: nat, ran: seq<Ran>)
    requires limit > 0
    ensures ran <= TryOn(ps, home, home, r, 0, limit, ran).ran
    ensures SomeNotFoundOn(TryOn(ps, home, home, r, 0, limit, ran).ran[|ran|..], NormalizeBackbone(home.backbone))
      <==> LastToldNotFound(ps, home, r, Made(ps, r, 0, limit))
  {
    RoundFollows(ps, home, r, limit, ran);
    FollowsBackbone(ps, home, r, Made(ps, r, 0, limit), ran, TryOn(ps, home, home, r, 0, limit, ran));
  }

  lemma FollowsHost(ps: seq<Provider>, home: Provider, r: Round, m: nat, ran: seq<Ran>, t: Tried)
    requires Follows(ps, home, r, 0, m, ran, t) && t.error.Some? && t.error.value != Plain
    ensures SomeFailedOn(t.ran[|ran|..], home.host)
  {
    var runs := t.ran[|ran|..];
    assert IsRun(ps, home, r, 0, t.ran, |ran|) && runs[0] == RanAt(ps, home, r, 0);
    assert m > 1 ==> IsRenewed(ps, r.attempts(0));
    assert FailedOn(runs[0], home.host);
  }

  /** A round that ends with anything but the end of the context has failed on its own provider, so
      that an exclusion of its host is always earned. */
  lemma RoundEarnsHost(ps: seq<Provider>, home: Provider, r: Round, limit: nat, ran: seq<Ran>)
    requires limit > 0
    ensures var t := TryOn(ps, home, home, r, 0, limit, ran);
      && ran <= t.ran
      && (t.error.Some? && t.error.value != Plain ==> SomeFailedOn(t.ran[|ran|..], home.host))
  {
    RoundFollows(ps, home, r, limit, ran);
    var t := TryOn(ps, home, home, r, 0, limit, ran);
    if t.error.Some? && t.error.value != Plain {
      FollowsHost(ps, home, r, Made(ps, r, 0, limit), ran, t);
    }
  }

  /** The round excludes a whole backbone. */
  predicate ChargesBackbone(home: Provider, error: Option<Error>) {
    error.Some? && IsNotFound(error.value) && NormalizeBackbone(home.backbone) != ""
  }

  ghost predicate ChargeEarned(home: Provider, ran: seq<Ran>, t: Tried) {
    ChargesBackbone(home, t.error) ==>
      ran <= t.ran && SomeNotFoundOn(t.ran[|ran|..], NormalizeBackbone(home.backbone))
  }

  predicate ChargeOnTarget(ps: seq<Provider>, home: Provider, r: Round, limit: nat, error: Option<Error>)
    requires limit > 0
  {
    ChargesBackbone(home, error) ==> LastToldNotFound(ps, home, r, Made(ps, r, 0, limit))
  }

  lemma ChargeEarnedExactly(ps: seq<Provider>, home: Provider, r: Round, limit: nat, ran: seq<Ran>)
    requires limit > 0
    ensures var t := TryOn(ps, home, home, r, 0, limit, ran);
      ChargeEarned(home, ran, t) <==> ChargeOnTarget(ps, home, r, limit, t.error)
  {
    RoundEarnsBackbone(ps, home, r, limit, ran);
  }

  /** Every backbone that a call excludes was earned in the round that excludes it. */
  ghost predicate ChargesEarned(ps: seq<Provider>, s: Script, limit: nat, k: nat, x: Exclusions, ran: seq<Ran>)
    requires k <= |ps| && limit > 0
    decreases |ps| - k
  {
    k == |ps| || s(k).ctxDone ||
    match Acquired(ps, x, s(k).acquire)
    case None => ChargesEarned(ps, s, limit, k + 1, x, ran)
    case Some(home) =>
      var t := TryOn(ps, home, home, s(k), 0, limit, ran);
      && ChargeEarned(home, ran, t)
      && (t.error.Some? && Charge(x, home, t.error.value).Some? ==>
            ChargesEarned(ps, s, limit, k + 1, Charge(x, home, t.error.value).value, t.ran))
  }

  /** In every round that excludes a backbone, the last attempt was told not-found on it. */
  ghost predicate ChargesOnTarget(ps: seq<Provider>, s: Script, limit: nat, k: nat, x: Exclusions, ran: seq<Ran>)
    requires k <= |ps| && limit > 0
    decreases |ps| - k
  {
    k == |ps| || s(k).ctxDone ||
    match Acquired(ps, x, s(k).acquire)
    case None => ChargesOnTarget(ps, s, limit, k + 1, x, ran)
    case Some(home) =>
      var t := TryOn(ps, home, home, s(k), 0, limit, ran);
      && ChargeOnTarget(ps, home, s(k), limit, t.error)
      && (t.error.Some? && Charge(x, home, t.error.value).Some? ==>
            ChargesOnTarget(ps, s, limit, k + 1, Charge(x, home, t.error.value).value, t.ran))
  }

  /** Every exclusion of a call is earned in its round if and only if in every round that excludes a
      backbone the last attempt was told not-found on that backbone. */
  lemma {:induction false} EarnedExactly(ps: seq<Provider>, s: Script, limit: nat, k: nat, x: Exclusions,
                                         ran: seq<Ran>)
    requires k <= |ps| && limit > 0
    ensures ChargesEarned(ps, s, limit, k, x, ran) <==> ChargesOnTarget(ps, s, limit, k, x, ran)
    decreases |ps| - k
  {
    if k < |ps| && !s(k).ctxDone {
      match Acquired(ps, x, s(k).acquire) {
        case None => EarnedExactly(ps, s, limit, k + 1, x, ran);
        case Some(home) =>
          var t := TryOn(ps, home, home, s(k), 0, limit, ran);
          if t.error.Some? && Charge(x, home, t.error.value).Some? {
            EarnedExactly(ps, s, limit, k + 1, Charge(x, home, t.error.value).value, t.ran);
          }
          EarnedRound(ps, s, limit, k, x, ran, home, t);
      }
    }
  }

  lemma EarnedRound(ps: seq<Provider>, s: Script, limit: nat, k: nat, x: Exclusions, ran: seq<Ran>, home: Provider,
                    t: Tried)
    requires k < |ps| && limit > 0 && !s(k).ctxDone && Acquired(ps, x, s(k).acquire) == Some(home)
    requires t == TryOn(ps, home, home, s(k), 0, limit, ran)
    requires t.error.Some? && Charge(x, home, t.error.value).Some? ==>
      (ChargesEarned(ps, s, limit, k + 1, Charge(x, home, t.error.value).value, t.ran)
       <==> ChargesOnTarget(ps, s, limit, k + 1, Charge(x, home, t.error.value).value, t.ran))
    ensures ChargesEarned(ps, s, limit, k, x, ran) <==> ChargesOnTarget(ps, s, limit, k, x, ran)
  {
    ChargeEarnedExactly(ps, home, s(k), limit, ran);
  }

  /** A backbone is excluded only if a provider on it said not-found, a host only if an
      execution on it failed. */
  ghost predicate Justified(x: Exclusions, ran: seq<Ran>) {
    && (forall b :: b in x.backbones ==> SomeNotFoundOn(ran, b))
    && (forall h :: h in x.hosts ==> SomeFailedOn(ran, h))
  }

  lemma JustifiedLater(x: Exclusions, ran: seq<Ran>, later: seq<Ran>)
    requires Justified(x, ran) && ran <= later
    ensures Justified(x, later)
  {
    assert forall q :: q in ran ==> q in later;
    forall b | b in x.backbones
      ensures SomeNotFoundOn(later, b)
    {
      var q :| q in ran && NotFoundOn(q, b);
    }
    forall h | h in x.hosts
      ensures SomeFailedOn(later, h)
    {
      var q :| q in ran && FailedOn(q, h);
    }
  }

  lemma ChargeKeepsJustified(x: Exclusions, home: Provider, e: Error, ran: seq<Ran>)
    requires Justified(x, ran) && Charge(x, home, e).Some?
    requires ChargesBackbone(home, Some(e)) ==> SomeNotFoundOn(ran, NormalizeBackbone(home.backbone))
    requires SomeFailedOn(ran, home.host)
    ensures Justified(Charge(x, home, e).value, ran)
  {
  }

  lemma InSuffix(ran: seq<Ran>, all: seq<Ran>, home: Provider)
    requires ran <= all
    ensures SomeFailedOn(all[|ran|..], home.host) ==> SomeFailedOn(all, home.host)
    ensures SomeNotFoundOn(all[|ran|..], NormalizeBackbone(home.backbone))
      ==> SomeNotFoundOn(all, NormalizeBackbone(home.backbone))
  {
    assert forall q :: q in all[|ran|..] ==> q in all;
  }

  lemma RoundKeepsJustified(ps: seq<Provider>, home: Provider, r: Round, limit: nat, x: Exclusions, ran: seq<Ran>)
    requires limit > 0 && Justified(x, ran)
    requires var t := TryOn(ps, home, home, r, 0, limit, ran);
      ChargesBackbone(home, t.error) ==>
        ran <= t.ran && SomeNotFoundOn(t.ran[|ran|..], NormalizeBackbone(home.backbone))
    ensures var t := TryOn(ps, home, home, r, 0, limit, ran);
      && Justified(x, t.ran)
      && (t.error.Some? && Charge(x, home, t.error.value).Some? ==>
            Justified(Charge(x, home, t.error.value).value, t.ran))
  {
    var t := TryOn(ps, home, home, r, 0, limit, ran);
    RoundEarnsHost(ps, home, r, limit, ran);
    JustifiedLater(x, ran, t.ran);
    InSuffix(ran, t.ran, home);
    if t.error.Some? && Charge(x, home, t.error.value).Some? {
      ChargeKeepsJustified(x, home, t.error.value, t.ran);
    }
  }

  lemma {:induction false} EarnedMeansJustified(ps: seq<Provider>, s: Script, limit: nat, k: nat, x: Exclusions,
                                                last: Option<Error>, ran: seq<Ran>)
    requires k <= |ps| && limit > 0 && Justified(x, ran) && ChargesEarned(ps, s, limit, k, x, ran)
    ensures var o := Rounds(ps, s, limit, k, x, last, ran); Justified(o.x, o.ran)
    decreases |ps| - k
  {
    if k < |ps| && !s(k).ctxDone {
      match Acquired(ps, x, s(k).acquire) {
        case None => EarnedMeansJustified(ps, s, limit, k + 1, x, Some(AcquireError(ps, x, s(k).acquire)), ran);
        case Some(home) =>
          var t := TryOn(ps, home, home, s(k), 0, limit, ran);
          RoundKeepsJustified(ps, home, s(k), limit, x, ran);
          if t.error.Some? && Charge(x, home, t.error.value).Some? {
            EarnedMeansJustified(ps, s, limit, k + 1, Charge(x, home, t.error.value).value, t.error, t.ran);
          }
      }
    }
  }

  /** While every charge is on target, every provider that is passed over had failed itself, or is on
      a backbone that said not-found. */
  lemma PassedOverJustified(ps: seq<Provider>, s: Script, limit: nat, q: Provider)
    requires limit > 0 && ChargesOnTarget(ps, s, limit, 0, NoExclusions, [])
    ensures var o := FailoverRun(ps, s, limit, []);
      o.x.Excludes(q) ==> SomeFailedOn(o.ran, q.host) || SomeNotFoundOn(o.ran, NormalizeBackbone(q.backbone))
  {
    EarnedExactly(ps, s, limit, 0, NoExclusions, []);
    EarnedMeansJustified(ps, s, limit, 0, NoExclusions, None, []);
  }

  /** A round that stays home charges on target, unless a login was refused as not-found. */
  lemma HomeIsOnTarget(ps: seq<Provider>, home: Provider, r: Round, limit: nat, ran: seq<Ran>)
    requires limit > 0 && home in ps && DistinctHosts(ps)
    requires var m := Made(ps, r, 0, limit);
      AllStayHome(ps, home, r, m - 1) && (m > 0 ==> !IsNotFound(r.attempts(m - 1).fallback.error))
    ensures ChargesBackbone(home, TryOn(ps, home, home, r, 0, limit, ran).error) ==>
      LastToldNotFound(ps, home, r, Made(ps, r, 0, limit))
  {
    RoundFollows(ps, home, r, limit, ran);
    FollowsOnTarget(ps, home, r, Made(ps, r, 0, limit), ran, TryOn(ps, home, home, r, 0, limit, ran));
  }

  lemma FollowsOnTarget(ps: seq<Provider>, home: Provider, r: Round, m: nat, ran: seq<Ran>, t: Tried)
    requires Follows(ps, home, r, 0, m, ran, t) && home in ps && DistinctHosts(ps)
    requires AllStayHome(ps, home, r, m - 1) && (m > 0 ==> !IsNotFound(r.attempts(m - 1).fallback.error))
    ensures ChargesBackbone(home, t.error) ==> LastToldNotFound(ps, home, r, m)
  {
    if m > 1 {
      assert StaysHome(ps, home, r.attempts(m - 2)) && IsRenewed(ps, r.attempts(m - 2));
    }
    assert 0 + m - 1 == m - 1;
  }

  // ----- a stray attempt is charged to the wrong provider -----

  const A := Provider("a", "x", 1)
  const B := Provider("b", "y", 1)
  const C := Provider("c", "x", 1)

  function Only(i: nat): Acquire {
    Acquire(k => k == i, k => true, None, false, Plain)
  }

  function FailWith(kind: ErrorType): Attempt {
    Attempt(false, Some(Nntp(kind)), false, Only(1), false, false)
  }

  /** Round 0 starts at A, loses the connection and goes on with B, which says not-found. */
  function StrayScript(k: nat): Round {
    if k == 0 then Round(false, Only(0), j => FailWith(if j == 0 then Connection else ArticleNotFound))
    else Round(false, Only(1), j => FailWith(ArticleNotFound))
  }

  /** A and C share a backbone that never said not-found, yet it is excluded for B's reply, and
      C, which might have had the article, is never asked. */
  lemma StrayAttemptBlamesWrongBackbone()
    ensures var o := FailoverRun([A, B, C], StrayScript, 2, []);
      && o.x.Excludes(C)
      && (forall r :: r in o.ran ==> !NotFoundOn(r, NormalizeBackbone(C.backbone)) && r.p != C)
      && o.error == Some(Plain)
  {
    BackbonesNormal();
    StrayRound();
    LaterRounds();
    assert Charge(NoExclusions, A, Nntp(ArticleNotFound)).value.backbones == {"x"};
    PickOnly([A, B, C], NoExclusions, 0);
  }

  const FirstRuns := [Ran(A, Some(Nntp(Connection))), Ran(B, Some(Nntp(ArticleNotFound)))]

  lemma LaterRounds()
    ensures Rounds([A, B, C], StrayScript, 2, 1, Exclusions({}, {"x"}), Some(Nntp(ArticleNotFound)), FirstRuns)
         == Outcome(Some(Plain), FirstRuns + [Ran(B, Some(Nntp(ArticleNotFound)))], Exclusions({}, {"x", "y"}))
  {
    var ps, x1, x2 := [A, B, C], Exclusions({}, {"x"}), Exclusions({}, {"x", "y"});
    BackbonesNormal();
    PickOnly(ps, x1, 1);
    var r1 := FirstRuns + [Ran(B, Some(Nntp(ArticleNotFound)))];
    assert TryOn(ps, B, B, StrayScript(1), 0, 2, FirstRuns) == Tried(Some(Nntp(ArticleNotFound)), r1);
    assert Charge(x1, B, Nntp(ArticleNotFound)).value.backbones == x2.backbones;
    assert NoneEligible(ps, x2);
    assert Rounds(ps, StrayScript, 2, 2, x2, Some(Nntp(ArticleNotFound)), r1) == Outcome(Some(Plain), r1, x2);
  }

  lemma StrayRound()
    ensures TryOn([A, B, C], A, A, StrayScript(0), 0, 2, []) == Tried(Some(Nntp(ArticleNotFound)), FirstRuns)
  {
    var ps := [A, B, C];
    PickOnly(ps, NoExclusions, 1);
    var first := Ran(A, Some(Nntp(Connection)));
    assert [] + [first] == [first];
    assert [first] + [Ran(B, Some(Nntp(ArticleNotFound)))] == [first, Ran(B, Some(Nntp(ArticleNotFound)))];
    assert StrayScript(0).attempts(1) == FailWith(ArticleNotFound);
    assert TryOn(ps, A, B, StrayScript(0), 1, 2, [first])
        == Tried(Some(Nntp(ArticleNotFound)), [first, Ran(B, Some(Nntp(ArticleNotFound)))]);
    var a := StrayScript(0).attempts(0);
    assert a == FailWith(Connection) && Next(A, B, a.swap) == B;
  }

  lemma BackbonesNormal()
    ensures NormalizeBackbone("x") == "x" && NormalizeBackbone("y") == "y"
  {
    assert TrimLeft("x") == "x" && TrimRight("x") == "x" && TrimLeft("y") == "y" && TrimRight("y") == "y";
  }

  lemma PickOnly(ps: seq<Provider>, x: Exclusions, i: nat)
    requires i < |ps| && !x.Excludes(ps[i])
    ensures Acquired(ps, x, Only(i)) == Some(ps[i])
  {
    PickOnlyFrom(ps, x, i, 0);
  }

  lemma {:induction false} PickOnlyFrom(ps: seq<Provider>, x: Exclusions, i: nat, k: nat)
    requires k <= i < |ps| && !x.Excludes(ps[i])
    ensures FirstReady(ps, x, Only(i), k) == Some(i)
    decreases i - k
  {
    if k < i {
      PickOnlyFrom(ps, x, i, k + 1);
    }
  }
}
