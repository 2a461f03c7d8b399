/** Batched availability checks across providers: what batchStatAcrossProviders computes with
    its index lists, and that each message gets the verdict it would get on its own. */
module BatchStat {
  import opened Wrappers
  import opened Nntp
  import opened IndexRound

  datatype StatResult = StatResult(id: string, available: bool, error: Option<Error>)

  /** What one batch on one provider returned. */
  datatype Reply = Reply(results: seq<StatResult>, error: Option<Error>)

  const Lost := Nntp(Connection)

  // ----- one batch on one connection -----

  function FromCode(id: string, code: int): StatResult {
    if code == 223 then StatResult(id, true, None) else StatResult(id, false, Some(Nntp(Classify(code))))
  }

  /** What asking a provider for a batch comes to: no connection, or one on which sends(i) says whether
      the i-th command could be sent and codes(i) is the code of the i-th response, None when the
      connection is lost there. */
  datatype Wire = Refused(e: Error) | Served(sends: nat -> bool, codes: nat -> Option<int>)

  ghost predicate AllSent(w: Wire, n: nat)
    requires w.Served?
  {
    forall i: nat :: i < n ==> w.sends(i)
  }

  ghost predicate ReadUpTo(w: Wire, j: nat)
    requires w.Served?
  {
    forall i: nat :: i <= j ==> w.codes(i).Some?
  }

  /** The reply as batchStatOnProvider hands it on. */
  ghost function ReplyTo(ids: seq<string>, w: Wire): Reply {
    if w.Refused? then Reply([], Some(w.e))
    else if ids == [] then Reply([], None)
    else if !AllSent(w, |ids|) then Reply([], Some(Lost))
    else Reply(seq(|ids|, j requires 0 <= j < |ids| => if ReadUpTo(w, j) then FromCode(ids[j], w.codes(j).value)
                                                    else StatResult(ids[j], false, Some(Lost))),
               if ReadUpTo(w, |ids| - 1) then None else Some(Lost))
  }

  /** PipelinedStat: sends(i) says whether the i-th command could be sent, codes(i) is the code
      of the i-th response, None when the connection is lost there. The results are aligned with
      the ids; from the point of loss on they are errors, and the batch as a whole fails. */
  method PipelinedStat(ids: seq<string>, sends: nat -> bool, codes: nat -> Option<int>) returns (r: Reply)
    ensures r == ReplyTo(ids, Served(sends, codes)) && GoodReply(ids, r)
    ensures r.results == [] <==> ids == [] || exists i :: 0 <= i < |ids| && !sends(i)
    ensures r.results != [] ==>
      && (forall j :: 0 <= j < |ids| ==>
            r.results[j] == (if forall i: nat :: i <= j ==> codes(i).Some? then FromCode(ids[j], codes(j).value)
                             else StatResult(ids[j], false, Some(Lost))))
      && (r.error.Some? <==> exists i :: 0 <= i < |ids| && codes(i).None?)
  {
    if ids == [] {
      return Reply([], None);
    }
    for i := 0 to |ids|
      invariant forall j :: 0 <= j < i ==> sends(j)
    {
      if !sends(i) {
        return Reply([], Some(Lost));
      }
    }
    var results := seq(|ids|, _ => StatResult("", false, None));
    for i := 0 to |ids|
      invariant |results| == |ids|
      invariant forall j :: 0 <= j < i ==> codes(j).Some? && results[j] == FromCode(ids[j], codes(j).value)
    {
      if codes(i).None? {
        for j := i to |ids|
          invariant |results| == |ids|
          invariant forall k :: 0 <= k < i ==> results[k] == FromCode(ids[k], codes(k).value)
          invariant forall k :: i <= k < j ==> results[k] == StatResult(ids[k], false, Some(Lost))
        {
          results := results[j := StatResult(ids[j], false, Some(Lost))];
        }
        r := Reply(results, Some(Lost));
        assert r.results == ReplyTo(ids, Served(sends, codes)).results;
        return;
      }
      results := results[i := FromCode(ids[i], codes(i).value)];
    }
    r := Reply(results, None);
    assert r.results == ReplyTo(ids, Served(sends, codes)).results;
  }

  /** batchStatOnProvider: PipelinedStat on a connection, when there is one. */
  method StatOnProvider(ids: seq<string>, w: Wire) returns (r: Reply)
    requires ids != []
    ensures r == ReplyTo(ids, w) && GoodReply(ids, r)
  {
    if w.Refused? {
      return Reply([], Some(w.e));
    }
    r := PipelinedStat(ids, w.sends, w.codes);
  }

  /** A reply is aligned with its ids, or an error without results. */
  ghost predicate GoodReply(ids: seq<string>, r: Reply) {
    && (|r.results| == |ids| || (r.results == [] && r.error.Some?))
    && (forall j :: 0 <= j < |r.results| ==> r.results[j].id == ids[j])
    && (forall j :: 0 <= j < |r.results| ==> (r.results[j].available <==> r.results[j].error.None?))
  }

  // ----- one message -----

  datatype Answer = Hit(res: StatResult) | Missing | Trouble(e: Error)

  datatype MsgState = MsgState(hit: Option<StatResult>, sawNotFound: bool, sawOther: bool, lastErr: Option<Error>,
                               x: Exclusions) {
    predicate Asks(p: Provider) {
      hit.None? && !x.Excludes(p)
    }

    function Step(p: Provider, a: Answer): MsgState {
      match a
      case Hit(res) => this.(hit := Some(res))
      case Missing => this.(sawNotFound := true, x := x.ExcludeForNotFound(p))
      case Trouble(e) => this.(sawOther := true, lastErr := Some(e))
    }

    function Verdict(id: string): StatResult {
      if hit.Some? then hit.value
      else if sawNotFound && !sawOther then StatResult(id, false, Some(Nntp(ArticleNotFound)))
      else if lastErr.Some? then StatResult(id, false, lastErr)
      else StatResult(id, false, Some(Lost))
    }
  }

  const Fresh := MsgState(None, false, false, None, NoExclusions)

  /** The answer in slot q of a reply. */
  function AnswerAt(r: Reply, q: nat): Answer {
    if q < |r.results| then
      var res := r.results[q];
      if res.available then Hit(res)
      else if res.error == Some(Nntp(ArticleNotFound)) then Missing
      else Trouble(if res.error.Some? then res.error.value else if r.error.Some? then r.error.value else Lost)
    else Trouble(if r.error.Some? then r.error.value else Lost)
  }

  /** The reference: one message alone, asking the first n providers in order, each unless the
      message was found or its own exclusions rule the provider out. */
  function Alone(ps: seq<Provider>, n: nat, answer: nat -> Answer): MsgState
    requires n <= |ps|
  {
    if n == 0 then Fresh
    else
      var st := Alone(ps, n - 1, answer);
      if st.Asks(ps[n - 1]) then st.Step(ps[n - 1], answer(n - 1)) else st
  }

  // ----- all messages, with the index lists of the code -----

  function SkipFor(p: Provider): MsgState -> bool {
    (st: MsgState) => st.x.Excludes(p)
  }

  function Found(): MsgState -> bool {
    (st: MsgState) => st.hit.Some?
  }

  function StepFor(p: Provider, r: Reply): (MsgState, nat) -> MsgState {
    (st: MsgState, q: nat) => st.Step(p, AnswerAt(r, q))
  }

  function IdsOf(ids: seq<string>, idx: seq<nat>): (r: seq<string>)
    requires Within(idx, |ids|)
    ensures |r| == |idx| && forall k :: 0 <= k < |idx| ==> r[k] == ids[idx[k]]
  {
    seq(|idx|, k requires 0 <= k < |idx| => ids[idx[k]])
  }

  /** net(k, ids) is what the k-th provider replies to a batch. Each provider is asked at most
      once, so any behaviour of the servers and connections is such a function. */
  type Net = (nat, seq<string>) -> Reply

  ghost predicate GoodNet(net: Net) {
    forall k: nat, ids: seq<string> :: ids != [] ==> GoodReply(ids, net(k, ids))
  }

  predicate Fits(g: Progress<MsgState>, ids: seq<string>) {
    |g.states| == |ids| && Within(g.unresolved, |ids|)
  }

  function Round(g: Progress<MsgState>, ids: seq<string>, p: Provider, net: Net, k: nat): (g': Progress<MsgState>)
    requires Fits(g, ids)
    ensures Fits(g', ids)
  {
    var qs := Asking(g.states, g.unresolved, SkipFor(p));
    if qs == [] then g
    else RoundOver(g.states, g.unresolved, [], SkipFor(p), Found(), StepFor(p, net(k, IdsOf(ids, qs))), 0)
  }

  function Start(n: nat): Progress<MsgState> {
    Progress(seq(n, _ => Fresh), seq(n, i => i))
  }

  /** After the first n providers. */
  function After(ids: seq<string>, ps: seq<Provider>, net: Net, n: nat): (g: Progress<MsgState>)
    requires n <= |ps|
    ensures Fits(g, ids)
  {
    if n == 0 then Start(|ids|) else Round(After(ids, ps, net, n - 1), ids, ps[n - 1], net, n - 1)
  }

  // ----- index bookkeeping -----

  /** The answer to message i among provider p's. */
  function Slot(g: Progress<MsgState>, ids: seq<string>, p: Provider, net: Net, k: nat, i: nat): Answer
    requires Fits(g, ids)
  {
    var qs := Asking(g.states, g.unresolved, SkipFor(p));
    if i in qs then AnswerAt(net(k, IdsOf(ids, qs)), IndexOf(qs, i)) else Missing
  }

  lemma RoundStep(g: Progress<MsgState>, ids: seq<string>, p: Provider, net: Net, k: nat, i: nat)
    requires Fits(g, ids) && Tracks(g, Found()) && i < |ids|
    ensures Round(g, ids, p, net, k).states[i]
         == if g.states[i].Asks(p) then g.states[i].Step(p, Slot(g, ids, p, net, k, i)) else g.states[i]
  {
    var qs := Asking(g.states, g.unresolved, SkipFor(p));
    RoundAt(g, SkipFor(p), Found(), StepFor(p, net(k, IdsOf(ids, qs))), i);
  }

  /** At all times the unresolved list names exactly the messages not found so far. */
  lemma {:induction false} AfterTracks(ids: seq<string>, ps: seq<Provider>, net: Net, n: nat)
    requires n <= |ps|
    ensures Tracks(After(ids, ps, net, n), Found())
  {
    if n == 0 {
      StartTracks(|ids|);
    } else {
      AfterTracks(ids, ps, net, n - 1);
      var g, p := After(ids, ps, net, n - 1), ps[n - 1];
      var qs := Asking(g.states, g.unresolved, SkipFor(p));
      RoundTracks(g, SkipFor(p), Found(), StepFor(p, net(n - 1, IdsOf(ids, qs))));
    }
  }

  lemma StartTracks(n: nat)
    ensures Tracks(Start(n), Found())
  {
    forall i: nat | i < n ensures i in Start(n).unresolved && !Found()(Start(n).states[i]) {
      assert Start(n).unresolved[i] == i;
    }
  }

  // ----- each message as if alone -----

  /** The answer to message i among the k-th provider's. */
  function AnswerTo(ids: seq<string>, ps: seq<Provider>, net: Net, i: nat, k: nat): Answer {
    if k < |ps| then Slot(After(ids, ps, net, k), ids, ps[k], net, k, i) else Missing
  }

  function OwnAnswers(ids: seq<string>, ps: seq<Provider>, net: Net, i: nat): nat -> Answer {
    (k: nat) => AnswerTo(ids, ps, net, i, k)
  }

  lemma AfterStep(ids: seq<string>, ps: seq<Provider>, net: Net, n: nat, i: nat)
    requires 0 < n <= |ps| && i < |ids|
    ensures var st, p := After(ids, ps, net, n - 1).states[i], ps[n - 1];
      After(ids, ps, net, n).states[i] == if st.Asks(p) then st.Step(p, AnswerTo(ids, ps, net, i, n - 1)) else st
  {
    RoundAfterStep(ids, ps, net, n - 1, i);
  }

  lemma RoundAfterStep(ids: seq<string>, ps: seq<Provider>, net: Net, k: nat, i: nat)
    requires k < |ps| && i < |ids|
    ensures var g, p := After(ids, ps, net, k), ps[k];
      Round(g, ids, p, net, k).states[i]
      == if g.states[i].Asks(p) then g.states[i].Step(p, Slot(g, ids, p, net, k, i)) else g.states[i]
  {
    AfterTracks(ids, ps, net, k);
    RoundStep(After(ids, ps, net, k), ids, ps[k], net, k, i);
  }

  /** Message i ends in the state it reaches alone on the answers in its own slots. */
  lemma {:induction false} EachAsIfAlone(ids: seq<string>, ps: seq<Provider>, net: Net, n: nat, i: nat)
    requires n <= |ps| && i < |ids|
    ensures After(ids, ps, net, n).states[i] == Alone(ps, n, OwnAnswers(ids, ps, net, i))
  {
    if n > 0 {
      EachAsIfAlone(ids, ps, net, n - 1, i);
      AfterStep(ids, ps, net, n, i);
      AloneStep(ids, ps, net, n, i);
    }
  }

  lemma AloneStep(ids: seq<string>, ps: seq<Provider>, net: Net, n: nat, i: nat)
    requires 0 < n <= |ps|
    ensures var own, p := OwnAnswers(ids, ps, net, i), ps[n - 1];
      var st := Alone(ps, n - 1, own);
      Alone(ps, n, own) == if st.Asks(p) then st.Step(p, AnswerTo(ids, ps, net, i, n - 1)) else st
  {
  }

  /** A hit is a reply to the message's own id. */
  lemma SlotIsOwn(ids: seq<string>, ps: seq<Provider>, net: Net, i: nat, k: nat)
    requires k < |ps| && i < |ids| && GoodNet(net)
    ensures var a := AnswerTo(ids, ps, net, i, k); a.Hit? ==> a.res == StatResult(ids[i], true, None)
  {
    var g := After(ids, ps, net, k);
    var qs := Asking(g.states, g.unresolved, SkipFor(ps[k]));
    if i in qs {
      assert GoodReply(IdsOf(ids, qs), net(k, IdsOf(ids, qs)));
    }
  }

  // ----- batching changes nothing -----

  /** Servers that look at each id by itself: what a message is told depends on the provider and
      on its id only, not on its slot or on the rest of the batch. */
  ghost predicate AnswersById(net: Net, answer: (nat, string) -> Answer) {
    forall k: nat, ids: seq<string>, j: nat :: j < |ids| ==> AnswerAt(net(k, ids), j) == answer(k, ids[j])
  }

  function AnswersFor(answer: (nat, string) -> Answer, id: string): nat -> Answer {
    (k: nat) => answer(k, id)
  }

  lemma SlotById(g: Progress<MsgState>, ids: seq<string>, p: Provider, net: Net, k: nat, i: nat,
                 answer: (nat, string) -> Answer)
    requires Fits(g, ids) && Tracks(g, Found()) && i < |ids| && g.states[i].Asks(p) && AnswersById(net, answer)
    ensures Slot(g, ids, p, net, k, i) == answer(k, ids[i])
  {
    var qs := Asking(g.states, g.unresolved, SkipFor(p));
    AskingMembers(g.states, g.unresolved, SkipFor(p), i);
    assert IdsOf(ids, qs)[IndexOf(qs, i)] == ids[i];
  }

  lemma {:induction false} AloneAgree(ps: seq<Provider>, n: nat, a: nat -> Answer, b: nat -> Answer)
    requires n <= |ps|
    requires forall k: nat :: k < n && Alone(ps, k, a).Asks(ps[k]) ==> a(k) == b(k)
    ensures Alone(ps, n, a) == Alone(ps, n, b)
  {
    if n > 0 {
      AloneAgree(ps, n - 1, a, b);
    }
  }

  lemma ByIdAlone(ids: seq<string>, ps: seq<Provider>, net: Net, n: nat, i: nat, answer: (nat, string) -> Answer)
    requires n <= |ps| && i < |ids| && AnswersById(net, answer)
    ensures After(ids, ps, net, n).states[i] == Alone(ps, n, AnswersFor(answer, ids[i]))
  {
    var own := OwnAnswers(ids, ps, net, i);
    forall k: nat | k < n && Alone(ps, k, own).Asks(ps[k]) ensures own(k) == answer(k, ids[i]) {
      EachAsIfAlone(ids, ps, net, k, i);
      AfterTracks(ids, ps, net, k);
      SlotById(After(ids, ps, net, k), ids, ps[k], net, k, i, answer);
    }
    AloneAgree(ps, n, own, AnswersFor(answer, ids[i]));
    EachAsIfAlone(ids, ps, net, n, i);
  }

  /** On such servers a message gets the verdict it gets in a batch of its own. */
  lemma BatchingChangesNothing(ids: seq<string>, ps: seq<Provider>, net: Net, i: nat, answer: (nat, string) -> Answer)
    requires i < |ids| && AnswersById(net, answer)
    ensures After(ids, ps, net, |ps|).states[i] == After([ids[i]], ps, net, |ps|).states[0]
  {
    ByIdAlone(ids, ps, net, |ps|, i, answer);
    ByIdAlone([ids[i]], ps, net, |ps|, 0, answer);
  }

  // ----- what the verdict means -----

  /** Provider k was asked about the message. */
  ghost predicate AskedAt(ps: seq<Provider>, answer: nat -> Answer, k: nat) {
    k < |ps| && Alone(ps, k, answer).Asks(ps[k])
  }

  lemma {:induction false} AloneMeaning(ps: seq<Provider>, n: nat, answer: nat -> Answer)
    requires n <= |ps|
    ensures var st := Alone(ps, n, answer);
      && (st.hit.Some? <==> exists k: nat :: k < n && AskedAt(ps, answer, k) && answer(k).Hit?)
      && (st.sawNotFound <==> exists k: nat :: k < n && AskedAt(ps, answer, k) && answer(k).Missing?)
      && (st.sawOther <==> exists k: nat :: k < n && AskedAt(ps, answer, k) && answer(k).Trouble?)
      && (st.sawOther <==> st.lastErr.Some?)
      && (st.lastErr.Some? ==> exists k: nat ::
            k < n && AskedAt(ps, answer, k) && answer(k) == Trouble(st.lastErr.value))
      && (st.hit.Some? ==> exists k: nat :: k < n && answer(k) == Hit(st.hit.value))
  {
    if n > 0 {
      AloneMeaning(ps, n - 1, answer);
      assert AskedAt(ps, answer, n - 1) <==> Alone(ps, n - 1, answer).Asks(ps[n - 1]);
    }
  }

  /** No failure to reach a provider reads as not-found. */
  ghost predicate CleanErrors(answer: nat -> Answer) {
    forall k: nat :: answer(k) != Trouble(Nntp(ArticleNotFound))
  }

  /** Some provider that was asked said not-found, and none gave it or any other error. */
  ghost predicate TrulyMissing(ps: seq<Provider>, answer: nat -> Answer) {
    && (exists k: nat :: AskedAt(ps, answer, k) && answer(k).Missing?)
    && (forall k: nat :: AskedAt(ps, answer, k) ==> answer(k).Missing?)
  }

  /** The last of the first n providers that were asked and gave an error is provider k. */
  ghost predicate LastTrouble(ps: seq<Provider>, answer: nat -> Answer, n: nat, k: nat) {
    && k < n && AskedAt(ps, answer, k) && answer(k).Trouble?
    && forall j: nat :: k < j < n && AskedAt(ps, answer, j) ==> !answer(j).Trouble?
  }

  lemma {:induction false} LastErrIsLastTrouble(ps: seq<Provider>, n: nat, answer: nat -> Answer, k: nat)
    requires n <= |ps| && LastTrouble(ps, answer, n, k)
    ensures Alone(ps, n, answer).lastErr == Some(answer(k).e)
  {
    assert AskedAt(ps, answer, n - 1) <==> Alone(ps, n - 1, answer).Asks(ps[n - 1]);
    if k < n - 1 {
      LastErrIsLastTrouble(ps, n - 1, answer, k);
    }
  }

  lemma {:induction false} SomeLastTrouble(ps: seq<Provider>, n: nat, answer: nat -> Answer) returns (k: nat)
    requires n <= |ps| && Alone(ps, n, answer).lastErr.Some?
    ensures LastTrouble(ps, answer, n, k)
  {
    assert AskedAt(ps, answer, n - 1) <==> Alone(ps, n - 1, answer).Asks(ps[n - 1]);
    if AskedAt(ps, answer, n - 1) && answer(n - 1).Trouble? {
      return n - 1;
    }
    k := SomeLastTrouble(ps, n - 1, answer);
  }

  ghost predicate SomeHit(ps: seq<Provider>, answer: nat -> Answer) {
    exists k: nat :: AskedAt(ps, answer, k) && answer(k).Hit?
  }

  /** The last provider that was asked and gave an error gave one that reads as not-found. */
  ghost predicate LastErrorMisleads(ps: seq<Provider>, answer: nat -> Answer) {
    exists k: nat :: LastTrouble(ps, answer, |ps|, k) && answer(k) == Trouble(Nntp(ArticleNotFound))
  }

  /** The report of a missing message is right if and only if some provider had the message or the
      last error that a provider gave does not read as not-found. */
  lemma MissingExactly(ps: seq<Provider>, answer: nat -> Answer, id: string)
    requires forall k: nat :: answer(k).Hit? ==> answer(k).res.error.None?
    ensures var reported := Alone(ps, |ps|, answer).Verdict(id).error == Some(Nntp(ArticleNotFound));
      (reported <==> TrulyMissing(ps, answer)) <==> SomeHit(ps, answer) || !LastErrorMisleads(ps, answer)
    ensures CleanErrors(answer) ==>
      (Alone(ps, |ps|, answer).Verdict(id).error == Some(Nntp(ArticleNotFound)) <==> TrulyMissing(ps, answer))
  {
    AloneMeaning(ps, |ps|, answer);
    var st := Alone(ps, |ps|, answer);
    assert forall k: nat :: AskedAt(ps, answer, k) ==> k < |ps|;
    if st.lastErr.Some? {
      var k := SomeLastTrouble(ps, |ps|, answer);
      LastErrIsLastTrouble(ps, |ps|, answer, k);
    }
    if k: nat :| LastTrouble(ps, answer, |ps|, k) && answer(k) == Trouble(Nntp(ArticleNotFound)) {
      LastErrIsLastTrouble(ps, |ps|, answer, k);
    }
  }

  /** A message is reported available exactly when a provider that was asked had it. */
  lemma AvailableExactly(ps: seq<Provider>, answer: nat -> Answer, id: string)
    requires forall k: nat :: answer(k).Hit? ==> answer(k).res.available
    ensures Alone(ps, |ps|, answer).Verdict(id).available <==> exists k: nat :: AskedAt(ps, answer, k) && answer(k).Hit?
  {
    AloneMeaning(ps, |ps|, answer);
    assert forall k: nat :: AskedAt(ps, answer, k) ==> k < |ps|;
  }

  /** A message that was not found and met with an error is reported with the last error that a provider
      that was asked gave; one that nobody was asked for as a connection error. */
  lemma LastErrorIsReported(ps: seq<Provider>, answer: nat -> Answer, id: string, k: nat)
    requires !SomeHit(ps, answer)
    ensures (&& AskedAt(ps, answer, k) && answer(k).Trouble?
             && (forall j: nat :: j > k && AskedAt(ps, answer, j) ==> !answer(j).Trouble?)) ==>
      Alone(ps, |ps|, answer).Verdict(id) == StatResult(id, false, Some(answer(k).e))
    ensures (forall j: nat :: !AskedAt(ps, answer, j)) ==>
      Alone(ps, |ps|, answer).Verdict(id) == StatResult(id, false, Some(Nntp(Connection)))
  {
    AloneMeaning(ps, |ps|, answer);
    if LastTrouble(ps, answer, |ps|, k) {
      LastErrIsLastTrouble(ps, |ps|, answer, k);
    }
  }

  /** A provider that answers the login with 430 makes every message look missing though no
      server was asked for one. */
  lemma LoginFailureLooksMissing(p: Provider, ids: seq<string>, i: nat)
    requires i < |ids|
    ensures var net: Net := (k: nat, ids: seq<string>) => Reply([], Some(Nntp(Classify(430))));
      GoodNet(net) && After(ids, [p], net, 1).states[i].Verdict(ids[i]).error == Some(Nntp(ArticleNotFound))
  {
    var net: Net := (k: nat, ids: seq<string>) => Reply([], Some(Nntp(Classify(430))));
    var answer: (nat, string) -> Answer := (k: nat, id: string) => Trouble(Nntp(ArticleNotFound));
    ByIdAlone(ids, [p], net, 1, i, answer);
    assert Alone([p], 0, AnswersFor(answer, ids[i])) == Fresh;
  }

  /** Every message gets a verdict of its own, available or with an error, never silence. */
  lemma EveryMessageAnswered(ids: seq<string>, ps: seq<Provider>, net: Net, i: nat)
    requires i < |ids| && GoodNet(net)
    ensures var v := After(ids, ps, net, |ps|).states[i].Verdict(ids[i]);
      v.id == ids[i] && (v.available <==> v.error.None?)
  {
    var own := OwnAnswers(ids, ps, net, i);
    EachAsIfAlone(ids, ps, net, |ps|, i);
    AloneMeaning(ps, |ps|, own);
    var st := Alone(ps, |ps|, own);
    if st.hit.Some? {
      var k: nat :| k < |ps| && own(k) == Hit(st.hit.value);
      SlotIsOwn(ids, ps, net, i, k);
    }
  }

  // ----- the code -----

  function Verdicts(g: Progress<MsgState>, ids: seq<string>): (r: seq<StatResult>)
    requires |g.states| == |ids|
  {
    seq(|ids|, i requires 0 <= i < |ids| => g.states[i].Verdict(ids[i]))
  }

  /** A round that finds nothing unresolved changes nothing. */
  lemma {:induction false} SettledStays(ids: seq<string>, ps: seq<Provider>, net: Net, k: nat, n: nat)
    requires k <= n <= |ps| && After(ids, ps, net, k).unresolved == []
    ensures After(ids, ps, net, n) == After(ids, ps, net, k)
  {
    if k < n {
      SettledStays(ids, ps, net, k, n - 1);
    }
  }

  /** The context is seen to have ended before the k-th provider is asked. */
  ghost predicate Interrupted(ids: seq<string>, ps: seq<Provider>, net: Net, ctxDone: nat -> bool, k: nat) {
    k < |ps| && ctxDone(k) && After(ids, ps, net, k).unresolved != []
  }

  lemma LoopDone(ids: seq<string>, ps: seq<Provider>, net: Net, ctxDone: nat -> bool, n: nat)
    requires n <= |ps| && (n < |ps| ==> After(ids, ps, net, n).unresolved == [])
    requires forall k: nat :: k < n ==> !Interrupted(ids, ps, net, ctxDone, k)
    ensures After(ids, ps, net, |ps|) == After(ids, ps, net, n)
    ensures forall k: nat :: !Interrupted(ids, ps, net, ctxDone, k)
  {
    if n < |ps| {
      SettledStays(ids, ps, net, n, |ps|);
      forall k: nat | n <= k < |ps| ensures !Interrupted(ids, ps, net, ctxDone, k) {
        SettledStays(ids, ps, net, n, k);
      }
    }
  }

  method BatchStatAcrossProviders(ids: seq<string>, ps: seq<Provider>, net: Net, ctxDone: nat -> bool)
    returns (results: seq<StatResult>, err: Option<Error>)
    requires GoodNet(net)
    ensures err.Some? <==> exists k: nat :: Interrupted(ids, ps, net, ctxDone, k)
    ensures err.Some? ==> err.value == Plain
    ensures err.None? ==> results == Verdicts(After(ids, ps, net, |ps|), ids)
  {
    var states := seq(|ids|, _ => Fresh);
    var unresolved: seq<nat> := seq(|ids|, i => i);
    results := [];
    var n := 0;
    while n < |ps| && unresolved != []
      invariant n <= |ps|
      invariant Progress(states, unresolved) == After(ids, ps, net, n)
      invariant forall k: nat :: k < n ==> !Interrupted(ids, ps, net, ctxDone, k)
      decreases |ps| - n
    {
      if ctxDone(n) {
        assert Interrupted(ids, ps, net, ctxDone, n);
        return results, Some(Plain);
      }
      states, unresolved := AskProvider(ids, states, unresolved, ps, net, n);
      n := n + 1;
    }
    LoopDone(ids, ps, net, ctxDone, n);
    results := Conclude(states, ids);
    err := None;
  }

  /** The last loop: a verdict for each message. */
  method Conclude(states: seq<MsgState>, ids: seq<string>) returns (results: seq<StatResult>)
    requires |states| == |ids|
    ensures |results| == |ids| && forall j :: 0 <= j < |ids| ==> results[j] == states[j].Verdict(ids[j])
  {
    results := [];
    for i := 0 to |ids|
      invariant |results| == i
      invariant forall j :: 0 <= j < i ==> results[j] == states[j].Verdict(ids[j])
    {
      results := results + [states[i].Verdict(ids[i])];
    }
  }

  /** The body of the provider loop. */
  method AskProvider(ids: seq<string>, states0: seq<MsgState>, unresolved: seq<nat>, ps: seq<Provider>, net: Net,
                     k: nat)
    returns (states: seq<MsgState>, next: seq<nat>)
    requires GoodNet(net) && k < |ps| && Progress(states0, unresolved) == After(ids, ps, net, k)
    ensures Progress(states, next) == After(ids, ps, net, k + 1)
  {
    AfterTracks(ids, ps, net, k);
    var p := ps[k];
    var queryIdxs, chunkIDs := BuildQuery(ids, states0, unresolved, p);
    if queryIdxs == [] {
      return states0, unresolved;
    }
    var reply := net(k, chunkIDs);
    assert GoodReply(chunkIDs, reply);
    if reply.error.Some? && reply.results == [] {
      states := MarkFailed(states0, unresolved, queryIdxs, p, reply);
      next := unresolved;
    } else {
      states, next := ReadReply(states0, unresolved, p, reply);
    }
  }

  lemma Associate(a: seq<nat>, b: seq<nat>, c: seq<nat>)
    ensures a + (b + c) == a + b + c
  {
  }

  lemma AskingStep(states: seq<MsgState>, unresolved: seq<nat>, pos: nat, skip: MsgState -> bool, before: seq<nat>)
    requires Within(unresolved, |states|) && pos < |unresolved|
    ensures before + Asking(states, unresolved[pos..], skip)
         == (if skip(states[unresolved[pos]]) then before else before + [unresolved[pos]])
            + Asking(states, unresolved[pos + 1..], skip)
  {
    var head := if skip(states[unresolved[pos]]) then [] else [unresolved[pos]];
    var rest := Asking(states, unresolved[pos + 1..], skip);
    AskingFrom(states, unresolved, pos, skip);
    Associate(before, head, rest);
    assert before + [] == before;
  }

  method BuildQuery(ids: seq<string>, states: seq<MsgState>, unresolved: seq<nat>, p: Provider)
    returns (queryIdxs: seq<nat>, chunkIDs: seq<string>)
    requires Fits(Progress(states, unresolved), ids)
    ensures queryIdxs == Asking(states, unresolved, SkipFor(p)) && chunkIDs == IdsOf(ids, queryIdxs)
  {
    queryIdxs, chunkIDs := [], [];
    var skip := SkipFor(p);
    ghost var all := Asking(states, unresolved, skip);
    assert unresolved[0..] == unresolved;
    for pos := 0 to |unresolved|
      invariant all == queryIdxs + Asking(states, unresolved[pos..], skip)
      invariant Within(queryIdxs, |ids|) && |chunkIDs| == |queryIdxs|
      invariant forall j :: 0 <= j < |queryIdxs| ==> chunkIDs[j] == ids[queryIdxs[j]]
    {
      AskingStep(states, unresolved, pos, skip, queryIdxs);
      var idx := unresolved[pos];
      if skip(states[idx]) {
        continue;
      }
      queryIdxs := queryIdxs + [idx];
      chunkIDs := chunkIDs + [ids[idx]];
    }
    assert unresolved[|unresolved|..] == [];
  }

  /** What a reply that is only an error e does to a message. */
  function FailFor(p: Provider, e: Error): MsgState -> MsgState {
    (st: MsgState) => st.Step(p, Trouble(e))
  }

  lemma RoundFails(states: seq<MsgState>, unresolved: seq<nat>, p: Provider, reply: Reply)
    requires Tracks(Progress(states, unresolved), Found()) && reply.results == [] && reply.error.Some?
    ensures RoundOver(states, unresolved, [], SkipFor(p), Found(), StepFor(p, reply), 0)
         == Progress(FailAll(states, Asking(states, unresolved, SkipFor(p)), FailFor(p, reply.error.value)), unresolved)
  {
    var fail, step := FailFor(p, reply.error.value), StepFor(p, reply);
    forall st: MsgState, q: nat
      ensures step(st, q) == fail(st)
    {
      assert AnswerAt(reply, q) == Trouble(reply.error.value);
    }
    forall k | 0 <= k < |unresolved|
      ensures !Found()(fail(states[unresolved[k]]))
    {
      assert unresolved[k] in unresolved;
    }
    FailedRound(states, unresolved, [], SkipFor(p), Found(), step, 0, fail);
    assert [] + unresolved == unresolved;
  }

  /** The whole batch failed: every message in it has seen another error. */
  method MarkFailed(states0: seq<MsgState>, unresolved: seq<nat>, queryIdxs: seq<nat>, p: Provider, reply: Reply)
    returns (states: seq<MsgState>)
    requires Tracks(Progress(states0, unresolved), Found())
    requires queryIdxs == Asking(states0, unresolved, SkipFor(p)) && reply.results == [] && reply.error.Some?
    ensures RoundOver(states0, unresolved, [], SkipFor(p), Found(), StepFor(p, reply), 0) ==
        Progress(states, unresolved)
  {
    states := states0;
    ghost var fail := FailFor(p, reply.error.value);
    RoundFails(states, unresolved, p, reply);
    for pos := 0 to |queryIdxs|
      invariant |states| == |states0|
      invariant FailAll(states, queryIdxs[pos..], fail) == FailAll(states0, queryIdxs, fail)
    {
      var idx := queryIdxs[pos];
      assert queryIdxs[pos..][0] == idx && queryIdxs[pos..][1..] == queryIdxs[pos + 1..];
      states := states[idx := states[idx].(sawOther := true, lastErr := reply.error)];
    }
  }

  /** The loop over the unresolved messages beside the reply, with its two positions. */
  method ReadReply(states0: seq<MsgState>, unresolved: seq<nat>, p: Provider, reply: Reply)
    returns (states: seq<MsgState>, next: seq<nat>)
    requires Within(unresolved, |states0|)
    ensures RoundOver(states0, unresolved, [], SkipFor(p), Found(), StepFor(p, reply), 0) == Progress(states, next)
  {
    states, next := states0, [];
    var queryPos := 0;
    for pos := 0 to |unresolved|
      invariant |states| == |states0| && Within(next, |states|)
      invariant RoundOver(states, unresolved[pos..], next, SkipFor(p), Found(), StepFor(p, reply), queryPos)
             == RoundOver(states0, unresolved, [], SkipFor(p), Found(), StepFor(p, reply), 0)
    {
      var idx := unresolved[pos];
      assert unresolved[pos..][0] == idx && unresolved[pos..][1..] == unresolved[pos + 1..];
      if states[idx].x.Excludes(p) {
        next := next + [idx];
        continue;
      }
      var st := ReadSlot(states[idx], p, reply, queryPos);
      queryPos := queryPos + 1;
      states := states[idx := st];
      if st.hit.Some? {
        continue;
      }
      next := next + [idx];
    }
  }

  /** One message's answer: the branches of the loop body. Once the slots have run out, a
      further advance of the position makes no difference. */
  method ReadSlot(st0: MsgState, p: Provider, reply: Reply, queryPos: nat) returns (st: MsgState)
    ensures st == st0.Step(p, AnswerAt(reply, queryPos))
  {
    st := st0;
    if queryPos >= |reply.results| {
      return st.(sawOther := true, lastErr := Some(if reply.error.Some? then reply.error.value else Lost));
    }
    var res := reply.results[queryPos];
    if res.available {
      return st.(hit := Some(res));
    }
    if res.error == Some(Nntp(ArticleNotFound)) {
      return st.(sawNotFound := true, x := st.x.ExcludeForNotFound(p));
    }
    var e := if res.error.Some? then res.error.value else if reply.error.Some? then reply.error.value else Lost;
    st := st.(sawOther := true, lastErr := Some(e));
  }
}
