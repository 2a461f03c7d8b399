/** What the verdicts of a batched check say about the codes that the servers sent. */
module StatCodes {
  import opened Wrappers
  import opened Nntp
  import opened IndexRound
  import opened BatchStat

  /** wires(k, batch) is what asking the k-th provider for a batch comes to. */
  type Wires = (nat, seq<string>) -> Wire

  ghost function NetOf(wires: Wires): Net {
    (k: nat, ids: seq<string>) => ReplyTo(ids, wires(k, ids))
  }

  lemma ReplyIsGood(ids: seq<string>, w: Wire)
    requires ids != []
    ensures GoodReply(ids, ReplyTo(ids, w))
  {
  }

  lemma NetIsGood(wires: Wires)
    ensures GoodNet(NetOf(wires))
  {
    forall k: nat, ids: seq<string> | ids != []
      ensures GoodReply(ids, NetOf(wires)(k, ids))
    {
      ReplyIsGood(ids, wires(k, ids));
    }
  }

  /** Of a batch of n messages all went out, and the response in slot j was read and had code c. */
  ghost predicate Told(w: Wire, n: nat, j: nat, c: int) {
    && w.Served? && (forall i: nat :: i < n ==> w.sends(i)) && (forall i: nat :: i <= j ==> w.codes(i).Some?)
    && w.codes(j) == Some(c)
  }

  /** A message is taken for found exactly at code 223, for missing exactly at 430 and 423, and for
      undecided at every other code, after a loss, and without a connection. */
  lemma AnswerOfCode(ids: seq<string>, w: Wire, j: nat)
    requires j < |ids|
    ensures var a := AnswerAt(ReplyTo(ids, w), j);
      && (a.Hit? <==> Told(w, |ids|, j, 223))
      && (a.Missing? <==> Told(w, |ids|, j, 430) || Told(w, |ids|, j, 423))
      && (a.Trouble? <==> forall c :: Told(w, |ids|, j, c) ==> c !in {223, 430, 423})
      && (a.Hit? ==> a.res == StatResult(ids[j], true, None))
      && (a.Trouble? && w.Refused? ==> a.e == w.e)
      && (a.Trouble? && w.Served? && (forall c :: !Told(w, |ids|, j, c)) ==> a.e == Nntp(Connection))
      && (forall c :: a.Trouble? && Told(w, |ids|, j, c) ==> a.e != Nntp(ArticleNotFound))
  {
    if w.Served? && AllSent(w, |ids|) && ReadUpTo(w, j) {
      assert Told(w, |ids|, j, w.codes(j).value);
      CodesMean(w.codes(j).value);
    }
  }

  // ----- in the batches that are sent -----

  /** The messages that the k-th provider is asked for. */
  function Batch(ids: seq<string>, ps: seq<Provider>, net: Net, k: nat): seq<string>
    requires k < |ps|
  {
    var g := After(ids, ps, net, k);
    IdsOf(ids, Asking(g.states, g.unresolved, SkipFor(ps[k])))
  }

  /** In the batch of the k-th provider, some slot of this id was told code c. */
  ghost predicate ToldBy(ids: seq<string>, ps: seq<Provider>, wires: Wires, k: nat, id: string, c: int) {
    k < |ps| &&
    var b := Batch(ids, ps, NetOf(wires), k);
    exists j: nat :: j < |b| && b[j] == id && Told(wires(k, b), |b|, j, c)
  }

  lemma AskedSlot(ids: seq<string>, ps: seq<Provider>, wires: Wires, i: nat, k: nat) returns (j: nat)
    requires i < |ids| && AskedAt(ps, OwnAnswers(ids, ps, NetOf(wires), i), k)
    ensures var b := Batch(ids, ps, NetOf(wires), k);
      && j < |b| && b[j] == ids[i]
      && OwnAnswers(ids, ps, NetOf(wires), i)(k) == AnswerAt(ReplyTo(b, wires(k, b)), j)
  {
    var net := NetOf(wires);
    var g := After(ids, ps, net, k);
    EachAsIfAlone(ids, ps, net, k, i);
    AfterTracks(ids, ps, net, k);
    AskingMembers(g.states, g.unresolved, SkipFor(ps[k]), i);
    j := IndexOf(Asking(g.states, g.unresolved, SkipFor(ps[k])), i);
  }

  ghost function Final(ids: seq<string>, ps: seq<Provider>, wires: Wires, i: nat): StatResult
    requires i < |ids|
  {
    After(ids, ps, NetOf(wires), |ps|).states[i].Verdict(ids[i])
  }

  lemma FinalIsAlone(ids: seq<string>, ps: seq<Provider>, wires: Wires, i: nat) returns (own: nat -> Answer)
    requires i < |ids|
    ensures own == OwnAnswers(ids, ps, NetOf(wires), i)
    ensures Final(ids, ps, wires, i) == Alone(ps, |ps|, own).Verdict(ids[i])
  {
    own := OwnAnswers(ids, ps, NetOf(wires), i);
    EachAsIfAlone(ids, ps, NetOf(wires), |ps|, i);
  }

  lemma AskedTold(ids: seq<string>, ps: seq<Provider>, wires: Wires, i: nat, k: nat)
    requires i < |ids| && AskedAt(ps, OwnAnswers(ids, ps, NetOf(wires), i), k)
    ensures var a := OwnAnswers(ids, ps, NetOf(wires), i)(k);
      && (a.Hit? ==> ToldBy(ids, ps, wires, k, ids[i], 223))
      && (a.Missing? ==> ToldBy(ids, ps, wires, k, ids[i], 430) || ToldBy(ids, ps, wires, k, ids[i], 423))
      && (a == Trouble(Nntp(ArticleNotFound)) ==>
            wires(k, Batch(ids, ps, NetOf(wires), k)) == Refused(Nntp(ArticleNotFound)))
  {
    var j := AskedSlot(ids, ps, wires, i, k);
    var b := Batch(ids, ps, NetOf(wires), k);
    AnswerOfCode(b, wires(k, b), j);
    var w := wires(k, b);
    if w.Served? && forall c :: !Told(w, |b|, j, c) {
    } else if w.Served? {
      var c :| Told(w, |b|, j, c);
    }
  }

  /** An available message was answered with 223 by a provider that was asked for it. */
  lemma AvailableFromCode(ids: seq<string>, ps: seq<Provider>, wires: Wires, i: nat)
    requires i < |ids|
    ensures Final(ids, ps, wires, i).available ==> exists k: nat :: ToldBy(ids, ps, wires, k, ids[i], 223)
  {
    var own := FinalIsAlone(ids, ps, wires, i);
    AloneMeaning(ps, |ps|, own);
    if k: nat :| k < |ps| && AskedAt(ps, own, k) && own(k).Hit? {
      AskedTold(ids, ps, wires, i, k);
    }
  }

  /** A missing message was answered with 430 or 423 by a provider that was asked for it, unless a
      provider was out of reach with an error that reads as not-found. */
  lemma MissingFromCode(ids: seq<string>, ps: seq<Provider>, wires: Wires, i: nat)
    requires i < |ids|
    ensures Final(ids, ps, wires, i).error == Some(Nntp(ArticleNotFound)) ==>
      || (exists k: nat :: ToldBy(ids, ps, wires, k, ids[i], 430) || ToldBy(ids, ps, wires, k, ids[i], 423))
      || (exists k: nat :: k < |ps| && wires(k, Batch(ids, ps, NetOf(wires), k)) == Refused(Nntp(ArticleNotFound)))
  {
    var own := FinalIsAlone(ids, ps, wires, i);
    AloneMeaning(ps, |ps|, own);
    var st := Alone(ps, |ps|, own);
    if k: nat :| k < |ps| && AskedAt(ps, own, k) && own(k).Missing? {
      AskedTold(ids, ps, wires, i, k);
    } else if k: nat :| k < |ps| && AskedAt(ps, own, k) && own(k) == Trouble(Nntp(ArticleNotFound)) {
      AskedTold(ids, ps, wires, i, k);
    } else if st.hit.Some? {
      NetIsGood(wires);
      var k: nat :| k < |ps| && own(k) == Hit(st.hit.value);
      SlotIsOwn(ids, ps, NetOf(wires), i, k);
    }
  }

  // ----- what the servers say decides -----

  /** Whatever the batch, provider k answers this id with c. */
  ghost predicate AlwaysTells(wires: Wires, k: nat, id: string, c: int) {
    forall b: seq<string>, j: nat :: j < |b| && b[j] == id ==> Told(wires(k, b), |b|, j, c)
  }

  /** Whatever the batch, provider k answers this id with none of these codes. */
  ghost predicate NeverTells(wires: Wires, k: nat, id: string, codes: set<int>) {
    forall b: seq<string>, j: nat, c: int :: j < |b| && b[j] == id && c in codes ==> !Told(wires(k, b), |b|, j, c)
  }

  /** No other provider is on the host or the backbone of p. */
  ghost predicate IsApart(ps: seq<Provider>, g: nat)
    requires g < |ps|
  {
    var b := NormalizeBackbone(ps[g].backbone);
    forall k :: 0 <= k < |ps| && k != g ==>
      ps[k].host != ps[g].host && (b == "" || NormalizeBackbone(ps[k].backbone) != b)
  }

  lemma {:induction false} ApartIsAsked(ps: seq<Provider>, n: nat, answer: nat -> Answer, g: nat)
    requires n <= g < |ps| && IsApart(ps, g)
    ensures !Alone(ps, n, answer).x.Excludes(ps[g])
  {
    if n > 0 {
      ApartIsAsked(ps, n - 1, answer, g);
      NotFoundExcludesExactly(Alone(ps, n - 1, answer).x, ps[n - 1], ps[g]);
    }
  }

  /** A provider apart from the others is asked, unless the message has been found before. */
  lemma ApartIsReached(ps: seq<Provider>, answer: nat -> Answer, g: nat)
    requires g < |ps| && IsApart(ps, g)
    ensures AskedAt(ps, answer, g) || exists k: nat :: k < g && AskedAt(ps, answer, k) && answer(k).Hit?
  {
    ApartIsAsked(ps, g, answer, g);
    AloneMeaning(ps, g, answer);
  }

  /** What one provider, apart from the others, always has is available. */
  lemma HadIsAvailable(ids: seq<string>, ps: seq<Provider>, wires: Wires, i: nat, g: nat)
    requires i < |ids| && g < |ps| && IsApart(ps, g) && AlwaysTells(wires, g, ids[i], 223)
    ensures Final(ids, ps, wires, i) == StatResult(ids[i], true, None)
  {
    var own := FinalIsAlone(ids, ps, wires, i);
    ApartIsReached(ps, own, g);
    if AskedAt(ps, own, g) {
      var j := AskedSlot(ids, ps, wires, i, g);
      AnswerOfCode(Batch(ids, ps, NetOf(wires), g), wires(g, Batch(ids, ps, NetOf(wires), g)), j);
    }
    AloneMeaning(ps, |ps|, own);
    var k: nat :| k < |ps| && own(k) == Hit(Alone(ps, |ps|, own).hit.value);
    NetIsGood(wires);
    SlotIsOwn(ids, ps, NetOf(wires), i, k);
  }

  lemma ToldMissing(ids: seq<string>, ps: seq<Provider>, wires: Wires, i: nat, k: nat)
    requires i < |ids| && AskedAt(ps, OwnAnswers(ids, ps, NetOf(wires), i), k)
    requires AlwaysTells(wires, k, ids[i], 430) || AlwaysTells(wires, k, ids[i], 423)
    ensures OwnAnswers(ids, ps, NetOf(wires), i)(k).Missing?
  {
    var j := AskedSlot(ids, ps, wires, i, k);
    var b := Batch(ids, ps, NetOf(wires), k);
    AnswerOfCode(b, wires(k, b), j);
    assert Told(wires(k, b), |b|, j, 430) || Told(wires(k, b), |b|, j, 423);
  }

  /** What every provider always answers with 430 or 423 is missing. */
  lemma NowhereIsMissing(ids: seq<string>, ps: seq<Provider>, wires: Wires, i: nat)
    requires i < |ids| && ps != []
    requires forall k: nat :: k < |ps| ==> AlwaysTells(wires, k, ids[i], 430) || AlwaysTells(wires, k, ids[i], 423)
    ensures Final(ids, ps, wires, i) == StatResult(ids[i], false, Some(Nntp(ArticleNotFound)))
  {
    var own := FinalIsAlone(ids, ps, wires, i);
    forall k: nat | AskedAt(ps, own, k)
      ensures own(k).Missing?
    {
      ToldMissing(ids, ps, wires, i, k);
    }
    AloneMeaning(ps, |ps|, own);
    assert AskedAt(ps, own, 0);
  }

  /** A provider apart from the others that never gives a definite answer, be it that the connection is
      lost, keeps the message from being reported missing. */
  lemma UndecidedIsNotMissing(ids: seq<string>, ps: seq<Provider>, wires: Wires, i: nat, g: nat)
    requires i < |ids| && g < |ps| && IsApart(ps, g) && NeverTells(wires, g, ids[i], {223, 430, 423})
    requires forall k: nat, b: seq<string> :: wires(k, b) != Refused(Nntp(ArticleNotFound))
    ensures Final(ids, ps, wires, i).error != Some(Nntp(ArticleNotFound))
  {
    var own := FinalIsAlone(ids, ps, wires, i);
    ApartIsReached(ps, own, g);
    AloneMeaning(ps, |ps|, own);
    if AskedAt(ps, own, g) {
      var j := AskedSlot(ids, ps, wires, i, g);
      AnswerOfCode(Batch(ids, ps, NetOf(wires), g), wires(g, Batch(ids, ps, NetOf(wires), g)), j);
    }
    var st := Alone(ps, |ps|, own);
    if st.hit.Some? {
      var k: nat :| k < |ps| && own(k) == Hit(st.hit.value);
      NetIsGood(wires);
      SlotIsOwn(ids, ps, NetOf(wires), i, k);
    } else {
      var k: nat :| k < |ps| && AskedAt(ps, own, k) && own(k) == Trouble(st.lastErr.value);
      AskedTold(ids, ps, wires, i, k);
    }
  }

  /** When the connection to the only provider is lost before the first response, every message is
      reported with that error. */
  lemma LostIsReported(ids: seq<string>, p: Provider, wires: Wires, i: nat)
    requires i < |ids|
    requires forall b: seq<string> :: wires(0, b).Served? && wires(0, b).codes(0).None?
    ensures Final(ids, [p], wires, i) == StatResult(ids[i], false, Some(Nntp(Connection)))
  {
    var own := FinalIsAlone(ids, [p], wires, i);
    assert Alone([p], 0, own) == Fresh;
    assert AskedAt([p], own, 0);
    var j := AskedSlot(ids, [p], wires, i, 0);
    AnswerOfCode(Batch(ids, [p], NetOf(wires), 0), wires(0, Batch(ids, [p], NetOf(wires), 0)), j);
  }

  // ----- nobody is asked twice -----

  /** Once a provider has said that a message is missing, no other provider on the same backbone is asked
      for it. */
  lemma NotAskedAgain(ps: seq<Provider>, answer: nat -> Answer, k: nat, m: nat)
    requires k < m < |ps| && AskedAt(ps, answer, k) && answer(k).Missing?
    requires NormalizeBackbone(ps[m].backbone) == NormalizeBackbone(ps[k].backbone) != ""
    ensures !AskedAt(ps, answer, m)
  {
    NotFoundExcludesExactly(Alone(ps, k, answer).x, ps[k], ps[m]);
    StaysExcluded(ps, answer, k + 1, m, ps[m]);
  }

  lemma {:induction false} StaysExcluded(ps: seq<Provider>, answer: nat -> Answer, k: nat, m: nat, p: Provider)
    requires k <= m <= |ps| && Alone(ps, k, answer).x.Excludes(p)
    ensures Alone(ps, m, answer).x.Excludes(p)
  {
    if k < m {
      StaysExcluded(ps, answer, k, m - 1, p);
      NotFoundExcludesExactly(Alone(ps, m - 1, answer).x, ps[m - 1], p);
    }
  }

  /** The same in the batches: it is in none of theirs. */
  lemma NotInBatchAgain(ids: seq<string>, ps: seq<Provider>, wires: Wires, i: nat, k: nat, m: nat)
    requires i < |ids| && k < m < |ps| && NormalizeBackbone(ps[m].backbone) == NormalizeBackbone(ps[k].backbone) != ""
    requires AskedAt(ps, OwnAnswers(ids, ps, NetOf(wires), i), k)
    requires AlwaysTells(wires, k, ids[i], 430) || AlwaysTells(wires, k, ids[i], 423)
    ensures var g := After(ids, ps, NetOf(wires), m); i !in Asking(g.states, g.unresolved, SkipFor(ps[m]))
  {
    var own, g := OwnAnswers(ids, ps, NetOf(wires), i), After(ids, ps, NetOf(wires), m);
    ToldMissing(ids, ps, wires, i, k);
    NotAskedAgain(ps, own, k, m);
    EachAsIfAlone(ids, ps, NetOf(wires), m, i);
    AfterTracks(ids, ps, NetOf(wires), m);
    AskingMembers(g.states, g.unresolved, SkipFor(ps[m]), i);
  }
}
