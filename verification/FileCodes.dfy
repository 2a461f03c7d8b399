/** What the verdict on a file says about the codes that the servers sent for its segments. */
module FileCodes {
  import opened Wrappers
  import opened Nntp
  import opened BatchStat
  import opened StatCodes
  import opened CheckFile

  /** For each chunk, what asking each provider for a batch of it comes to. */
  ghost predicate OverWires(fate: nat -> Fate, wires: nat -> Wires) {
    forall c: nat :: fate(c).net == NetOf(wires(c))
  }

  lemma WiresAreGood(fate: nat -> Fate, wires: nat -> Wires)
    requires OverWires(fate, wires)
    ensures forall c: nat :: GoodNet(fate(c).net)
  {
    forall c: nat
      ensures GoodNet(fate(c).net)
    {
      NetIsGood(wires(c));
    }
  }

  /** The chunk of a message was taken by a worker, and the context did not end. */
  ghost predicate Undisturbed(f: Fate) { !f.dropped && forall k: nat :: !f.ctxDone(k) }

  lemma VerdictIsFinal(ids: seq<string>, ps: seq<Provider>, fate: nat -> Fate, wires: nat -> Wires, i: nat)
    requires i < |ids| && OverWires(fate, wires)
    ensures i / 50 < ChunkCount(|ids|) && i % 50 < |ChunkIds(ids, i / 50)| && ChunkIds(ids, i / 50)[i % 50] == ids[i]
    ensures var v := VerdictOn(ids, ps, fate, i);
      && (Undisturbed(fate(i / 50)) ==> v == Final(ChunkIds(ids, i / 50), ps, wires(i / 50), i % 50))
      && (fate(i / 50).dropped ==> v == StatResult(ids[i], false, Some(Plain)))
      && (v == StatResult(ids[i], false, Some(Plain)) || v == Final(ChunkIds(ids, i / 50), ps, wires(i / 50), i % 50))
  {
    ChunkOf(|ids|, i);
  }

  /** A segment's verdict is not-found only if some provider answered with 430 or 423 when it was asked
      for it in its chunk, or one was out of reach with an error that reads as not-found. */
  lemma MissingWasTold(ids: seq<string>, ps: seq<Provider>, fate: nat -> Fate, wires: nat -> Wires, i: nat)
    requires i < |ids| && OverWires(fate, wires) && i / 50 < ChunkCount(|ids|)
    ensures VerdictOn(ids, ps, fate, i).error == Some(Nntp(ArticleNotFound)) ==>
      var c, b := i / 50, ChunkIds(ids, i / 50);
      || (exists k: nat :: ToldBy(b, ps, wires(c), k, ids[i], 430) || ToldBy(b, ps, wires(c), k, ids[i], 423))
      || (exists k: nat :: k < |ps| && wires(c)(k, Batch(b, ps, NetOf(wires(c)), k)) == Refused(Nntp(ArticleNotFound)))
  {
    VerdictIsFinal(ids, ps, fate, wires, i);
    MissingFromCode(ChunkIds(ids, i / 50), ps, wires(i / 50), i % 50);
  }

  /** A segment that all providers always answer with 430 or 423 has that verdict, if its chunk is
      checked at all. */
  lemma NowhereIsToldMissing(ids: seq<string>, ps: seq<Provider>, fate: nat -> Fate, wires: nat -> Wires, i: nat)
    requires i < |ids| && OverWires(fate, wires) && ps != [] && Undisturbed(fate(i / 50))
    requires forall k: nat :: k < |ps| ==>
      AlwaysTells(wires(i / 50), k, ids[i], 430) || AlwaysTells(wires(i / 50), k, ids[i], 423)
    ensures VerdictOn(ids, ps, fate, i) == StatResult(ids[i], false, Some(Nntp(ArticleNotFound)))
  {
    VerdictIsFinal(ids, ps, fate, wires, i);
    NowhereIsMissing(ChunkIds(ids, i / 50), ps, wires(i / 50), i % 50);
  }

  /** A segment that one provider, apart from the others, always answers with 223 is available, if its
      chunk is checked at all. */
  lemma HadIsToldAvailable(ids: seq<string>, ps: seq<Provider>, fate: nat -> Fate, wires: nat -> Wires, i: nat, g: nat)
    requires i < |ids| && OverWires(fate, wires) && Undisturbed(fate(i / 50))
    requires g < |ps| && IsApart(ps, g) && AlwaysTells(wires(i / 50), g, ids[i], 223)
    ensures VerdictOn(ids, ps, fate, i) == StatResult(ids[i], true, None)
  {
    VerdictIsFinal(ids, ps, fate, wires, i);
    HadIsAvailable(ChunkIds(ids, i / 50), ps, wires(i / 50), i % 50, g);
  }

  /** Every provider always says that it does not have the message. */
  ghost predicate LackedByAll(ps: seq<Provider>, wires: Wires, id: string) {
    ps != [] && forall k: nat :: k < |ps| ==> AlwaysTells(wires, k, id, 430) || AlwaysTells(wires, k, id, 423)
  }

  /** Some provider, apart from the others, always says that it has the message. */
  ghost predicate HadBySome(ps: seq<Provider>, wires: Wires, id: string) {
    exists g: nat :: g < |ps| && IsApart(ps, g) && AlwaysTells(wires, g, id, 223)
  }

  /** A full check reports a file missing when some segment is lacked by all, and available when every
      segment is had by some. */
  method FullCheck(ids: seq<string>, ps: seq<Provider>, fate: nat -> Fate, ghost wires: nat -> Wires, order: seq<nat>)
    returns (missing: bool)
    requires OverWires(fate, wires) && forall c: nat :: Undisturbed(fate(c))
    requires forall c: nat :: c in order <==> c < ChunkCount(|ids|)
    ensures (exists i: nat :: i < |ids| && LackedByAll(ps, wires(i / 50), ids[i])) ==> missing
    ensures (forall i: nat :: i < |ids| ==> HadBySome(ps, wires(i / 50), ids[i])) ==> !missing
  {
    WiresAreGood(fate, wires);
    FullSample(ids);
    missing := CheckFileAvailability(ids, 100, ps, fate, order, false);
    forall i: nat | i < |ids|
      ensures LackedByAll(ps, wires(i / 50), ids[i]) ==>
        VerdictOn(ids, ps, fate, i).error == Some(Nntp(ArticleNotFound))
      ensures HadBySome(ps, wires(i / 50), ids[i]) ==> VerdictOn(ids, ps, fate, i).error == None
    {
      if LackedByAll(ps, wires(i / 50), ids[i]) {
        NowhereIsToldMissing(ids, ps, fate, wires, i);
      }
      if g: nat :| g < |ps| && IsApart(ps, g) && AlwaysTells(wires(i / 50), g, ids[i], 223) {
        HadIsToldAvailable(ids, ps, fate, wires, i, g);
      }
    }
  }

  lemma FullSample(ids: seq<string>)
    ensures Sampled(ids, 100) == ids
  {
    SampledWhole(ids, 100);
  }
}
