/** The reconciliation of the cached torrents with those that a provider reports. */
module Reconcile {
  import opened Wrappers
  import opened Placements

  // ----- one torrent per hash -----

  /** Of the first n torrents, torrent i is the newest with its hash, and the first such one. */
  ghost predicate IsLatest(remote: seq<Torrent>, n: nat, i: nat) {
    i < n <= |remote| &&
    forall j :: 0 <= j < n && remote[j].infoHash == remote[i].infoHash ==>
      remote[j].added < remote[i].added || (remote[j].added == remote[i].added && i <= j)
  }

  ghost predicate MadeFrom(m: map<string, Torrent>, at: map<string, nat>, remote: seq<Torrent>, n: nat) {
    && n <= |remote| && at.Keys == m.Keys
    && (forall j :: 0 <= j < n ==> remote[j].infoHash in m)
    && (forall h :: h in m ==> IsLatest(remote, n, at[h]) && remote[at[h]] == m[h] && m[h].infoHash == h)
  }

  lemma MadeMore(m: map<string, Torrent>, at: map<string, nat>, remote: seq<Torrent>, n: nat)
    requires n < |remote| && MadeFrom(m, at, remote, n)
    ensures var t := remote[n];
      if t.infoHash !in m || t.added > m[t.infoHash].added
      then MadeFrom(m[t.infoHash := t], at[t.infoHash := n], remote, n + 1)
      else MadeFrom(m, at, remote, n + 1)
  {
    var t := remote[n];
    var newer := t.infoHash !in m || t.added > m[t.infoHash].added;
    forall h | h in m && !(newer && h == t.infoHash)
      ensures IsLatest(remote, n + 1, at[h])
    {
      assert IsLatest(remote, n, at[h]);
    }
    if newer {
      forall j | 0 <= j < n && remote[j].infoHash == t.infoHash
        ensures remote[j].added < t.added
      {
        assert t.infoHash in m && IsLatest(remote, n, at[t.infoHash]);
      }
    }
  }

  /** Every hash of the list stands for its newest torrent, and of equally new ones for the first. */
  ghost predicate LatestByHash(m: map<string, Torrent>, remote: seq<Torrent>) {
    && (forall j :: 0 <= j < |remote| ==> remote[j].infoHash in m)
    && (forall h :: h in m ==> m[h].infoHash == h && StandsFor(m[h], remote))
  }

  ghost predicate StandsFor(t: Torrent, remote: seq<Torrent>) {
    exists i: nat :: IsLatest(remote, |remote|, i) && remote[i] == t
  }

  method ByHash(remote: seq<Torrent>) returns (m: map<string, Torrent>)
    ensures LatestByHash(m, remote)
  {
    m := map[];
    ghost var at: map<string, nat> := map[];
    for n := 0 to |remote|
      invariant MadeFrom(m, at, remote, n)
    {
      var t := remote[n];
      MadeMore(m, at, remote, n);
      if t.infoHash !in m || t.added > m[t.infoHash].added {
        m, at := m[t.infoHash := t], at[t.infoHash := n];
      }
    }
    forall h | h in m
      ensures StandsFor(m[h], remote)
    {
      assert IsLatest(remote, |remote|, at[h]) && remote[at[h]] == m[h];
    }
  }

  // ----- the three lists -----

  datatype Verdict = Ignored | Kept | New | Update | Delete

  /** What becomes of a cached entry. */
  function Judge(r: Record, provider: string, remote: map<string, Torrent>): Verdict {
    if r.isNzb then Ignored
    else if provider in r.providers then
      if r.infoHash !in remote then
        if Without(r.providers, provider) == map[] then Delete else Update
      else if NeedsUpdate(r.providers[provider], remote[r.infoHash]) then New
      else Kept
    else if r.infoHash in remote then New
    else Kept
  }

  /** For entries whose placements stand under their own names, an entry is deleted exactly when
      it has gone from the remote and was placed nowhere else. */
  lemma DeletedWhenGone(r: Record, provider: string, remote: map<string, Torrent>)
    requires !r.isNzb && WellKeyed(r.providers)
    ensures Judge(r, provider, remote).Delete? <==> r.infoHash !in remote && r.providers.Keys == {provider}
  {
    RemovesByValue(r.providers, provider);
    assert r.providers - {provider} == map[] <==> r.providers.Keys <= {provider};
  }

  /** In general it also takes that every placement, whatever its key, names that provider; an
      entry that lists it under its key with another name is rewritten unchanged every time. */
  lemma DeletedExactly(r: Record, provider: string, remote: map<string, Torrent>)
    requires !r.isNzb
    ensures Judge(r, provider, remote).Delete? <==>
      && r.infoHash !in remote && provider in r.providers
      && forall k :: k in r.providers ==> r.providers[k].provider == provider
    ensures (&& r.infoHash !in remote && provider in r.providers
             && (forall k :: k in r.providers ==> r.providers[k].provider != provider)) ==>
      Judge(r, provider, remote).Update? && Without(r.providers, provider) == r.providers
  {
    RemovesByValue(r.providers, provider);
  }

  /** A cached torrent is new again exactly when it is on the remote and not placed on the provider, or
      placed there with another id or status or without any file; it loses a placement exactly when it is
      placed on the provider, gone from the remote, and some placement names another provider. */
  lemma JudgedMeans(r: Record, provider: string, remote: map<string, Torrent>)
    requires !r.isNzb
    ensures Judge(r, provider, remote) == New <==>
      && r.infoHash in remote
      && (provider in r.providers ==>
            || r.providers[provider].id != remote[r.infoHash].id
            || r.providers[provider].status != remote[r.infoHash].status
            || r.providers[provider].fileCount == 0)
    ensures Judge(r, provider, remote) == Update <==>
      && r.infoHash !in remote && provider in r.providers
      && exists k :: k in r.providers && r.providers[k].provider != provider
  {
    RemovesByValue(r.providers, provider);
  }

  ghost predicate DistinctHashes(cached: seq<Record>) {
    forall i, j :: 0 <= i < j < |cached| ==> cached[i].infoHash != cached[j].infoHash
  }

  /** The hashes of those of the first n entries that are judged so. */
  ghost function Judged(cached: seq<Record>, n: nat, provider: string, remote: map<string, Torrent>, v: Verdict)
    : (s: set<string>)
    requires n <= |cached|
    ensures forall h :: h in s <==> exists i ::
      0 <= i < n && cached[i].infoHash == h && Judge(cached[i], provider, remote) == v
  {
    set i | 0 <= i < n && Judge(cached[i], provider, remote) == v :: cached[i].infoHash
  }

  ghost predicate Distinct(s: seq<string>) {
    forall i, j :: 0 <= i < j < |s| ==> s[i] != s[j]
  }

  /** s lists the elements of t, each once. */
  ghost predicate Lists(s: seq<string>, t: set<string>) {
    Distinct(s) && forall h :: h in s <==> h in t
  }

  lemma ListsMore(s: seq<string>, t: set<string>, h: string)
    requires Lists(s, t) && h !in t
    ensures Lists(s + [h], t + {h})
  {
    var s' := s + [h];
    assert forall i :: 0 <= i < |s| ==> s'[i] == s[i] && s[i] in s;
  }

  function Hashes(s: seq<Torrent>): seq<string> {
    seq(|s|, i requires 0 <= i < |s| => s[i].infoHash)
  }

  function RecordHashes(s: seq<Record>): seq<string> {
    seq(|s|, i requires 0 <= i < |s| => s[i].infoHash)
  }

  /** What RemoveProvider may make of an entry. */
  ghost predicate Removed(r: Record, r': Record, provider: string) {
    && r'.infoHash == r.infoHash && r'.isNzb == r.isNzb
    && r'.providers == Without(r.providers, provider)
    && (r.active != provider ==> r'.active == r.active)
    && (WellKeyed(r.providers) && r.active == provider ==>
          (IsDownloaded(r'.providers, r'.active) <==> HasDownloaded(r'.providers)))
  }

  /** A hash is new when it is on the remote and no cached torrent with it is placed and current: with the
      same id and status and with files. */
  ghost predicate IsNew(h: string, cached: seq<Record>, provider: string, remote: map<string, Torrent>) {
    h in remote && forall i :: 0 <= i < |cached| && cached[i].infoHash == h && !cached[i].isNzb ==>
      provider in cached[i].providers ==>
        var p := cached[i].providers[provider];
        p.id != remote[h].id || p.status != remote[h].status || p.fileCount == 0
  }

  method ProcessEntry(r: Record, provider: string, remote: map<string, Torrent>) returns (v: Verdict, r': Record)
    ensures v == Judge(r, provider, remote) && r'.infoHash == r.infoHash
    ensures v.Update? ==> Removed(r, r', provider)
  {
    r' := r;
    var entry := new Entry(r);
    if entry.isNzb {
      return Ignored, r';
    }
    if provider in entry.providers {
      if entry.infoHash !in remote {
        entry.RemoveProvider(provider);
        if entry.providers == map[] {
          return Delete, r';
        }
        return Update, entry.Value();
      }
      if NeedsUpdate(entry.providers[provider], remote[entry.infoHash]) {
        return New, r';
      }
    } else if entry.infoHash in remote {
      return New, r';
    }
    return Kept, r';
  }

  /** The lists as they stand after n cached entries. */
  ghost predicate Sorted(cached: seq<Record>, n: nat, provider: string, remote: map<string, Torrent>,
                         newTorrents: seq<Torrent>, toUpdate: seq<Record>, toDelete: seq<string>)
    requires n <= |cached|
  {
    && Lists(Hashes(newTorrents), Judged(cached, n, provider, remote, New))
    && Lists(RecordHashes(toUpdate), Judged(cached, n, provider, remote, Update))
    && Lists(toDelete, Judged(cached, n, provider, remote, Delete))
  }

  lemma Filed(cached: seq<Record>, n: nat, provider: string, remote: map<string, Torrent>,
              newTorrents: seq<Torrent>, toUpdate: seq<Record>, toDelete: seq<string>, t: Torrent, r: Record)
    requires n < |cached| && DistinctHashes(cached)
    requires Sorted(cached, n, provider, remote, newTorrents, toUpdate, toDelete)
    requires t.infoHash == r.infoHash == cached[n].infoHash
    ensures var v := Judge(cached[n], provider, remote);
      Sorted(cached, n + 1, provider, remote, if v.New? then newTorrents + [t] else newTorrents,
             if v.Update? then toUpdate + [r] else toUpdate, if v.Delete? then toDelete + [r.infoHash] else toDelete)
  {
    match Judge(cached[n], provider, remote)
    case New =>
      ListsMore(Hashes(newTorrents), Judged(cached, n, provider, remote, New), t.infoHash);
      assert Hashes(newTorrents + [t]) == Hashes(newTorrents) + [t.infoHash];
    case Update =>
      ListsMore(RecordHashes(toUpdate), Judged(cached, n, provider, remote, Update), r.infoHash);
      assert RecordHashes(toUpdate + [r]) == RecordHashes(toUpdate) + [r.infoHash];
    case Delete =>
      ListsMore(toDelete, Judged(cached, n, provider, remote, Delete), r.infoHash);
    case _ =>
  }

  ghost predicate FromRemote(newTorrents: seq<Torrent>, remote: map<string, Torrent>) {
    forall k :: 0 <= k < |newTorrents| ==>
      newTorrents[k].infoHash in remote && remote[newTorrents[k].infoHash] == newTorrents[k]
  }

  ghost predicate AllRemoved(cached: seq<Record>, provider: string, toUpdate: seq<Record>) {
    forall k :: 0 <= k < |toUpdate| ==>
      exists i :: 0 <= i < |cached| && Removed(cached[i], toUpdate[k], provider)
  }

  /** The hashes of the torrents among the first n entries. */
  ghost predicate Known(cached: seq<Record>, n: nat, known: set<string>)
    requires n <= |cached|
  {
    forall h :: h in known <==> exists i :: 0 <= i < n && cached[i].infoHash == h && !cached[i].isNzb
  }

  /** The lists and the known hashes after n cached entries. */
  ghost predicate Streamed(cached: seq<Record>, n: nat, provider: string, remote: map<string, Torrent>,
                           newTorrents: seq<Torrent>, toUpdate: seq<Record>, toDelete: seq<string>,
                           known: set<string>)
    requires n <= |cached|
  {
    && Sorted(cached, n, provider, remote, newTorrents, toUpdate, toDelete)
    && FromRemote(newTorrents, remote) && AllRemoved(cached, provider, toUpdate)
    && Known(cached, n, known)
  }

  /** One turn of the pass over the cached entries. */
  method StreamOne(cached: seq<Record>, n: nat, provider: string, remote: map<string, Torrent>,
                   newTorrents: seq<Torrent>, toUpdate: seq<Record>, toDelete: seq<string>, known: set<string>)
    returns (newTorrents': seq<Torrent>, toUpdate': seq<Record>, toDelete': seq<string>, known': set<string>)
    requires DistinctHashes(cached) && n < |cached| && forall h :: h in remote ==> remote[h].infoHash == h
    requires Streamed(cached, n, provider, remote, newTorrents, toUpdate, toDelete, known)
    ensures Streamed(cached, n + 1, provider, remote, newTorrents', toUpdate', toDelete', known')
  {
    newTorrents', toUpdate', toDelete', known' := newTorrents, toUpdate, toDelete, known;
    var h := cached[n].infoHash;
    var v, r := ProcessEntry(cached[n], provider, remote);
    Filed(cached, n, provider, remote, newTorrents, toUpdate, toDelete,
          if h in remote then remote[h] else Torrent(h, "", Queued, 0, "", 0), r);
    if !cached[n].isNzb {
      known' := known + {h};
    }
    match v
    case New => newTorrents' := newTorrents + [remote[h]];
    case Update => toUpdate' := toUpdate + [r];
    case Delete => toDelete' := toDelete + [h];
    case _ =>
  }

  /** The pass over the cached entries. */
  method Stream(cached: seq<Record>, provider: string, remote: map<string, Torrent>)
    returns (newTorrents: seq<Torrent>, toUpdate: seq<Record>, toDelete: seq<string>, known: set<string>)
    requires DistinctHashes(cached) && forall h :: h in remote ==> remote[h].infoHash == h
    ensures Streamed(cached, |cached|, provider, remote, newTorrents, toUpdate, toDelete, known)
  {
    newTorrents, toUpdate, toDelete, known := [], [], [], {};
    for n := 0 to |cached|
      invariant Streamed(cached, n, provider, remote, newTorrents, toUpdate, toDelete, known)
    {
      newTorrents, toUpdate, toDelete, known :=
        StreamOne(cached, n, provider, remote, newTorrents, toUpdate, toDelete, known);
    }
  }

  /** The second pass: the torrents that no cached entry stands for, in any order. */
  method AddUnknown(newTorrents: seq<Torrent>, remote: map<string, Torrent>, known: set<string>,
                    ghost listed: set<string>)
    returns (all: seq<Torrent>)
    requires forall h :: h in remote ==> remote[h].infoHash == h
    requires Lists(Hashes(newTorrents), listed) && listed <= known && FromRemote(newTorrents, remote)
    ensures Lists(Hashes(all), listed + (remote.Keys - known)) && FromRemote(all, remote)
  {
    all := newTorrents;
    var left := remote.Keys - known;
    ghost var added: set<string> := {};
    while left != {}
      invariant left <= remote.Keys - known && added == remote.Keys - known - left
      invariant Lists(Hashes(all), listed + added) && FromRemote(all, remote)
    {
      var h :| h in left;
      ListsMore(Hashes(all), listed + added, h);
      assert Hashes(all + [remote[h]]) == Hashes(all) + [h];
      all, left := all + [remote[h]], left - {h};
      added := added + {h};
      assert listed + added == listed + (added - {h}) + {h};
    }
  }

  /** The lists never name a hash twice, neither within a list nor in two of them. A hash is new
      exactly when it is on the remote and absent, unplaced or stale in the cache; entries that
      have gone from the remote lose their placement, and are deleted when it was the last. */
  method DetectChanges(provider: string, cached: seq<Record>, remote: map<string, Torrent>)
    returns (newTorrents: seq<Torrent>, toUpdate: seq<Record>, toDelete: seq<string>)
    requires DistinctHashes(cached) && forall h :: h in remote ==> remote[h].infoHash == h
    ensures Distinct(Hashes(newTorrents)) && Distinct(RecordHashes(toUpdate)) && Distinct(toDelete)
    ensures FromRemote(newTorrents, remote) && AllRemoved(cached, provider, toUpdate)
    ensures forall h :: h in Hashes(newTorrents) <==> IsNew(h, cached, provider, remote)
    ensures forall h :: h in RecordHashes(toUpdate) <==> h in Judged(cached, |cached|, provider, remote, Update)
    ensures forall h :: h in toDelete <==> h in Judged(cached, |cached|, provider, remote, Delete)
    ensures forall h :: h in Hashes(newTorrents) ==> h !in RecordHashes(toUpdate) && h !in toDelete
    ensures forall h :: h in RecordHashes(toUpdate) ==> h !in toDelete
  {
    var known;
    newTorrents, toUpdate, toDelete, known := Stream(cached, provider, remote);
    newTorrents := AddUnknown(newTorrents, remote, known, Judged(cached, |cached|, provider, remote, New));
    forall h
      ensures h in Hashes(newTorrents) <==> IsNew(h, cached, provider, remote)
    {
      NewMeans(h, cached, provider, remote, known);
    }
    forall h
      ensures h in Judged(cached, |cached|, provider, remote, Update) ==> h !in remote
      ensures h in Judged(cached, |cached|, provider, remote, Delete) ==> h !in remote
      ensures h in Judged(cached, |cached|, provider, remote, Update) ==>
        h !in Judged(cached, |cached|, provider, remote, Delete)
    {
    }
  }

  lemma NewMeans(h: string, cached: seq<Record>, provider: string, remote: map<string, Torrent>, known: set<string>)
    requires DistinctHashes(cached)
    requires Known(cached, |cached|, known)
    ensures h in Judged(cached, |cached|, provider, remote, New) + (remote.Keys - known)
      <==> IsNew(h, cached, provider, remote)
  {
    if h in known {
      var i :| 0 <= i < |cached| && cached[i].infoHash == h && !cached[i].isNzb;
      assert forall j :: 0 <= j < |cached| && cached[j].infoHash == h ==> j == i;
    }
  }

  // ----- the refresh -----

  /** What a refresh makes of a stored entry. */
  ghost predicate Refreshed(h: string, store: map<string, Record>, store': map<string, Record>, provider: string,
                            remote: map<string, Torrent>)
    requires h in store
  {
    match Judge(store[h], provider, remote)
    case Delete => h !in store'
    case Update => h in store' && Removed(store[h], store'[h], provider)
    case _ => h in store' && store'[h] == store[h]
  }

  ghost predicate KeyedStore(store: map<string, Record>) {
    forall h :: h in store ==> store[h].infoHash == h
  }

  /** The entries of the store in its own order. */
  method Listing(store: map<string, Record>) returns (cached: seq<Record>)
    requires KeyedStore(store)
    ensures DistinctHashes(cached)
    ensures forall i :: 0 <= i < |cached| ==> cached[i].infoHash in store && store[cached[i].infoHash] == cached[i]
    ensures forall h :: h in store ==> exists i :: 0 <= i < |cached| && cached[i] == store[h]
  {
    cached := [];
    var left := store.Keys;
    while left != {}
      invariant left <= store.Keys && DistinctHashes(cached)
      invariant forall i :: 0 <= i < |cached| ==>
        cached[i].infoHash in store && cached[i].infoHash !in left && store[cached[i].infoHash] == cached[i]
      invariant forall h :: h in store && h !in left ==> exists i :: 0 <= i < |cached| && cached[i] == store[h]
    {
      var h :| h in left;
      ghost var before := cached;
      cached, left := cached + [store[h]], left - {h};
      assert cached[|before|] == store[h];
      assert forall i :: 0 <= i < |before| ==> cached[i] == before[i];
    }
  }

  method Apply(store: map<string, Record>, toUpdate: seq<Record>, toDelete: seq<string>)
    returns (store': map<string, Record>)
    requires Distinct(RecordHashes(toUpdate))
    requires forall k :: 0 <= k < |toUpdate| ==> toUpdate[k].infoHash in store && toUpdate[k].infoHash !in toDelete
    ensures forall h :: h in store' <==> h in store && h !in toDelete
    ensures forall k :: 0 <= k < |toUpdate| ==> store'[toUpdate[k].infoHash] == toUpdate[k]
    ensures forall h :: h in store' && h !in RecordHashes(toUpdate) ==> store'[h] == store[h]
  {
    store' := store;
    for k := 0 to |toDelete|
      invariant forall h :: h in store' <==> h in store && h !in toDelete[..k]
      invariant forall h :: h in store' ==> store'[h] == store[h]
    {
      store' := store' - {toDelete[k]};
    }
    assert toDelete[..|toDelete|] == toDelete;
    forall i, j | 0 <= i < j < |toUpdate|
      ensures toUpdate[i].infoHash != toUpdate[j].infoHash
    {
      assert RecordHashes(toUpdate)[i] != RecordHashes(toUpdate)[j];
    }
    for k := 0 to |toUpdate|
      invariant forall h :: h in store' <==> h in store && h !in toDelete
      invariant forall j :: 0 <= j < k ==> store'[toUpdate[j].infoHash] == toUpdate[j]
      invariant forall h :: h in store' && h !in RecordHashes(toUpdate) ==> store'[h] == store[h]
    {
      var r := toUpdate[k];
      store' := store'[r.infoHash := r];
      assert RecordHashes(toUpdate)[k] == r.infoHash;
    }
  }

  /** doRefreshTorrents up to the new torrents, which it hands on. */
  method Refresh(store: map<string, Record>, listed: seq<Torrent>, provider: string)
    returns (store': map<string, Record>, newTorrents: seq<Torrent>, ghost remote: map<string, Torrent>)
    requires KeyedStore(store)
    ensures LatestByHash(remote, listed)
    ensures listed == [] ==> store' == store && newTorrents == []
    ensures store'.Keys <= store.Keys && FromRemote(newTorrents, remote)
    ensures listed != [] ==> forall h :: h in store ==> Refreshed(h, store, store', provider, remote)
  {
    var byHash := ByHash(listed);
    remote := byHash;
    if listed == [] {
      return store, [], remote;
    }
    var cached := Listing(store);
    var toUpdate, toDelete;
    newTorrents, toUpdate, toDelete := DetectChanges(provider, cached, byHash);
    forall k | 0 <= k < |toUpdate|
      ensures toUpdate[k].infoHash in store && toUpdate[k].infoHash !in toDelete
    {
      assert RecordHashes(toUpdate)[k] == toUpdate[k].infoHash;
    }
    store' := Apply(store, toUpdate, toDelete);
    forall h | h in store
      ensures Refreshed(h, store, store', provider, remote)
    {
      AppliedMeans(h, store, store', provider, remote, cached, toUpdate, toDelete);
    }
  }

  lemma AppliedMeans(h: string, store: map<string, Record>, store': map<string, Record>, provider: string,
                     remote: map<string, Torrent>, cached: seq<Record>, toUpdate: seq<Record>, toDelete: seq<string>)
    requires KeyedStore(store) && h in store && DistinctHashes(cached)
    requires exists i :: 0 <= i < |cached| && cached[i] == store[h]
    requires AllRemoved(cached, provider, toUpdate)
    requires h in RecordHashes(toUpdate) <==> h in Judged(cached, |cached|, provider, remote, Update)
    requires h in toDelete <==> h in Judged(cached, |cached|, provider, remote, Delete)
    requires h in store' <==> h !in toDelete
    requires forall k :: 0 <= k < |toUpdate| && toUpdate[k].infoHash == h ==> h in store' && store'[h] == toUpdate[k]
    requires h in store' && h !in RecordHashes(toUpdate) ==> store'[h] == store[h]
    ensures Refreshed(h, store, store', provider, remote)
  {
    var i :| 0 <= i < |cached| && cached[i] == store[h];
    assert forall j :: 0 <= j < |cached| && cached[j].infoHash == h ==> j == i;
    if Judge(store[h], provider, remote).Update? {
      var k :| 0 <= k < |toUpdate| && RecordHashes(toUpdate)[k] == h;
      var j :| 0 <= j < |cached| && Removed(cached[j], toUpdate[k], provider);
      assert j == i;
    }
  }

  /** After a refresh no torrent entry whose placements stand under their own names is still
      placed on the provider without being on the remote, so that a second refresh against the
      same remote removes nothing. */
  lemma NothingLeftToRemove(h: string, store: map<string, Record>, store': map<string, Record>, provider: string,
                            remote: map<string, Torrent>)
    requires h in store && h in store' && Refreshed(h, store, store', provider, remote)
    requires !store[h].isNzb && store[h].infoHash == h && WellKeyed(store[h].providers)
    ensures provider in store'[h].providers ==> h in remote
    ensures !Judge(store'[h], provider, remote).Delete? && !Judge(store'[h], provider, remote).Update?
    ensures WellKeyed(store'[h].providers)
    ensures forall p :: p != provider && p in store[h].providers ==>
      p in store'[h].providers && store'[h].providers[p] == store[h].providers[p]
  {
    RemovesByValue(store[h].providers, provider);
  }
}
