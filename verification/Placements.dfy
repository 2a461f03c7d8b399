/** The placements of an entry on its providers, and the one that is active. */
module Placements {
  import opened Wrappers

  datatype Status = Downloaded | Downloading | Queued | Errored

  datatype Placement = Placement(provider: string, id: string, status: Status, fileCount: nat)

  type Placed = map<string, Placement>

  datatype Torrent = Torrent(infoHash: string, id: string, status: Status, added: int, debrid: string, fileCount: nat)

  /** Every placement stands under the name of its own provider. */
  predicate WellKeyed(providers: Placed) {
    forall k :: k in providers ==> providers[k].provider == k
  }

  predicate HasDownloaded(providers: Placed) {
    exists k :: k in providers && providers[k].status == Downloaded
  }

  predicate IsDownloaded(providers: Placed, name: string) {
    name in providers && providers[name].status == Downloaded
  }

  /** The placements that RemoveProvider leaves: it goes by what they say, not by their keys. */
  function Without(providers: Placed, name: string): Placed {
    map k | k in providers && providers[k].provider != name :: providers[k]
  }

  /** Removing a provider removes its key exactly when the placement there says so; nothing is
      left exactly when all of them do. */
  lemma RemovesByValue(providers: Placed, name: string)
    ensures forall k :: k in Without(providers, name) <==> k in providers && providers[k].provider != name
    ensures forall k :: k in Without(providers, name) ==> Without(providers, name)[k] == providers[k]
    ensures Without(providers, name) == map[] <==> forall k :: k in providers ==> providers[k].provider == name
    ensures name in providers ==> (name !in Without(providers, name) <==> providers[name].provider == name)
    ensures WellKeyed(providers) ==> Without(providers, name) == providers - {name}
  {
    forall k | k in providers && providers[k].provider != name
      ensures Without(providers, name) != map[]
    {
      assert k in Without(providers, name);
    }
  }

  /** A placement is stale when it has another id or another status than the remote torrent, or
      when nothing is known of its files. */
  predicate NeedsUpdate(p: Placement, remote: Torrent) {
    p.id != remote.id || p.status != remote.status || p.fileCount == 0
  }

  datatype ActivateError = NotFound | NotCompleted

  datatype Record = Record(infoHash: string, isNzb: bool, providers: Placed, active: string)

  class Entry {
    const infoHash: string
    const isNzb: bool
    var providers: Placed
    var active: string

    function Value(): Record
      reads this
    {
      Record(infoHash, isNzb, providers, active)
    }

    constructor (r: Record)
      ensures Value() == r
    {
      infoHash, isNzb, providers, active := r.infoHash, r.isNzb, r.providers, r.active;
    }

    method AddTorrentProvider(t: Torrent)
      modifies this`providers
      ensures providers == old(providers)[t.debrid := Placement(t.debrid, t.id, t.status, t.fileCount)]
      ensures WellKeyed(old(providers)) ==> WellKeyed(providers)
    {
      providers := providers[t.debrid := Placement(t.debrid, t.id, t.status, t.fileCount)];
    }

    /** Of several placements that name the provider, any may be looked at. */
    method ActivatePlacement(name: string) returns (err: Option<ActivateError>)
      modifies this`active
      ensures err == Some(NotFound) <==> forall k :: k in providers ==> providers[k].provider != name
      ensures err == None ==>
        && active == name
        && exists k :: k in providers && providers[k].provider == name && providers[k].status == Downloaded
      ensures err != None ==> active == old(active)
      ensures WellKeyed(providers) && name in providers ==> (err == None <==> providers[name].status == Downloaded)
    {
      if forall k | k in providers :: providers[k].provider != name {
        return Some(NotFound);
      }
      var k :| k in providers && providers[k].provider == name;
      if providers[k].status != Downloaded {
        return Some(NotCompleted);
      }
      active := name;
      assert k in providers && providers[k].provider == name;
      return None;
    }

    /** The first downloaded placement in the map's own order becomes the active one. */
    method SwitchToNextProvider()
      modifies this`active
      ensures !HasDownloaded(providers) ==> active == old(active)
      ensures WellKeyed(providers) && HasDownloaded(providers) ==> IsDownloaded(providers, active)
      ensures active == old(active) || exists k :: k in providers && providers[k].provider == active
    {
      if exists k :: k in providers && providers[k].status == Downloaded {
        var k :| k in providers && providers[k].status == Downloaded;
        var err := ActivatePlacement(providers[k].provider);
      }
    }

    /** When the active provider is removed, another downloaded one takes its place whenever there
        is one; only without one does the entry keep the name of the provider that is gone. */
    method RemoveProvider(name: string)
      modifies this`providers, this`active
      ensures providers == Without(old(providers), name)
      ensures old(active) != name ==> active == old(active)
      ensures WellKeyed(old(providers)) ==> WellKeyed(providers)
      ensures WellKeyed(old(providers)) && old(active) == name ==>
        && (IsDownloaded(providers, active) <==> HasDownloaded(providers))
        && (active == name <==> !HasDownloaded(providers))
    {
      var keys := set k | k in providers && providers[k].provider == name;
      providers := providers - keys;
      assert providers == Without(old(providers), name);
      if active == name {
        SwitchToNextProvider();
      }
    }
  }
}
