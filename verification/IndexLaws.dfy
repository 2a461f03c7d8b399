/** What the operations on the name index come to, file by file and record by record. */
module IndexLaws {
  import opened Octets
  import opened Wrappers
  import opened Fingerprint
  import opened EntryIndex

  // ----- files -----

  /** Of two files under one name the one that was added later stays; of two that were added at the same
      time the one that is there, unless their sizes differ. Every other file stays. */
  lemma LaterFileStays(hash: Bytes -> Bytes, st: Store, e: Entry, k: Bytes)
    requires Keyed(st) && e.folder != []
    ensures var before, after := FilesOf(st, e.folder), FilesOf(Apply(hash, st, Add(e)), e.folder);
      && (k in after <==> k in before || k in e.files)
      && (k in before && k !in e.files ==> after[k] == before[k])
      && (k !in before && k in e.files ==> after[k] == e.files[k])
      && (k in before && k in e.files ==>
            && (before[k].addedOn < e.files[k].addedOn ==> after[k] == e.files[k])
            && (before[k].addedOn > e.files[k].addedOn ==> after[k] == before[k])
            && (before[k].addedOn == e.files[k].addedOn ==>
                  after[k] == if before[k].size == e.files[k].size then before[k] else e.files[k]))
    ensures DifferAt(st, Apply(hash, st, Add(e)), e.folder)
  {
    var before := FilesOf(st, e.folder);
    var files := Merged(before, e.files);
    PutOne(st, e.folder, files, e.protocol, Print(hash, before) != Print(hash, files));
  }

  lemma PutOne(st: Store, name: Bytes, files: Files, protocol: Bytes, changed: bool)
    requires Keyed(st)
    ensures FilesOf(PutAndMark(st, name, files, protocol, changed), name) == files
    ensures DifferAt(st, PutAndMark(st, name, files, protocol, changed), name)
  {
  }

  /** Two entries may be added in any order when they have no two different files of one name and time. */
  lemma AddedInAnyOrder(present: Files, a: Files, b: Files)
    requires forall k :: k in a && k in b ==> a[k].addedOn != b[k].addedOn || a[k] == b[k]
    ensures Merged(Merged(present, a), b) == Merged(Merged(present, b), a)
  {
    var ab, ba := Merged(Merged(present, a), b), Merged(Merged(present, b), a);
    assert ab.Keys == ba.Keys;
    forall k | k in ab
      ensures ab[k] == ba[k]
    {
      if k in a && k in b {
        assert a[k].addedOn != b[k].addedOn || a[k] == b[k];
      }
    }
  }

  /** Otherwise the order decides, unless a later file is there. */
  lemma OrderDecides(present: Files, a: Files, b: Files, k: Bytes)
    requires k in a && k in b && a[k].addedOn == b[k].addedOn && a[k] != b[k]
    requires k in present ==> present[k].addedOn != a[k].addedOn
    ensures Merged(Merged(present, a), b)[k] == Merged(Merged(present, b), a)[k]
      <==> k in present && present[k].addedOn > a[k].addedOn
  {
  }

  /** Removing an entry takes the files of its names that come from it, and no others; the item goes with
      its last file, and its record with it. */
  lemma OwnFilesGo(hash: Bytes -> Bytes, st: Store, e: Entry, k: Bytes)
    requires Keyed(st) && e.folder != [] && e.folder in st.items
    ensures var before, st' := st.items[e.folder], Apply(hash, st, Remove(e));
      && (k in FilesOf(st', e.folder) <==> k in before && (k in e.files ==> before[k].infoHash != e.infoHash))
      && (k in FilesOf(st', e.folder) ==> FilesOf(st', e.folder)[k] == before[k])
      && (e.folder in st'.items <==> exists f :: f in before && (f in e.files ==> before[f].infoHash != e.infoHash))
      && (e.folder !in st'.items ==> e.folder !in st'.health)
    ensures DifferAt(st, Apply(hash, st, Remove(e)), e.folder)
  {
    var before, kept := st.items[e.folder], Kept(st.items[e.folder], e);
    if f :| f in before && (f in e.files ==> before[f].infoHash != e.infoHash) {
      assert f in kept;
    } else {
      assert kept == map[];
    }
  }

  /** Adding an entry and removing it again gives the files back that were there exactly when none of them
      comes from the entry and none had to give way to one of its files. */
  lemma AddedAndRemoved(hash: Bytes -> Bytes, st: Store, e: Entry)
    requires Keyed(st) && e.folder != [] && forall k :: k in e.files ==> e.files[k].infoHash == e.infoHash
    ensures var before := FilesOf(st, e.folder);
      FilesOf(Apply(hash, Apply(hash, st, Add(e)), Remove(e)), e.folder) == before
      <==> forall k :: k in e.files && k in before ==>
             && before[k].infoHash != e.infoHash
             && (before[k].addedOn > e.files[k].addedOn ||
                 (before[k].addedOn == e.files[k].addedOn && before[k].size == e.files[k].size))
  {
    var before, st1 := FilesOf(st, e.folder), Apply(hash, st, Add(e));
    var merged := Merged(before, e.files);
    var changed := Print(hash, before) != Print(hash, merged);
    PutMarks(st, e.folder, merged, e.protocol, changed, e.folder);
    ApplyKeyed(hash, st, Add(e));
    RemovedFiles(st1, e);
    KeptOfMerged(before, e);
  }

  lemma RemovedFiles(st: Store, e: Entry)
    requires Keyed(st) && e.folder != [] && e.folder in st.items
    ensures FilesOf(Removed(st, e), e.folder) == Kept(st.items[e.folder], e)
  {
  }

  lemma KeptOfMerged(before: Files, e: Entry)
    requires forall k :: k in e.files ==> e.files[k].infoHash == e.infoHash
    ensures Kept(Merged(before, e.files), e) == before
      <==> forall k :: k in e.files && k in before ==>
             && before[k].infoHash != e.infoHash
             && (before[k].addedOn > e.files[k].addedOn ||
                 (before[k].addedOn == e.files[k].addedOn && before[k].size == e.files[k].size))
  {
    var kept := Kept(Merged(before, e.files), e);
    if k :| k in e.files && k in before && !(before[k].infoHash != e.infoHash && !Replaces(e.files[k], before[k])) {
      assert k !in kept;
    } else {
      assert kept.Keys == before.Keys;
    }
  }

  // ----- records -----

  /** A mark asks for a probe and says why; what is known of the files stays. */
  lemma MarkAsks(st: Store, name: Bytes, protocol: Bytes, reason: string, now: int, recheck: int)
    requires Keyed(st) && name != []
    ensures var st', was := MarkDirty(st, name, protocol, reason), LoadOrNew(st, name);
      && DifferAt(st, st', name) && st'.items == st.items && name in st'.health
      && var h := st'.health[name];
      && IsDue(Some(h), now, recheck) && h.dirty && h.dirtyReason == reason && h.nextCheckDue == None
      && h.entryName == name && h.protocol == (if protocol == [] then was.protocol else protocol)
      && h.status == was.status && h.fingerprint == was.fingerprint && h.broken == was.broken
      && h.lastChecked == was.lastChecked && h.active == was.active && h.previous == was.previous
    ensures name in st.health ==> LoadOrNew(st, name) == st.health[name]
    ensures name !in st.health ==>
      LoadOrNew(st, name) == Health(name, [], Unknown, None, [], 0, false, "", None, None, false, None)
  {
  }

  /** A probe that ends with its entry healthy or unsupported settles the record about the files that it
      picked, until it has aged; with any other outcome the entry stays due. */
  lemma ProbeSettles(hash: Bytes -> Bytes, st: Store, files: Files, held: Health, status: Status, broken: seq<Bytes>,
                     now: int, due: int, protocol: Bytes, later: int, recheck: int)
    requires held.entryName != []
    ensures var name := held.entryName;
      var st' := Save(st, Ended(hash, files, held, status, broken, now, due, protocol));
      && name in st'.health && st'.items == st.items && st'.health[name].fingerprint == Print(hash, files)
      && st'.health[name].broken == broken && st'.health[name].brokenCount == |broken|
      && !st'.health[name].active
      && (IsDue(HealthOf(st', name), later, recheck) <==>
            (status != Healthy && status != Unsupported) || (recheck > 0 && now + recheck <= later))
  {
  }

  /** While a probe goes on its entry is due; when a restart cuts it short, the record is as it was before
      the probe began, but for its protocol and what an earlier probe had noted. */
  lemma ProbeCutShort(st: Store, name: Bytes, now: int, recheck: int)
    requires Keyed(st) && name != []
    ensures var shown := Save(st, Begun(st, name));
      && name in shown.health && IsDue(HealthOf(shown, name), now, recheck)
      && shown.health[name].active && shown.health[name].status == Repairing
      && var was := LoadOrNew(st, name);
         Reverted(shown.health[name])
         == was.(protocol := [], previous := None, active := false, brokenCount := |was.broken|)
    ensures name in st.health && !st.health[name].active ==> Reverted(st.health[name]) == st.health[name]
  {
  }

  /** A record whose broken files are cleared is due at any time. */
  lemma ClearedIsDue(h: Health, now: int, recheck: int)
    ensures IsDue(Some(Cleared(h)), now, recheck)
    ensures Cleared(h).broken == [] && !Cleared(h).dirty && Cleared(h).entryName == h.entryName
    ensures Cleared(h).fingerprint == h.fingerprint && Cleared(h).lastChecked == h.lastChecked
  {
  }
}
