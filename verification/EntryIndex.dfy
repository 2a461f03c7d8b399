/** The name index of the storage and the health records that the repair sweep goes by: what an
    operation does to them when nothing comes between its calls of the store. */
module EntryIndex {
  import opened Octets
  import opened Wrappers
  import opened Fingerprint

  datatype Entry = Entry(infoHash: Bytes, folder: Bytes, protocol: Bytes, files: Files)

  datatype Status = Unknown | Healthy | Broken | Repairing | Unsupported | Stale

  /** active: some probe has shown the record as being worked on and not yet ended. */
  datatype Health = Health(entryName: Bytes, protocol: Bytes, status: Status, fingerprint: Option<Bytes>,
                           broken: seq<Bytes>, brokenCount: nat, dirty: bool, dirtyReason: string,
                           lastChecked: Option<int>, nextCheckDue: Option<int>, active: bool,
                           previous: Option<Status>)

  const ENTRY_ITEM_CHANGED := "entry_item_changed"

  function NewHealth(name: Bytes): Health {
    Health(name, [], Unknown, None, [], 0, false, "", None, None, false, None)
  }

  // ----- when a record is due -----

  predicate IsDue(h: Option<Health>, now: int, recheck: int) {
    if h.None? then true
    else if h.value.dirty then true
    else if h.value.lastChecked.None? then true
    else if h.value.status != Healthy && h.value.status != Unsupported then true
    else if recheck <= 0 then false
    else now - h.value.lastChecked.value >= recheck
  }

  /** A record that makes the sweep skip its entry until it has aged. */
  predicate Settled(h: Health) {
    !h.dirty && h.lastChecked.Some? && (h.status == Healthy || h.status == Unsupported)
  }

  /** The sweep skips an entry at some time exactly when its record is not dirty and says that it was
      checked and found healthy or unsupported. */
  lemma SkippedWhenSettled(h: Option<Health>)
    ensures (exists now, recheck :: !IsDue(h, now, recheck)) <==>
      h.Some? && !h.value.dirty && h.value.lastChecked != None &&
      (h.value.status == Healthy || h.value.status == Unsupported)
    ensures (exists now, recheck :: !IsDue(h, now, recheck)) <==> h.Some? && Settled(h.value)
  {
    if h.Some? && Settled(h.value) {
      assert !IsDue(h, 0, 0);
    }
  }

  /** Such a record becomes due exactly when it has reached the age of a positive interval, and stays due
      from then on; without an interval it never does. */
  lemma DueWhenAged(h: Health, checked: int, now: int, recheck: int)
    requires !h.dirty && h.lastChecked == Some(checked) && (h.status == Healthy || h.status == Unsupported)
    ensures recheck > 0 ==> (IsDue(Some(h), now, recheck) <==> checked + recheck <= now)
    ensures recheck <= 0 ==> !IsDue(Some(h), now, recheck)
  {
  }

  // ----- the store and its operations -----

  datatype Store = Store(entries: map<Bytes, Entry>, items: map<Bytes, Files>, health: map<Bytes, Health>)

  /** The files of an item; none when there is no item. */
  function FilesOf(st: Store, name: Bytes): Files {
    if name in st.items then st.items[name] else map[]
  }

  function HealthOf(st: Store, name: Bytes): Option<Health> {
    if name in st.health then Some(st.health[name]) else None
  }

  /** SaveEntryHealth. */
  function Save(st: Store, h: Health): Store {
    if h.entryName == [] then st
    else st.(health := st.health[h.entryName := h.(brokenCount := |h.broken|)])
  }

  /** GetEntryHealth: an empty name in the record is filled in. */
  function Load(st: Store, name: Bytes): Option<Health> {
    if name == [] || name !in st.health then None
    else if st.health[name].entryName == [] then Some(st.health[name].(entryName := name))
    else Some(st.health[name])
  }

  function LoadOrNew(st: Store, name: Bytes): Health {
    var loaded := Load(st, name);
    if loaded.Some? then loaded.value else NewHealth(name)
  }

  function Marked(h: Health, protocol: Bytes, reason: string): Health {
    h.(protocol := if protocol != [] then protocol else h.protocol, dirty := true, dirtyReason := reason,
       nextCheckDue := None)
  }

  /** MarkEntryDirty. */
  function MarkDirty(st: Store, name: Bytes, protocol: Bytes, reason: string): Store {
    if name == [] then st else Save(st, Marked(LoadOrNew(st, name), protocol, reason))
  }

  /** Whether an incoming file replaces the one that is there. */
  predicate Replaces(file: File, existing: File) {
    file.addedOn > existing.addedOn || (file.addedOn == existing.addedOn && file.size != existing.size)
  }

  function Merged(present: Files, incoming: Files): Files {
    map k | k in present.Keys + incoming.Keys ::
      if k in incoming && (k in present ==> Replaces(incoming[k], present[k])) then incoming[k] else present[k]
  }

  /** Put an item, and mark its record dirty when the fingerprint has changed. */
  ghost function PutItem(hash: Bytes -> Bytes, st: Store, name: Bytes, files: Files, protocol: Bytes): Store {
    PutAndMark(st, name, files, protocol, Print(hash, FilesOf(st, name)) != Print(hash, files))
  }

  function PutAndMark(st: Store, name: Bytes, files: Files, protocol: Bytes, changed: bool): Store {
    var put := st.(items := st.items[name := files]);
    if changed then MarkDirty(put, name, protocol, ENTRY_ITEM_CHANGED) else put
  }

  /** updateEntryItem. */
  ghost function Updated(hash: Bytes -> Bytes, st: Store, e: Entry): Store {
    if e.folder == [] then st
    else PutItem(hash, st, e.folder, Merged(FilesOf(st, e.folder), e.files), e.protocol)
  }

  /** The files of an item that do not come from the entry. */
  function Kept(files: Files, e: Entry): Files {
    map k | k in files && !(k in e.files && files[k].infoHash == e.infoHash) :: files[k]
  }

  /** removeFromEntryItem. */
  function Removed(st: Store, e: Entry): Store {
    if e.folder == [] || e.folder !in st.items then st
    else
      var kept := Kept(st.items[e.folder], e);
      if kept == map[] then st.(items := st.items - {e.folder}, health := st.health - {e.folder})
      else MarkDirty(st.(items := st.items[e.folder := kept]), e.folder, e.protocol, ENTRY_ITEM_CHANGED)
  }

  // ----- index changes and the records that the sweep writes -----

  /** What AddOrUpdate, Delete and UpdateItem do to the index. */
  datatype Change = Add(entry: Entry) | Remove(entry: Entry) | Put(item: Bytes, files: Files)

  ghost function Apply(hash: Bytes -> Bytes, st: Store, c: Change): Store {
    match c
    case Add(e) => Updated(hash, st, e)
    case Remove(e) => Removed(st, e)
    case Put(item, files) => PutItem(hash, st, item, files, [])
  }

  /** The record that probeEntry makes of the one it loads, to be shown while it probes. */
  function Begun(st: Store, name: Bytes): Health {
    var loaded := Load(st, name);
    var h := if loaded.Some? then loaded.value else NewHealth(name);
    h.(previous := if loaded.Some? then Some(h.status) else None, status := Repairing, active := true, protocol := [])
  }

  /** The record that it saves in the end, made from the one it holds and the files it picked. */
  ghost function Ended(hash: Bytes -> Bytes, files: Files, held: Health, status: Status, broken: seq<Bytes>,
                       now: int, due: int, protocol: Bytes): Health {
    held.(status := status, broken := broken, fingerprint := Print(hash, files), lastChecked := Some(now),
          nextCheckDue := Some(due), dirty := false, dirtyReason := "", active := false, previous := None,
          protocol := if protocol != [] then protocol else held.protocol)
  }

  /** markBrokenHealthCleared. */
  function Cleared(h: Health): Health {
    h.(status := Unknown, broken := [], dirty := false, dirtyReason := "", nextCheckDue := None)
  }

  /** What reconcileOrphans makes of a record after a restart. */
  function Reverted(h: Health): Health {
    if !h.active then h
    else h.(status := if h.previous.Some? then h.previous.value else Unknown, active := false, previous := None,
            brokenCount := |h.broken|)
  }

  function RevertAll(health: map<Bytes, Health>): map<Bytes, Health> {
    map n | n in health :: Reverted(health[n])
  }

  predicate Keyed(st: Store) {
    forall name :: name in st.health ==> name != [] && st.health[name].entryName == name
  }

  /** The two stores differ at most in what they hold under that name. */
  ghost predicate DifferAt(a: Store, b: Store, name: Bytes) {
    forall n :: n != name ==> FilesOf(a, n) == FilesOf(b, n) && HealthOf(a, n) == HealthOf(b, n)
  }

  lemma SaveKeyed(st: Store, h: Health)
    requires Keyed(st)
    ensures Keyed(Save(st, h)) && Save(st, h).items == st.items
    ensures h.entryName != [] ==> HealthOf(Save(st, h), h.entryName) == Some(h.(brokenCount := |h.broken|))
    ensures DifferAt(st, Save(st, h), h.entryName)
  {
  }

  // ----- what an index change does -----

  /** The record of a name says that something changed, or item and record are gone. */
  predicate DirtyOrGone(st: Store, name: Bytes) {
    (name in st.health && st.health[name].dirty) || (name !in st.items && name !in st.health)
  }

  lemma PutMarks(st: Store, item: Bytes, files: Files, protocol: Bytes, changed: bool, name: Bytes)
    requires Keyed(st)
    ensures var st' := PutAndMark(st, item, files, protocol, changed);
      && FilesOf(st', name) == (if name == item then files else FilesOf(st, name))
      && (changed && item != [] ==> DirtyOrGone(st', item)) && item in st'.items
  {
  }

  lemma RemovedMarks(st: Store, e: Entry, name: Bytes)
    requires Keyed(st) && FilesOf(st, name) != FilesOf(Removed(st, e), name)
    ensures DirtyOrGone(Removed(st, e), name)
  {
    assert name == e.folder;
  }

  lemma ApplyKeyed(hash: Bytes -> Bytes, st: Store, c: Change)
    requires Keyed(st)
    ensures Keyed(Apply(hash, st, c))
  {
  }

  /** Every change that an index operation makes to what the fingerprint covers leaves the record
      dirty, and so due at any time, or removes item and record together. */
  lemma ChangesLeaveDirty(hash: Bytes -> Bytes, st: Store, c: Change, name: Bytes, now: int, recheck: int)
    requires Keyed(st)
    ensures Print(hash, FilesOf(st, name)) != Print(hash, FilesOf(Apply(hash, st, c), name)) ==>
      && (name != [] ==> DirtyOrGone(Apply(hash, st, c), name))
      && IsDue(HealthOf(Apply(hash, st, c), name), now, recheck)
  {
    ApplyKeyed(hash, st, c);
    AppliedMarks(hash, st, c, name);
  }

  lemma AppliedMarks(hash: Bytes -> Bytes, st: Store, c: Change, name: Bytes)
    requires Keyed(st)
    ensures Print(hash, FilesOf(st, name)) != Print(hash, FilesOf(Apply(hash, st, c), name)) ==>
      name != [] ==> DirtyOrGone(Apply(hash, st, c), name)
  {
    match c
    case Add(e) =>
      if e.folder != [] {
        var files := Merged(FilesOf(st, e.folder), e.files);
        PutMarks(st, e.folder, files, e.protocol, Print(hash, FilesOf(st, e.folder)) != Print(hash, files), name);
      }
    case Remove(e) =>
      if FilesOf(st, name) != FilesOf(Removed(st, e), name) {
        RemovedMarks(st, e, name);
      }
    case Put(item, files) =>
      PutMarks(st, item, files, [], Print(hash, FilesOf(st, item)) != Print(hash, files), name);
  }

  /** In the terms of the files: a covered change of any of them. */
  lemma ChangedFilesLeaveDirty(hash: Bytes -> Bytes, st: Store, c: Change, name: Bytes, now: int, recheck: int)
    requires Injective(hash) && Keyed(st)
    ensures var st' := Apply(hash, st, c);
      NulFree(FilesOf(st, name)) && NulFree(FilesOf(st', name)) && !SameFiles(FilesOf(st, name), FilesOf(st', name)) ==>
        && (name != [] ==> DirtyOrGone(st', name))
        && IsDue(HealthOf(st', name), now, recheck)
  {
    if NulFree(FilesOf(st, name)) && NulFree(FilesOf(Apply(hash, st, c), name)) {
      PrintTellsApart(hash, FilesOf(st, name), FilesOf(Apply(hash, st, c), name));
    }
    ChangesLeaveDirty(hash, st, c, name, now, recheck);
  }

  lemma MergedTwice(present: Files, incoming: Files)
    ensures Merged(Merged(present, incoming), incoming) == Merged(present, incoming)
  {
    var once := Merged(present, incoming);
    forall k | k in once
      ensures Merged(once, incoming)[k] == once[k]
    {
    }
  }

  lemma PutSame(st: Store, name: Bytes, files: Files, protocol: Bytes)
    requires name in st.items && st.items[name] == files
    ensures PutAndMark(st, name, files, protocol, false) == st
  {
    assert st.items[name := files] == st.items;
  }

  /** Adding an entry whose files are merged already changes nothing, so that no probe is asked for. */
  lemma AddedAgain(hash: Bytes -> Bytes, st: Store, e: Entry, before: Files)
    requires e.folder in st.items && st.items[e.folder] == Merged(before, e.files)
    ensures Apply(hash, st, Add(e)) == st
  {
    if e.folder != [] {
      MergedTwice(before, e.files);
      PutSame(st, e.folder, st.items[e.folder], e.protocol);
    }
  }

  /** Adding an entry again changes nothing in the index. */
  lemma UpdatedTwice(hash: Bytes -> Bytes, st: Store, e: Entry)
    requires Keyed(st)
    ensures Apply(hash, Apply(hash, st, Add(e)), Add(e)) == Apply(hash, st, Add(e))
  {
    if e.folder != [] {
      var before := FilesOf(st, e.folder);
      var merged := Merged(before, e.files);
      PutMarks(st, e.folder, merged, e.protocol, Print(hash, before) != Print(hash, merged), e.folder);
      AddedAgain(hash, Apply(hash, st, Add(e)), e, before);
    }
  }

  /** The storage, with the maps that its methods reassign. */
  class Storage {
    const hash: Bytes -> Bytes
    var entries: map<Bytes, Entry>
    var items: map<Bytes, Files>
    var health: map<Bytes, Health>

    ghost function Contents(): Store
      reads this
    {
      Store(entries, items, health)
    }

    constructor (hash: Bytes -> Bytes)
      ensures Contents() == Store(map[], map[], map[]) && this.hash == hash
    {
      this.hash := hash;
      entries, items, health := map[], map[], map[];
    }

    method SaveEntryHealth(h: Health)
      modifies this`health
      ensures Contents() == Save(old(Contents()), h)
    {
      if h.entryName == [] {
        return;
      }
      health := health[h.entryName := h.(brokenCount := |h.broken|)];
    }

    method GetEntryHealth(name: Bytes) returns (h: Option<Health>)
      ensures h == Load(Contents(), name)
      ensures h.Some? <==> name != [] && name in health
      ensures h.Some? ==> h.value.entryName != [] && h.value.(entryName := health[name].entryName) == health[name]
    {
      if name == [] || name !in health {
        return None;
      }
      var found := health[name];
      if found.entryName == [] {
        found := found.(entryName := name);
      }
      return Some(found);
    }

    method MarkEntryDirty(name: Bytes, protocol: Bytes, reason: string)
      modifies this`health
      ensures Contents() == MarkDirty(old(Contents()), name, protocol, reason)
    {
      if name == [] {
        return;
      }
      var loaded := GetEntryHealth(name);
      var h := if loaded.Some? then loaded.value else NewHealth(name);
      if protocol != [] {
        h := h.(protocol := protocol);
      }
      SaveEntryHealth(h.(dirty := true, dirtyReason := reason, nextCheckDue := None));
    }

    /** The merge of updateEntryItem, which goes through the entry's files in any order. */
    static method Merge(present: Files, incoming: Files) returns (merged: Files)
      ensures merged == Merged(present, incoming)
    {
      merged := present;
      var left := incoming.Keys;
      while left != {}
        invariant left <= incoming.Keys
        invariant merged == Merged(present, incoming - left)
      {
        var k :| k in left;
        left := left - {k};
        if k in merged {
          if Replaces(incoming[k], merged[k]) {
            merged := merged[k := incoming[k]];
          }
        } else {
          merged := merged[k := incoming[k]];
        }
      }
      assert incoming - {} == incoming;
    }

    method UpdateEntryItem(e: Entry)
      modifies this`items, this`health
      ensures Contents() == Apply(hash, old(Contents()), Add(e))
    {
      if e.folder == [] {
        return;
      }
      var present := if e.folder in items then items[e.folder] else map[];
      var before := RepairFingerprint(hash, present);
      var merged := Merge(present, e.files);
      var after := RepairFingerprint(hash, merged);
      items := items[e.folder := merged];
      if before != after {
        MarkEntryDirty(e.folder, e.protocol, ENTRY_ITEM_CHANGED);
      }
    }

    /** The deletions of removeFromEntryItem, in any order. */
    static method Drop(files: Files, e: Entry) returns (kept: Files)
      ensures kept == Kept(files, e)
    {
      kept := files;
      var left := e.files.Keys;
      while left != {}
        invariant left <= e.files.Keys
        invariant kept == Kept(files, e.(files := e.files - left))
      {
        var k :| k in left;
        left := left - {k};
        if k in kept && kept[k].infoHash == e.infoHash {
          kept := kept - {k};
        }
      }
      assert e.files - {} == e.files;
    }

    method RemoveFromEntryItem(e: Entry)
      modifies this`items, this`health
      ensures Contents() == Apply(hash, old(Contents()), Remove(e))
    {
      if e.folder == [] || e.folder !in items {
        return;
      }
      var kept := Drop(items[e.folder], e);
      if kept == map[] {
        items, health := items - {e.folder}, health - {e.folder};
        return;
      }
      items := items[e.folder := kept];
      MarkEntryDirty(e.folder, e.protocol, ENTRY_ITEM_CHANGED);
    }

    method AddOrUpdate(e: Entry)
      modifies this
      ensures Contents() == Apply(hash, old(Contents()), Add(e)).(entries := old(entries)[e.infoHash := e])
    {
      UpdateEntryItem(e);
      entries := entries[e.infoHash := e];
    }

    method Delete(infoHash: Bytes)
      modifies this
      ensures Contents()
           == (if infoHash in old(entries) then Apply(hash, old(Contents()), Remove(old(entries)[infoHash]))
               else old(Contents())).(entries := old(entries) - {infoHash})
    {
      if infoHash in entries {
        RemoveFromEntryItem(entries[infoHash]);
      }
      entries := entries - {infoHash};
    }

    method UpdateItem(name: Bytes, files: Files)
      modifies this`items, this`health
      ensures Contents() == Apply(hash, old(Contents()), Put(name, files))
    {
      var before := None;
      if name in items {
        before := RepairFingerprint(hash, items[name]);
      }
      items := items[name := files];
      var after := RepairFingerprint(hash, files);
      if before != after {
        MarkEntryDirty(name, [], ENTRY_ITEM_CHANGED);
      }
    }

    /** The first half of probeEntry, for an item that was picked before. */
    method BeginProbe(name: Bytes) returns (h: Health)
      modifies this`health
      ensures h == Begun(old(Contents()), name) && Contents() == Save(old(Contents()), h)
    {
      var loaded := GetEntryHealth(name);
      h := if loaded.Some? then loaded.value else NewHealth(name);
      h := h.(previous := if loaded.Some? then Some(h.status) else None);
      h := h.(status := Repairing, active := true, protocol := []);
      SaveEntryHealth(h);
    }

    /** The second half, with the files that were picked and what the probes found. */
    method EndProbe(files: Files, held: Health, status: Status, broken: seq<Bytes>, now: int, due: int,
                    protocol: Bytes)
      modifies this`health
      ensures Contents() == Save(old(Contents()), Ended(hash, files, held, status, broken, now, due, protocol))
    {
      var seen := RepairFingerprint(hash, files);
      var h := held.(status := status, broken := broken, fingerprint := seen, lastChecked := Some(now),
                     nextCheckDue := Some(due), dirty := false, dirtyReason := "");
      h := h.(active := false, previous := None);
      if protocol != [] {
        h := h.(protocol := protocol);
      }
      SaveEntryHealth(h);
    }

    /** markBrokenHealthCleared. */
    method ClearBroken(h: Health)
      modifies this`health
      ensures Contents() == if h.entryName !in old(items)
                            then old(Contents()).(health := old(health) - {h.entryName})
                            else Save(old(Contents()), Cleared(h))
    {
      if h.entryName !in items {
        health := health - {h.entryName};
        return;
      }
      SaveEntryHealth(Cleared(h));
    }

    /** reconcileOrphans, which goes through the records in any order. */
    method ReconcileOrphans()
      requires Keyed(Contents())
      modifies this`health
      ensures Contents() == old(Contents()).(health := RevertAll(old(health)))
      ensures health.Keys == old(health).Keys
      ensures forall n :: n in health ==> var was := old(health)[n];
        && !health[n].active && (!was.active ==> health[n] == was)
        && (was.active ==> health[n].status == if was.previous.Some? then was.previous.value else Unknown)
    {
      ghost var was := health;
      var left := health.Keys;
      while left != {}
        invariant left <= was.Keys == health.Keys && entries == old(entries) && items == old(items)
        invariant forall n :: n in was ==> health[n] == if n in left then was[n] else Reverted(was[n])
      {
        var n :| n in left;
        left := left - {n};
        var h := health[n];
        if h.active {
          h := h.(status := if h.previous.Some? then h.previous.value else Unknown, active := false, previous := None);
          SaveEntryHealth(h);
        }
      }
      assert health == RevertAll(was);
    }
  }
}
