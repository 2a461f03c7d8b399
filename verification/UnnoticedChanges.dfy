/** The runs in which a change of an item stays hidden from the sweep. */
module UnnoticedChanges {
  import opened Octets
  import opened Wrappers
  import opened Fingerprint
  import opened EntryIndex
  import opened IndexMachine

  // ----- how a change is hidden -----

  /** The sweep skips the name, although its record is about other files than there are. */
  ghost predicate Hidden(hash: Bytes -> Bytes, st: Store, name: Bytes) {
    name in st.health && Settled(st.health[name]) && st.health[name].fingerprint != Print(hash, FilesOf(st, name))
  }

  /** The process ends after the item was stored and before it was marked: the change is hidden as soon
      as it alters what the settled record is about, and adding the same entry again after the restart
      does not bring it out. */
  lemma CrashHidesChange(hash: Bytes -> Bytes, s: State, id: nat, c: Change, name: Bytes)
    requires id !in s.tasks && name in s.st.health && Settled(s.st.health[name])
    ensures Hidden(hash, Run(hash, s, [Begin(id, c), Go(id), Crash]).st, name)
      <==> s.st.health[name].fingerprint != Print(hash, FilesOf(Apply(hash, s.st, c), name))
    ensures var st := Run(hash, s, [Begin(id, c), Go(id), Crash]).st; c.Add? ==> Apply(hash, st, c) == st
  {
    StoredThenCrash(hash, s, id, c);
    StoredOnly(hash, s.st, c);
    assert FilesOf(Stored(hash, s.st, c), name) == FilesOf(Apply(hash, s.st, c), name);
    if c.Add? {
      AddedStored(hash, s.st, c.entry);
    }
  }

  lemma AddedStored(hash: Bytes -> Bytes, st: Store, e: Entry)
    ensures Apply(hash, Stored(hash, st, Add(e)), Add(e)) == Stored(hash, st, Add(e))
  {
    if e.folder != [] {
      AddedAgain(hash, Stored(hash, st, Add(e)), e, FilesOf(st, e.folder));
    }
  }

  /** What has become of the store when an index change has put or deleted the item. */
  ghost function Stored(hash: Bytes -> Bytes, st: Store, c: Change): Store {
    match Planned(hash, st, c)
    case None => st
    case Some(t) =>
      st.(items := if t.Storing? then st.items[t.name := t.files] else if t.Deleting? then st.items - {t.name}
                   else st.items)
  }

  lemma StoredThenCrash(hash: Bytes -> Bytes, s: State, id: nat, c: Change)
    requires id !in s.tasks
    ensures Run(hash, s, [Begin(id, c), Go(id), Crash]) == State(Stored(hash, s.st, c), map[])
  {
    assert [Begin(id, c), Go(id), Crash] == [Begin(id, c), Go(id)] + [Crash];
    RunConcat(hash, s, [Begin(id, c), Go(id)], [Crash]);
    RunOfTwo(hash, s, Begin(id, c), Go(id));
    CrashLast(hash, Run(hash, s, [Begin(id, c), Go(id)]));
  }

  lemma CrashLast(hash: Bytes -> Bytes, s: State)
    ensures Run(hash, s, [Crash]) == State(s.st, map[])
  {
    RunOfOne(hash, s, Crash);
  }

  /** The first two calls of a change alter the item and no record. */
  lemma StoredOnly(hash: Bytes -> Bytes, st: Store, c: Change)
    ensures Stored(hash, st, c).health == st.health
    ensures Stored(hash, st, c).items == Apply(hash, st, c).items
  {
  }

  /** The op leaves task id alone. */
  predicate Spares(op: Op, id: nat) {
    !op.Crash? && (op.Go? || op.End? || op.Keep? ==> op.id != id)
  }

  lemma {:induction false} TaskStays(hash: Bytes -> Bytes, s: State, ops: seq<Op>, id: nat)
    requires Keyed(s.st) && id in s.tasks && forall i :: 0 <= i < |ops| ==> Spares(ops[i], id)
    ensures var t := Run(hash, s, ops); Keyed(t.st) && id in t.tasks && t.tasks[id] == s.tasks[id]
    decreases ops
  {
    if ops != [] {
      assert Spares(ops[0], id);
      StepKeyed(hash, s, ops[0]);
      TaskStaysOnce(hash, s, ops[0], id);
      TaskStays(hash, Step(hash, s, ops[0]), ops[1..], id);
    }
  }

  lemma TaskStaysOnce(hash: Bytes -> Bytes, s: State, op: Op, id: nat)
    requires id in s.tasks && Spares(op, id)
    ensures id in Step(hash, s, op).tasks && Step(hash, s, op).tasks[id] == s.tasks[id]
  {
    if op.Go? && op.id in s.tasks {
      assert Next(s, op.id).tasks[id] == s.tasks[id];
    }
  }

  lemma StepKeyed(hash: Bytes -> Bytes, s: State, op: Op)
    requires Keyed(s.st)
    ensures Keyed(Step(hash, s, op).st)
  {
    if op.Go? && op.id in s.tasks {
      NextKeyed(s, op.id);
    }
  }

  lemma NextKeyed(s: State, id: nat)
    requires Keyed(s.st) && id in s.tasks
    ensures Keyed(Next(s, id).st)
  {
    match s.tasks[id]
    case MarkSaving(h, protocol) => SaveKeyed(s.st, Marked(h, protocol, ENTRY_ITEM_CHANGED));
    case Showing(_, h) => SaveKeyed(s.st, h);
    case Saving(h) => SaveKeyed(s.st, h);
    case _ =>
  }

  /** A record that was loaded settled is saved after any other steps: the change is hidden exactly when
      the files are no longer those that it is about, whether that was marked or not. */
  lemma StaleSaveHides(hash: Bytes -> Bytes, s: State, id: nat, h: Health, ops: seq<Op>)
    requires Keyed(s.st) && id in s.tasks && s.tasks[id] == Saving(h) && Settled(h) && h.entryName != []
    requires forall i :: 0 <= i < |ops| ==> Spares(ops[i], id)
    ensures var t := Run(hash, s, ops);
      Hidden(hash, Step(hash, t, Go(id)).st, h.entryName)
      <==> h.fingerprint != Print(hash, FilesOf(t.st, h.entryName))
  {
    TaskStays(hash, s, ops, id);
    SaveHides(hash, Run(hash, s, ops), id, h);
  }

  lemma SaveHides(hash: Bytes -> Bytes, t: State, id: nat, h: Health)
    requires id in t.tasks && t.tasks[id] == Saving(h) && Settled(h) && h.entryName != []
    ensures Hidden(hash, Step(hash, t, Go(id)).st, h.entryName)
      <==> h.fingerprint != Print(hash, FilesOf(t.st, h.entryName))
  {
  }

  /** The record that reconcileOrphans, or the update after a repair, goes on with. */
  function Held(h: Health, reverts: bool): Health { if reverts then Reverted(h) else h }

  function Loads(id: nat, name: Bytes, reverts: bool): Op { if reverts then Revert(id, name) else Touch(id, name) }

  /** A whole change between the load and the save of a record: reconcileOrphans and the update after a
      repair both lose its mark, and hide it as soon as it alters what the record is about. */
  lemma MarkIsOverwritten(hash: Bytes -> Bytes, s: State, id: nat, reverts: bool, other: nat, c: Change, name: Bytes)
    requires Keyed(s.st) && other != id && id !in s.tasks && other !in s.tasks
    requires name in s.st.health && (reverts ==> s.st.health[name].active) && Settled(Held(s.st.health[name], reverts))
    ensures Hidden(hash, Run(hash, s, [Loads(id, name, reverts)] + WholeChange(other, c) + [Go(id)]).st, name)
      <==> s.st.health[name].fingerprint != Print(hash, FilesOf(Apply(hash, s.st, c), name))
  {
    var op := Loads(id, name, reverts);
    var s1 := Step(hash, s, op);
    RunAround(hash, s, [op], WholeChange(other, c), [Go(id)]);
    RunOfOne(hash, s, op);
    ChangeWhole(hash, s1, other, c);
    var t := s1.(st := Apply(hash, s1.st, c));
    RunOfOne(hash, t, Go(id));
    SaveHides(hash, t, id, Held(s.st.health[name], reverts));
  }

  lemma RunOfOne(hash: Bytes -> Bytes, s: State, op: Op)
    ensures Run(hash, s, [op]) == Step(hash, s, op)
  {
    assert Run(hash, Step(hash, s, op), []) == Step(hash, s, op);
  }

  lemma RunAround(hash: Bytes -> Bytes, s: State, a: seq<Op>, b: seq<Op>, c: seq<Op>)
    ensures Run(hash, s, a + b + c) == Run(hash, Run(hash, Run(hash, s, a), b), c)
  {
    RunConcat(hash, s, a + b, c);
    RunConcat(hash, s, a, b);
  }

  /** A whole change between the load and the save at the start of a probe, then a restart before the
      probe has ended. */
  lemma InterruptedProbeHidesChange(hash: Bytes -> Bytes, s: State, id: nat, other: nat, c: Change, name: Bytes)
    requires Keyed(s.st) && other != id && id !in s.tasks && other !in s.tasks
    requires name in s.st.items && name in s.st.health && !s.st.health[name].active && Settled(s.st.health[name])
    ensures Hidden(hash, Run(hash, s, [Pick(id, name), Go(id)] + WholeChange(other, c)
                                      + [Go(id), Crash, Revert(id, name), Go(id)]).st, name)
      <==> s.st.health[name].fingerprint != Print(hash, FilesOf(Apply(hash, s.st, c), name))
  {
    var s1 := To(s, s.st, id, Some(Showing(s.st.items[name], Begun(s.st, name))));
    RunAround(hash, s, [Pick(id, name), Go(id)], WholeChange(other, c), [Go(id), Crash, Revert(id, name), Go(id)]);
    PickAndLoad(hash, s, id, name);
    ChangeWhole(hash, s1, other, c);
    ApplyKeyed(hash, s.st, c);
    BegunReverts(s.st, name);
    RevertAfterCrash(hash, s1.(st := Apply(hash, s.st, c)), id, s.st.items[name], Begun(s.st, name));
  }

  lemma PickAndLoad(hash: Bytes -> Bytes, s: State, id: nat, name: Bytes)
    requires id !in s.tasks && name in s.st.items
    ensures Run(hash, s, [Pick(id, name), Go(id)])
         == To(s, s.st, id, Some(Showing(s.st.items[name], Begun(s.st, name))))
  {
    RunOfTwo(hash, s, Pick(id, name), Go(id));
    ToTwice(s, s.st, s.st, id, Some(Picked(s.st.items[name], name)),
            Some(Showing(s.st.items[name], Begun(s.st, name))));
  }

  /** Putting back what a probe has shown gives the record from before it. */
  lemma BegunReverts(st: Store, name: Bytes)
    requires Keyed(st) && name in st.health && !st.health[name].active
    ensures var h := Begun(st, name);
      && h.active && h.entryName == name && h.fingerprint == st.health[name].fingerprint
      && (Settled(Reverted(h)) <==> Settled(st.health[name]))
  {
  }

  lemma RevertAfterCrash(hash: Bytes -> Bytes, t: State, id: nat, files: Files, h: Health)
    requires Keyed(t.st) && id in t.tasks && t.tasks[id] == Showing(files, h) && h.active && h.entryName != []
    ensures var u := Run(hash, t, [Go(id), Crash, Revert(id, h.entryName), Go(id)]);
      && u.st.items == t.st.items && h.entryName in u.st.health
      && u.st.health[h.entryName] == Reverted(h)
  {
    var saved := Save(t.st, h);
    assert [Go(id), Crash, Revert(id, h.entryName), Go(id)] == [Go(id), Crash] + [Revert(id, h.entryName), Go(id)];
    RunConcat(hash, t, [Go(id), Crash], [Revert(id, h.entryName), Go(id)]);
    ShownThenCrash(hash, t, id, files, h);
    RevertAlone(hash, saved, id, h.entryName);
  }

  lemma ShownThenCrash(hash: Bytes -> Bytes, t: State, id: nat, files: Files, h: Health)
    requires id in t.tasks && t.tasks[id] == Showing(files, h)
    ensures Run(hash, t, [Go(id), Crash]) == State(Save(t.st, h), map[])
  {
    RunOfTwo(hash, t, Go(id), Crash);
  }

  lemma RevertAlone(hash: Bytes -> Bytes, st: Store, id: nat, name: Bytes)
    requires Load(st, name).Some? && Load(st, name).value.active
    ensures Run(hash, State(st, map[]), [Revert(id, name), Go(id)]).st == Save(st, Reverted(Load(st, name).value))
  {
    RunOfTwo(hash, State(st, map[]), Revert(id, name), Go(id));
  }

  /** An item is put back without a mark after any other steps: the difference is hidden exactly when its
      record has been settled on other files in the meantime. */
  lemma UnmarkedStoreHides(hash: Bytes -> Bytes, s: State, id: nat, name: Bytes, files: Files, protocol: Bytes,
                           ops: seq<Op>)
    requires Keyed(s.st) && id in s.tasks && s.tasks[id] == Storing(name, files, protocol, false)
    requires forall i :: 0 <= i < |ops| ==> Spares(ops[i], id)
    ensures var t := Run(hash, s, ops);
      Hidden(hash, Step(hash, t, Go(id)).st, name)
      <==> name in t.st.health && Settled(t.st.health[name]) && t.st.health[name].fingerprint != Print(hash, files)
  {
    TaskStays(hash, s, ops, id);
  }

  // ----- probes of files that are there no more -----

  /** The op lets the probe of task id go on and does not end it. */
  predicate LetsProbe(op: Op, id: nat) {
    !op.Crash? && (op.End? ==> op.id != id)
  }

  ghost predicate IsPickOf(s: State, id: nat, files: Files, name: Bytes) {
    id in s.tasks &&
    match s.tasks[id]
    case Picked(f, n) => f == files && n == name
    case Showing(f, h) => f == files && h.entryName == name
    case Probing(f, h) => f == files && h.entryName == name
    case _ => false
  }

  /** Whatever happens in the meantime, a probe goes on with what was picked. */
  lemma {:induction false} PickStays(hash: Bytes -> Bytes, s: State, ops: seq<Op>, id: nat, files: Files, name: Bytes)
    requires Keyed(s.st) && IsPickOf(s, id, files, name)
    requires forall i :: 0 <= i < |ops| ==> LetsProbe(ops[i], id)
    ensures Keyed(Run(hash, s, ops).st) && IsPickOf(Run(hash, s, ops), id, files, name)
    decreases ops
  {
    if ops != [] {
      assert LetsProbe(ops[0], id);
      StepKeyed(hash, s, ops[0]);
      PickStaysOnce(hash, s, ops[0], id, files, name);
      PickStays(hash, Step(hash, s, ops[0]), ops[1..], id, files, name);
    }
  }

  lemma PickStaysOnce(hash: Bytes -> Bytes, s: State, op: Op, id: nat, files: Files, name: Bytes)
    requires Keyed(s.st) && IsPickOf(s, id, files, name) && LetsProbe(op, id)
    ensures IsPickOf(Step(hash, s, op), id, files, name)
  {
    if op.Go? && op.id in s.tasks && op.id != id {
      assert Next(s, op.id).tasks[id] == s.tasks[id];
    }
  }

  /** Ending the probe healthy at this point settles a record that is about the picked files, although
      another file is there that was never looked at: the entry is not due. */
  ghost predicate EndHidesFile(hash: Bytes -> Bytes, t: State, id: nat, picked: Files, name: Bytes, file: Bytes,
                               now: int, due: int, recheck: int)
  {
    var t' := Step(hash, t, End(id, Healthy, [], now, due, []));
    && Hidden(hash, t'.st, name)
    && file in FilesOf(t'.st, name) && file !in picked && t'.st.health[name].fingerprint == Print(hash, picked)
    && !IsDue(HealthOf(t'.st, name), now, recheck)
  }

  /** The probe is about to end, and a file is there that was not picked. */
  ghost predicate IsOvertaken(t: State, id: nat, picked: Files, name: Bytes, file: Bytes) {
    && id in t.tasks && t.tasks[id].Probing? && NulFree(picked) && NulFree(FilesOf(t.st, name))
    && file in FilesOf(t.st, name) && file !in picked
  }

  /** A probe that is overtaken hides the change: whatever happens between the picking of an item and
      the end of its probe, a file that is there in the end and was not picked is missed. */
  lemma OvertakenProbeHidesChange(hash: Bytes -> Bytes, s: State, id: nat, name: Bytes, ops: seq<Op>, file: Bytes,
                                  now: int, due: int, recheck: int)
    requires Injective(hash) && Keyed(s.st) && name != [] && name in s.st.items && id !in s.tasks && recheck > 0
    requires forall i :: 0 <= i < |ops| ==> LetsProbe(ops[i], id)
    ensures var t := Run(hash, Step(hash, s, Pick(id, name)), ops);
      IsOvertaken(t, id, s.st.items[name], name, file) ==>
        EndHidesFile(hash, t, id, s.st.items[name], name, file, now, due, recheck)
  {
    var picked, s0 := s.st.items[name], Step(hash, s, Pick(id, name));
    var t := Run(hash, s0, ops);
    PickStarts(hash, s, id, name);
    PickStays(hash, s0, ops, id, picked, name);
    if IsOvertaken(t, id, picked, name, file) {
      EndHidesChange(hash, t, id, picked, name, file, now, due, recheck);
    }
  }

  lemma PickStarts(hash: Bytes -> Bytes, s: State, id: nat, name: Bytes)
    requires name in s.st.items && id !in s.tasks
    ensures var s0 := Step(hash, s, Pick(id, name)); s0.st == s.st && IsPickOf(s0, id, s.st.items[name], name)
  {
  }

  lemma EndHidesChange(hash: Bytes -> Bytes, t: State, id: nat, picked: Files, name: Bytes, file: Bytes, now: int,
                       due: int, recheck: int)
    requires Injective(hash) && Keyed(t.st) && name != [] && recheck > 0
    requires IsPickOf(t, id, picked, name) && t.tasks[id].Probing?
    requires NulFree(picked) && NulFree(FilesOf(t.st, name)) && file in FilesOf(t.st, name) && file !in picked
    ensures EndHidesFile(hash, t, id, picked, name, file, now, due, recheck)
  {
    PrintTellsApart(hash, picked, FilesOf(t.st, name));
    EndSettles(hash, t, id, now, due, recheck);
    assert FilesOf(Step(hash, t, End(id, Healthy, [], now, due, [])).st, name) == FilesOf(t.st, name);
  }

  lemma EndSettles(hash: Bytes -> Bytes, s: State, id: nat, now: int, due: int, recheck: int)
    requires id in s.tasks && s.tasks[id].Probing? && s.tasks[id].h.entryName != [] && recheck > 0 && Keyed(s.st)
    ensures var s', name := Step(hash, s, End(id, Healthy, [], now, due, [])), s.tasks[id].h.entryName;
      && s'.st.items == s.st.items
      && name in s'.st.health && s'.st.health[name].fingerprint == Print(hash, s.tasks[id].files)
      && Settled(s'.st.health[name]) && !IsDue(HealthOf(s'.st, name), now, recheck)
  {
    SaveKeyed(s.st, Ended(hash, s.tasks[id].files, s.tasks[id].h, Healthy, [], now, due, []));
  }

  /** An entry is added either before or after the probe loads and saves its record. */
  function AddAround(id: nat, other: nat, e: Entry, waiting: bool): (ops: seq<Op>)
    requires other != id
    ensures forall i :: 0 <= i < |ops| ==> LetsProbe(ops[i], id)
  {
    if waiting then WholeChange(other, Add(e)) + [Go(id), Go(id)] else [Go(id), Go(id)] + WholeChange(other, Add(e))
  }

  /** In particular the file of an added entry is missed, whether it arrives while the item waits
      for its turn or during the probe. */
  lemma AddedFileIsMissed(hash: Bytes -> Bytes, s: State, id: nat, other: nat, e: Entry, file: Bytes, waiting: bool,
                          now: int, due: int, recheck: int)
    requires Injective(hash) && Keyed(s.st) && e.folder != [] && e.folder in s.st.items && recheck > 0
    requires other != id && id !in s.tasks && other !in s.tasks
    requires NulFree(s.st.items[e.folder]) && NulFree(e.files)
    requires file in e.files && file !in s.st.items[e.folder]
    ensures var t := Run(hash, Step(hash, s, Pick(id, e.folder)), AddAround(id, other, e, waiting));
      EndHidesFile(hash, t, id, s.st.items[e.folder], e.folder, file, now, due, recheck)
  {
    var s0, ops := Step(hash, s, Pick(id, e.folder)), AddAround(id, other, e, waiting);
    AddAndProbe(hash, s0, id, other, e, waiting);
    OvertakenProbeHidesChange(hash, s, id, e.folder, ops, file, now, due, recheck);
  }

  lemma AddAndProbe(hash: Bytes -> Bytes, s: State, id: nat, other: nat, e: Entry, waiting: bool)
    requires e.folder != [] && other != id && id in s.tasks && s.tasks[id].Picked? && other !in s.tasks
    ensures var t := Run(hash, s, AddAround(id, other, e, waiting));
      && id in t.tasks && t.tasks[id].Probing?
      && FilesOf(t.st, e.folder) == Merged(FilesOf(s.st, e.folder), e.files)
  {
    if waiting {
      AddThenProbe(hash, s, id, other, e);
    } else {
      ProbeThenAdd(hash, s, id, other, e);
    }
  }

  lemma AddThenProbe(hash: Bytes -> Bytes, s: State, id: nat, other: nat, e: Entry)
    requires e.folder != [] && other != id && id in s.tasks && s.tasks[id].Picked? && other !in s.tasks
    ensures var t := Run(hash, s, WholeChange(other, Add(e)) + [Go(id), Go(id)]);
      && id in t.tasks && t.tasks[id].Probing?
      && FilesOf(t.st, e.folder) == Merged(FilesOf(s.st, e.folder), e.files)
  {
    RunConcat(hash, s, WholeChange(other, Add(e)), [Go(id), Go(id)]);
    ChangeWhole(hash, s, other, Add(e));
    ProbeStarts(hash, s.(st := Apply(hash, s.st, Add(e))), id);
    AddMerges(hash, s.st, e);
  }

  lemma ProbeThenAdd(hash: Bytes -> Bytes, s: State, id: nat, other: nat, e: Entry)
    requires e.folder != [] && other != id && id in s.tasks && s.tasks[id].Picked? && other !in s.tasks
    ensures var t := Run(hash, s, [Go(id), Go(id)] + WholeChange(other, Add(e)));
      && id in t.tasks && t.tasks[id].Probing?
      && FilesOf(t.st, e.folder) == Merged(FilesOf(s.st, e.folder), e.files)
  {
    RunConcat(hash, s, [Go(id), Go(id)], WholeChange(other, Add(e)));
    ProbeStarts(hash, s, id);
    var t := Run(hash, s, [Go(id), Go(id)]);
    ChangeWhole(hash, t, other, Add(e));
    AddMerges(hash, t.st, e);
  }

  lemma AddMerges(hash: Bytes -> Bytes, st: Store, e: Entry)
    requires e.folder != []
    ensures FilesOf(Apply(hash, st, Add(e)), e.folder) == Merged(FilesOf(st, e.folder), e.files)
  {
    var merged := Merged(FilesOf(st, e.folder), e.files);
  }

  lemma ProbeStarts(hash: Bytes -> Bytes, s: State, id: nat)
    requires id in s.tasks && s.tasks[id].Picked?
    ensures var t := Run(hash, s, [Go(id), Go(id)]);
      && t.st.items == s.st.items && id in t.tasks && t.tasks[id].Probing?
      && forall j :: j != id ==> (j in t.tasks <==> j in s.tasks)
  {
    RunOfTwo(hash, s, Go(id), Go(id));
  }

  // ----- instances -----

  const N: Bytes := [1]
  const H: Bytes := [2]
  const OneFile: Files := map[N := File(H, 1, false, None, 0, [])]

  /** An item of one file, and a record of it that has been checked. */
  ghost function Checked(hash: Bytes -> Bytes, interrupted: bool): State {
    var settled := NewHealth(N).(status := Healthy, lastChecked := Some(1), fingerprint := Print(hash, OneFile));
    var h := if interrupted then settled.(status := Repairing, active := true, previous := Some(Healthy)) else settled;
    State(Store(map[], map[N := OneFile], map[N := h]), map[])
  }

  const LastEntry := Entry(H, N, [], OneFile)

  /** The removal of the only entry of the name goes unnoticed in all these ways: item and files are gone,
      and the record says healthy. */
  lemma RemovalIsHidden(hash: Bytes -> Bytes)
    ensures Hidden(hash, Run(hash, Checked(hash, false), [Begin(0, Remove(LastEntry)), Go(0), Crash]).st, N)
    ensures forall reverts ::
      Hidden(hash, Run(hash, Checked(hash, reverts),
                       [Loads(1, N, reverts)] + WholeChange(0, Remove(LastEntry)) + [Go(1)]).st, N)
    ensures Hidden(hash, Run(hash, Checked(hash, false), [Pick(1, N), Go(1)] + WholeChange(0, Remove(LastEntry))
                                                         + [Go(1), Crash, Revert(1, N), Go(1)]).st, N)
  {
    forall i ensures Print(hash, FilesOf(Apply(hash, Checked(hash, i).st, Remove(LastEntry)), N)) == None {
      LastRemoved(Checked(hash, i).st);
    }
    CrashHidesChange(hash, Checked(hash, false), 0, Remove(LastEntry), N);
    forall i
      ensures Hidden(hash, Run(hash, Checked(hash, i),
                               [Loads(1, N, i)] + WholeChange(0, Remove(LastEntry)) + [Go(1)]).st, N)
    {
      MarkIsOverwritten(hash, Checked(hash, i), 1, i, 0, Remove(LastEntry), N);
    }
    InterruptedProbeHidesChange(hash, Checked(hash, false), 1, 0, Remove(LastEntry), N);
  }

  lemma LastRemoved(st: Store)
    requires st.items == map[N := OneFile]
    ensures FilesOf(Removed(st, LastEntry), N) == map[]
  {
    assert N in st.items && Kept(st.items[N], LastEntry) == map[];
  }
}
