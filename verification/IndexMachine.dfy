/** The operations on the index and on the health records, interleaved call by call: which steps keep
    every settled record about the files that are there. */
module IndexMachine {
  import opened Octets
  import opened Wrappers
  import opened Fingerprint
  import opened EntryIndex

  // ----- the steps: one call of a store at a time -----

  /** Where an operation stands between two calls of a store. No lock is held across calls, so that
      the steps of any number of operations interleave. */
  datatype Task =
    // updateEntryItem, removeFromEntryItem, UpdateItem
    | Storing(name: Bytes, files: Files, protocol: Bytes, marks: bool)  // has read the item, will put it
    | Deleting(name: Bytes)                                             // has read it, will delete it
    | Dropping(name: Bytes)                                             // has deleted it, will delete its record
    | Marking(name: Bytes, protocol: Bytes)                             // has put it, will load its record
    | MarkSaving(h: Health, protocol: Bytes)                            // will save that record as dirty
    // the enumeration of a sweep, then probeEntry
    | Picked(files: Files, name: Bytes)                                 // has read the item, will load its record
    | Showing(files: Files, h: Health)                                  // will save it as repairing
    | Probing(files: Files, h: Health)                                  // will save what the probes find
    // clearing of broken records, their update after a repair, reconcileOrphans
    | Clearing(h: Health)                                               // has loaded the record, will look for the item
    | Forgetting(name: Bytes)                                           // will delete the record
    | Saving(h: Health)                                                 // will save a record loaded before

  datatype Op =
    | Begin(id: nat, change: Change)   // an index change reads the item
    | Pick(id: nat, name: Bytes)       // a sweep reads the item
    | Touch(id: nat, name: Bytes)      // a record is loaded, to be saved with a new time of repair
    | Clear(id: nat, name: Bytes)      // a broken record is loaded
    | Keep(id: nat, broken: seq<Bytes>)  // not all of its files could be removed
    | Revert(id: nat, name: Bytes)     // reconcileOrphans reads a record
    | Go(id: nat)                      // the next call of a task
    | End(id: nat, status: Status, broken: seq<Bytes>, now: int, due: int, protocol: Bytes)
    | Forget(name: Bytes)
    | Crash

  datatype State = State(st: Store, tasks: map<nat, Task>)

  function To(s: State, st: Store, id: nat, t: Option<Task>): State {
    State(st, if t.Some? then s.tasks[id := t.value] else s.tasks - {id})
  }

  /** What an index change goes on with after it has read the item. */
  ghost function Planned(hash: Bytes -> Bytes, st: Store, c: Change): Option<Task> {
    match c
    case Add(e) =>
      if e.folder == [] then None
      else
        var files := Merged(FilesOf(st, e.folder), e.files);
        Some(Storing(e.folder, files, e.protocol, Print(hash, FilesOf(st, e.folder)) != Print(hash, files)))
    case Remove(e) =>
      if e.folder == [] || e.folder !in st.items then None
      else
        var kept := Kept(st.items[e.folder], e);
        if kept == map[] then Some(Deleting(e.folder)) else Some(Storing(e.folder, kept, e.protocol, true))
    case Put(item, files) =>
      Some(Storing(item, files, [], Print(hash, FilesOf(st, item)) != Print(hash, files)))
  }

  /** The next call of task id. */
  function Next(s: State, id: nat): State
    requires id in s.tasks
  {
    var st := s.st;
    match s.tasks[id]
    case Storing(name, files, protocol, marks) =>
      To(s, st.(items := st.items[name := files]), id, if marks then Some(Marking(name, protocol)) else None)
    case Deleting(name) => To(s, st.(items := st.items - {name}), id, Some(Dropping(name)))
    case Dropping(name) => To(s, st.(health := st.health - {name}), id, None)
    case Marking(name, protocol) =>
      To(s, st, id, if name == [] then None else Some(MarkSaving(LoadOrNew(st, name), protocol)))
    case MarkSaving(h, protocol) => To(s, Save(st, Marked(h, protocol, ENTRY_ITEM_CHANGED)), id, None)
    case Picked(files, name) => To(s, st, id, Some(Showing(files, Begun(st, name))))
    case Showing(files, h) => To(s, Save(st, h), id, Some(Probing(files, h)))
    case Probing(_, _) => s
    case Clearing(h) =>
      To(s, st, id, Some(if h.entryName in st.items then Saving(Cleared(h)) else Forgetting(h.entryName)))
    case Forgetting(name) => To(s, st.(health := st.health - {name}), id, None)
    case Saving(h) => To(s, Save(st, h), id, None)
  }

  /** What an operation goes on with after its first call. */
  ghost function Started(hash: Bytes -> Bytes, st: Store, op: Op): Option<Task> {
    match op
    case Begin(_, c) => Planned(hash, st, c)
    case Pick(_, name) => if name in st.items then Some(Picked(st.items[name], name)) else None
    case Touch(_, name) => if Load(st, name).Some? then Some(Saving(Load(st, name).value)) else None
    case Clear(_, name) =>
      var h := Load(st, name);
      if h.Some? && h.value.status == Broken then Some(Clearing(h.value)) else None
    case Revert(_, name) =>
      var h := Load(st, name);
      if h.Some? && h.value.active then Some(Saving(Reverted(h.value))) else None
    case _ => None
  }

  predicate Starts(op: Op) {
    op.Begin? || op.Pick? || op.Touch? || op.Clear? || op.Revert?
  }

  ghost function Step(hash: Bytes -> Bytes, s: State, op: Op): State {
    match op
    case Keep(id, broken) =>
      if id in s.tasks && s.tasks[id].Clearing?
      then To(s, s.st, id, Some(Saving(s.tasks[id].h.(status := Broken, broken := broken)))) else s
    case Go(id) => if id in s.tasks then Next(s, id) else s
    case End(id, status, broken, now, due, protocol) =>
      if id !in s.tasks || !s.tasks[id].Probing? then s
      else
        var t := s.tasks[id];
        To(s, Save(s.st, Ended(hash, t.files, t.h, status, broken, now, due, protocol)), id, None)
    case Forget(name) => s.(st := s.st.(health := s.st.health - {name}))
    case Crash => State(s.st, map[])
    case _ => if op.id in s.tasks || Started(hash, s.st, op).None? then s
              else To(s, s.st, op.id, Started(hash, s.st, op))
  }

  ghost function Run(hash: Bytes -> Bytes, s: State, ops: seq<Op>): State
    decreases ops
  {
    if ops == [] then s else Run(hash, Step(hash, s, ops[0]), ops[1..])
  }

  // ----- what is kept -----

  /** Settled now, or after a restart. */
  predicate AtRest(h: Health) { Settled(h) || Settled(Reverted(h)) }

  /** The record of a name, if it is settled or a restart would make it so, is about the files that
      the item has now. */
  ghost predicate Covered(hash: Bytes -> Bytes, st: Store, name: Bytes) {
    name in st.health && AtRest(st.health[name]) ==> st.health[name].fingerprint == Print(hash, FilesOf(st, name))
  }

  /** The task has changed the item of that name and not yet said so in the record. */
  predicate Owes(t: Task, name: Bytes) {
    match t
    case Dropping(n) => n == name
    case Marking(n, _) => n == name
    case MarkSaving(h, _) => h.entryName == name
    case _ => false
  }

  ghost predicate Owed(s: State, name: Bytes) {
    exists id :: id in s.tasks && Owes(s.tasks[id], name)
  }

  /** Every name is covered, except those for which a mark is still on its way. */
  ghost predicate Inv(hash: Bytes -> Bytes, s: State) {
    Keyed(s.st) && forall name :: Owed(s, name) || Covered(hash, s.st, name)
  }

  // ----- which steps keep it -----

  /** The record that a step saves. */
  ghost function Written(hash: Bytes -> Bytes, s: State, op: Op): Option<Health> {
    if op.Go? && op.id in s.tasks then
      match s.tasks[op.id]
      case MarkSaving(h, protocol) => Some(Marked(h, protocol, ENTRY_ITEM_CHANGED))
      case Showing(_, h) => Some(h)
      case Saving(h) => Some(h)
      case _ => None
    else if op.End? && op.id in s.tasks && s.tasks[op.id].Probing? then
      Some(Ended(hash, s.tasks[op.id].files, s.tasks[op.id].h, op.status, op.broken, op.now, op.due, op.protocol))
    else None
  }

  /** The step saves a record from before the files became what they are, clean and settled. */
  ghost predicate SavesStale(hash: Bytes -> Bytes, s: State, op: Op) {
    var w := Written(hash, s, op);
    && w.Some? && w.value.entryName != [] && AtRest(w.value) && !Owed(s, w.value.entryName)
    && w.value.fingerprint != Print(hash, FilesOf(s.st, w.value.entryName))
  }

  /** The step puts an item back as it was when it was read, without a mark, over a settled record of
      other files. */
  ghost predicate StoresStale(hash: Bytes -> Bytes, s: State, op: Op) {
    && op.Go? && op.id in s.tasks && s.tasks[op.id].Storing? && !s.tasks[op.id].marks
    && var name := s.tasks[op.id].name;
      && name in s.st.health && AtRest(s.st.health[name]) && !Owed(s, name)
      && Print(hash, s.tasks[op.id].files) != Print(hash, FilesOf(s.st, name))
  }

  /** The process ends between the change of an item and its mark. */
  ghost predicate LosesMark(hash: Bytes -> Bytes, s: State, op: Op) {
    op.Crash? && exists name :: Owed(s, name) && !Covered(hash, s.st, name)
  }

  ghost predicate Loses(hash: Bytes -> Bytes, s: State, op: Op) {
    SavesStale(hash, s, op) || StoresStale(hash, s, op) || LosesMark(hash, s, op)
  }

  ghost predicate NeverLoses(hash: Bytes -> Bytes, s: State, ops: seq<Op>)
    decreases ops
  {
    ops == [] || (!Loses(hash, s, ops[0]) && NeverLoses(hash, Step(hash, s, ops[0]), ops[1..]))
  }

  /** Another task than id owes a mark. */
  ghost predicate OwedElse(s: State, id: nat, name: Bytes) {
    exists j :: j in s.tasks && j != id && Owes(s.tasks[j], name)
  }

  lemma OwedAfter(s: State, st: Store, id: nat, t: Option<Task>, name: Bytes)
    ensures Owed(To(s, st, id, t), name) <==> OwedElse(s, id, name) || (t.Some? && Owes(t.value, name))
    ensures Owed(s, name) <==> OwedElse(s, id, name) || (id in s.tasks && Owes(s.tasks[id], name))
  {
    var s' := To(s, st, id, t);
    if j :| j in s.tasks && j != id && Owes(s.tasks[j], name) {
      assert s'.tasks[j] == s.tasks[j];
    }
    if t.Some? && Owes(t.value, name) {
      assert id in s'.tasks;
    }
    if j :| j in s'.tasks && Owes(s'.tasks[j], name) {
      assert j != id ==> s.tasks[j] == s'.tasks[j];
    }
  }

  /** A step of one task that concerns one name keeps the invariant exactly when it keeps it there. */
  lemma OneName(hash: Bytes -> Bytes, s: State, st: Store, id: nat, t: Option<Task>, name: Bytes)
    requires Inv(hash, s) && Keyed(st) && DifferAt(s.st, st, name)
    requires id in s.tasks ==> forall n :: n != name ==> !Owes(s.tasks[id], n)
    requires t.Some? ==> forall n :: n != name ==> !Owes(t.value, n)
    ensures Inv(hash, To(s, st, id, t)) <==>
      OwedElse(s, id, name) || (t.Some? && Owes(t.value, name)) || Covered(hash, st, name)
  {
    var s' := To(s, st, id, t);
    OwedAfter(s, st, id, t, name);
    forall n | n != name
      ensures Owed(s', n) || Covered(hash, st, n)
    {
      OwedAfter(s, st, id, t, n);
      assert FilesOf(s.st, n) == FilesOf(st, n) && HealthOf(s.st, n) == HealthOf(st, n);
      assert Owed(s, n) || Covered(hash, s.st, n);
    }
    assert Inv(hash, s') <==> Owed(s', name) || Covered(hash, st, name);
  }

  /** Saving a record, at the end of a task or not, keeps the invariant if and only if the record is
      not at rest, is about the present files, or another task will still mark it. */
  lemma SaveKeeps(hash: Bytes -> Bytes, s: State, id: nat, h: Health, t: Option<Task>)
    requires Inv(hash, s) && (t.Some? ==> t.value.Probing?)
    requires id in s.tasks ==> forall n :: n != h.entryName ==> !Owes(s.tasks[id], n)
    ensures Inv(hash, To(s, Save(s.st, h), id, t)) <==>
      (h.entryName != [] && AtRest(h) && !OwedElse(s, id, h.entryName) ==>
         h.fingerprint == Print(hash, FilesOf(s.st, h.entryName)))
  {
    var st := Save(s.st, h);
    SaveKeyed(s.st, h);
    OneName(hash, s, st, id, t, h.entryName);
    assert FilesOf(st, h.entryName) == FilesOf(s.st, h.entryName);
    assert h.entryName != [] ==> (AtRest(st.health[h.entryName]) <==> AtRest(h));
  }

  /** A put that is followed by a mark keeps it, and one without a mark does if and only if the item
      has the files that the record is about, or another task will still mark it. */
  lemma StoreKeeps(hash: Bytes -> Bytes, s: State, id: nat)
    requires Inv(hash, s) && id in s.tasks && s.tasks[id].Storing?
    ensures Inv(hash, Next(s, id)) <==> !StoresStale(hash, s, Go(id))
  {
    var task, st := s.tasks[id], s.st.(items := s.st.items[s.tasks[id].name := s.tasks[id].files]);
    var t := if task.marks then Some(Marking(task.name, task.protocol)) else None;
    OneName(hash, s, st, id, t, task.name);
    OwedAfter(s, st, id, t, task.name);
    assert Owed(s, task.name) || Covered(hash, s.st, task.name);
  }

  lemma DropKeeps(hash: Bytes -> Bytes, s: State, id: nat)
    requires Inv(hash, s) && id in s.tasks
    requires s.tasks[id].Deleting? || s.tasks[id].Dropping? || s.tasks[id].Forgetting?
    ensures Inv(hash, Next(s, id))
  {
    var s', name := Next(s, id), s.tasks[id].name;
    OneName(hash, s, s'.st, id, if s.tasks[id].Deleting? then Some(Dropping(name)) else None, name);
  }

  /** The mark itself keeps it, in both halves. */
  lemma MarkKeeps(hash: Bytes -> Bytes, s: State, id: nat)
    requires Inv(hash, s) && id in s.tasks && (s.tasks[id].Marking? || s.tasks[id].MarkSaving?)
    ensures Inv(hash, Next(s, id))
  {
    match s.tasks[id]
    case Marking(name, protocol) =>
      var t := if name == [] then None else Some(MarkSaving(LoadOrNew(s.st, name), protocol));
      OneName(hash, s, s.st, id, t, name);
    case MarkSaving(h, protocol) =>
      SaveKeeps(hash, s, id, Marked(h, protocol, ENTRY_ITEM_CHANGED), None);
  }

  /** A step that only reads keeps it. */
  lemma ReadKeeps(hash: Bytes -> Bytes, s: State, id: nat, t: Option<Task>)
    requires Inv(hash, s) && (id in s.tasks ==> forall n :: !Owes(s.tasks[id], n))
    requires t.Some? ==> forall n :: !Owes(t.value, n)
    ensures Inv(hash, To(s, s.st, id, t))
  {
    OneName(hash, s, s.st, id, t, []);
  }

  /** A crash keeps it if and only if nothing that is owed makes a difference. */
  lemma CrashKeeps(hash: Bytes -> Bytes, s: State)
    requires Inv(hash, s)
    ensures Inv(hash, State(s.st, map[])) <==> forall name :: Owed(s, name) ==> Covered(hash, s.st, name)
  {
    assert forall name :: !Owed(State(s.st, map[]), name);
    forall name
      ensures Owed(s, name) || Covered(hash, s.st, name)
    {
    }
  }

  lemma ForgetKeeps(hash: Bytes -> Bytes, s: State, name: Bytes)
    requires Inv(hash, s)
    ensures Inv(hash, s.(st := s.st.(health := s.st.health - {name})))
  {
    var s' := s.(st := s.st.(health := s.st.health - {name}));
    forall n
      ensures Owed(s', n) || Covered(hash, s'.st, n)
    {
      assert Owed(s, n) || Covered(hash, s.st, n);
      if id :| id in s.tasks && Owes(s.tasks[id], n) {
        assert s'.tasks[id] == s.tasks[id];
      }
    }
  }

  lemma GoKeeps(hash: Bytes -> Bytes, s: State, id: nat)
    requires Inv(hash, s) && id in s.tasks
    ensures Inv(hash, Next(s, id)) <==> !Loses(hash, s, Go(id))
  {
    match s.tasks[id]
    case Storing(_, _, _, _) => StoreKeeps(hash, s, id);
    case Deleting(_) => DropKeeps(hash, s, id);
    case Dropping(_) => DropKeeps(hash, s, id);
    case Forgetting(_) => DropKeeps(hash, s, id);
    case Marking(_, _) => MarkKeeps(hash, s, id);
    case MarkSaving(_, _) => MarkKeeps(hash, s, id);
    case Picked(files, name) => ReadKeeps(hash, s, id, Some(Showing(files, Begun(s.st, name))));
    case Probing(_, _) =>
    case Clearing(h) =>
      ReadKeeps(hash, s, id, Some(if h.entryName in s.st.items then Saving(Cleared(h)) else Forgetting(h.entryName)));
    case Showing(files, h) =>
      SaveKeeps(hash, s, id, h, Some(Probing(files, h)));
      OwedAfter(s, s.st, id, None, h.entryName);
    case Saving(h) =>
      SaveKeeps(hash, s, id, h, None);
      OwedAfter(s, s.st, id, None, h.entryName);
  }

  lemma EndKeeps(hash: Bytes -> Bytes, s: State, op: Op)
    requires Inv(hash, s) && op.End? && op.id in s.tasks && s.tasks[op.id].Probing?
    ensures Inv(hash, Step(hash, s, op)) <==> !Loses(hash, s, op)
  {
    var h := Written(hash, s, op).value;
    SaveKeeps(hash, s, op.id, h, None);
    OwedAfter(s, s.st, op.id, None, h.entryName);
  }

  /** A step keeps the invariant if and only if it is none of these three: it saves a stale record,
      puts a stale item without a mark, or ends the process before a mark. */
  lemma StepKeeps(hash: Bytes -> Bytes, s: State, op: Op)
    requires Inv(hash, s)
    ensures Inv(hash, Step(hash, s, op)) <==> !Loses(hash, s, op)
  {
    match op
    case Go(id) =>
      if id in s.tasks {
        GoKeeps(hash, s, id);
      }
    case End(id, _, _, _, _, _) =>
      if id in s.tasks && s.tasks[id].Probing? {
        EndKeeps(hash, s, op);
      }
    case Keep(id, broken) =>
      if id in s.tasks && s.tasks[id].Clearing? {
        ReadKeeps(hash, s, id, Some(Saving(s.tasks[id].h.(status := Broken, broken := broken))));
      }
    case Forget(name) => ForgetKeeps(hash, s, name);
    case Crash => CrashKeeps(hash, s);
    case _ =>
      if op.id !in s.tasks && Started(hash, s.st, op).Some? {
        ReadKeeps(hash, s, op.id, Started(hash, s.st, op));
      }
  }

  /** Over any run without such a step, a record that is at rest is about the present files, for
      every name for which no mark is on its way. */
  lemma {:induction false} RunsStayCovered(hash: Bytes -> Bytes, s: State, ops: seq<Op>)
    requires Inv(hash, s) && NeverLoses(hash, s, ops)
    ensures Inv(hash, Run(hash, s, ops))
    decreases ops
  {
    if ops != [] {
      StepKeeps(hash, s, ops[0]);
      RunsStayCovered(hash, Step(hash, s, ops[0]), ops[1..]);
    }
  }
  /** What that means with a hash that tells texts apart: an entry whose files are not those that
      were last probed is due. */
  lemma ChangedIsDue(hash: Bytes -> Bytes, st: Store, name: Bytes, probed: Files, now: int, recheck: int)
    requires Injective(hash) && Covered(hash, st, name) && NulFree(probed) && NulFree(FilesOf(st, name))
    requires name in st.health ==> st.health[name].fingerprint == Print(hash, probed)
    requires !SameFiles(probed, FilesOf(st, name))
    ensures IsDue(HealthOf(st, name), now, recheck)
  {
    PrintTellsApart(hash, probed, FilesOf(st, name));
  }

  // ----- one operation at a time on a name -----

  /** The name that a task works on. */
  function Concerns(t: Task): Bytes {
    match t
    case Storing(name, _, _, _) => name
    case Deleting(name) => name
    case Dropping(name) => name
    case Marking(name, _) => name
    case MarkSaving(h, _) => h.entryName
    case Picked(_, name) => name
    case Showing(_, h) => h.entryName
    case Probing(_, h) => h.entryName
    case Clearing(h) => h.entryName
    case Forgetting(name) => name
    case Saving(h) => h.entryName
  }

  predicate Sound(h: Health) { h.active ==> h.status == Repairing }

  ghost predicate IsAbout(hash: Bytes -> Bytes, st: Store, h: Health) {
    AtRest(h) ==> h.fingerprint == Print(hash, FilesOf(st, h.entryName))
  }

  /** What the task has read is still so, as far as it matters. */
  ghost predicate Current(hash: Bytes -> Bytes, st: Store, t: Task) {
    match t
    case Storing(name, files, _, marks) => marks || Print(hash, files) == Print(hash, FilesOf(st, name))
    case MarkSaving(h, _) => Sound(h)
    case Picked(files, name) => Print(hash, files) == Print(hash, FilesOf(st, name))
    case Showing(files, h) =>
      Print(hash, files) == Print(hash, FilesOf(st, h.entryName)) && Sound(h) && IsAbout(hash, st, h)
    case Probing(files, h) => Print(hash, files) == Print(hash, FilesOf(st, h.entryName))
    case Clearing(h) => h.status == Broken && !h.active
    case Saving(h) => Sound(h) && IsAbout(hash, st, h)
    case _ => true
  }

  ghost predicate AllSound(st: Store) {
    forall name :: name in st.health ==> Sound(st.health[name])
  }

  ghost predicate Apart(s: State) {
    forall i, j :: i in s.tasks && j in s.tasks && i != j ==> Concerns(s.tasks[i]) != Concerns(s.tasks[j])
  }

  ghost predicate InTurn(hash: Bytes -> Bytes, s: State) {
    Inv(hash, s) && AllSound(s.st) && Apart(s) && forall id :: id in s.tasks ==> Current(hash, s.st, s.tasks[id])
  }

  /** An operation starts when no other is under way on its name, and the process does not end while
      a mark is on its way. */
  ghost predicate TakesTurn(hash: Bytes -> Bytes, s: State, op: Op) {
    && (op.Crash? ==> forall name :: !Owed(s, name))
    && (Starts(op) && op.id !in s.tasks && Started(hash, s.st, op).Some? ==>
          forall i :: i in s.tasks ==> Concerns(s.tasks[i]) != Concerns(Started(hash, s.st, op).value))
  }

  ghost predicate AllTakeTurns(hash: Bytes -> Bytes, s: State, ops: seq<Op>)
    decreases ops
  {
    ops == [] || (TakesTurn(hash, s, ops[0]) && AllTakeTurns(hash, Step(hash, s, ops[0]), ops[1..]))
  }

  lemma InTurnLosesNothing(hash: Bytes -> Bytes, s: State, op: Op)
    requires InTurn(hash, s) && TakesTurn(hash, s, op)
    ensures !Loses(hash, s, op)
  {
    if (op.Go? || op.End?) && op.id in s.tasks {
      assert Current(hash, s.st, s.tasks[op.id]);
    }
  }

  /** A record that is loaded while no task owes a mark for it is about the present files. */
  lemma LoadedIsAbout(hash: Bytes -> Bytes, s: State, name: Bytes)
    requires Inv(hash, s) && AllSound(s.st) && !Owed(s, name)
    ensures LoadOrNew(s.st, name).entryName == name && Sound(LoadOrNew(s.st, name))
    ensures IsAbout(hash, s.st, LoadOrNew(s.st, name))
    ensures Begun(s.st, name).entryName == name && IsAbout(hash, s.st, Begun(s.st, name))
  {
    assert Covered(hash, s.st, name);
  }

  lemma StartedIsCurrent(hash: Bytes -> Bytes, s: State, op: Op)
    requires InTurn(hash, s) && TakesTurn(hash, s, op)
    requires Starts(op) && op.id !in s.tasks && Started(hash, s.st, op).Some?
    ensures Current(hash, s.st, Started(hash, s.st, op).value)
  {
    if op.Touch? || op.Clear? || op.Revert? {
      forall i | i in s.tasks
        ensures !Owes(s.tasks[i], op.name)
      {
        assert Concerns(s.tasks[i]) != Concerns(Started(hash, s.st, op).value);
      }
      LoadedIsAbout(hash, s, op.name);
    }
  }

  /** The task goes on with the same name and leaves the files of all other names alone. */
  lemma NextStaysOn(hash: Bytes -> Bytes, s: State, id: nat)
    requires Keyed(s.st) && id in s.tasks
    ensures var s' := Next(s, id);
      && (id in s'.tasks ==> Concerns(s'.tasks[id]) == Concerns(s.tasks[id]))
      && (forall j :: j != id ==> (j in s'.tasks <==> j in s.tasks))
      && (forall j :: j != id && j in s.tasks ==> s'.tasks[j] == s.tasks[j])
      && (forall n :: n != Concerns(s.tasks[id]) ==> FilesOf(s'.st, n) == FilesOf(s.st, n))
  {
  }

  lemma NextIsCurrent(hash: Bytes -> Bytes, s: State, id: nat)
    requires InTurn(hash, s) && id in s.tasks && id in Next(s, id).tasks
    ensures Current(hash, Next(s, id).st, Next(s, id).tasks[id])
  {
    assert Current(hash, s.st, s.tasks[id]);
    match s.tasks[id]
    case Picked(files, name) =>
      forall i | i in s.tasks
        ensures !Owes(s.tasks[i], name)
      {
        assert i != id ==> Concerns(s.tasks[i]) != Concerns(s.tasks[id]);
      }
      LoadedIsAbout(hash, s, name);
    case _ =>
  }

  lemma NextSound(hash: Bytes -> Bytes, s: State, id: nat)
    requires InTurn(hash, s) && id in s.tasks
    ensures AllSound(Next(s, id).st)
  {
    assert Current(hash, s.st, s.tasks[id]);
  }

  lemma GoKeepsTurns(hash: Bytes -> Bytes, s: State, id: nat)
    requires InTurn(hash, s) && id in s.tasks && Inv(hash, Next(s, id))
    ensures InTurn(hash, Next(s, id))
  {
    var s' := Next(s, id);
    NextStaysOn(hash, s, id);
    NextSound(hash, s, id);
    forall j | j in s'.tasks
      ensures Current(hash, s'.st, s'.tasks[j])
    {
      if j == id {
        NextIsCurrent(hash, s, id);
      }
    }
  }

  lemma StepKeepsTurns(hash: Bytes -> Bytes, s: State, op: Op)
    requires InTurn(hash, s) && TakesTurn(hash, s, op)
    ensures InTurn(hash, Step(hash, s, op))
  {
    InTurnLosesNothing(hash, s, op);
    StepKeeps(hash, s, op);
    var s' := Step(hash, s, op);
    if op.Go? && op.id in s.tasks {
      GoKeepsTurns(hash, s, op.id);
    } else if Starts(op) && op.id !in s.tasks && Started(hash, s.st, op).Some? {
      StartedIsCurrent(hash, s, op);
    } else {
      OthersKeepTurns(hash, s, op);
    }
  }

  lemma OthersKeepTurns(hash: Bytes -> Bytes, s: State, op: Op)
    requires InTurn(hash, s) && Inv(hash, Step(hash, s, op))
    requires op.Keep? || op.End? || op.Forget? || op.Crash? || Step(hash, s, op) == s
    ensures InTurn(hash, Step(hash, s, op))
  {
    match op
    case Keep(id, broken) => KeepKeepsTurns(hash, s, id, broken);
    case End(id, _, _, _, _, _) =>
      if id in s.tasks && s.tasks[id].Probing? {
        SaveKeepsTurns(hash, s, id, Written(hash, s, op).value);
      }
    case Forget(name) =>
      forall j | j in s.tasks
        ensures Current(hash, Step(hash, s, op).st, s.tasks[j])
      {
      }
    case _ =>
  }

  lemma KeepKeepsTurns(hash: Bytes -> Bytes, s: State, id: nat, broken: seq<Bytes>)
    requires InTurn(hash, s) && Inv(hash, Step(hash, s, Keep(id, broken)))
    ensures InTurn(hash, Step(hash, s, Keep(id, broken)))
  {
    if id in s.tasks {
      assert Current(hash, s.st, s.tasks[id]);
    }
  }

  lemma SaveKeepsTurns(hash: Bytes -> Bytes, s: State, id: nat, h: Health)
    requires InTurn(hash, s) && !h.active && Inv(hash, To(s, Save(s.st, h), id, None))
    ensures InTurn(hash, To(s, Save(s.st, h), id, None))
  {
    forall j | j in s.tasks
      ensures Current(hash, Save(s.st, h), s.tasks[j])
    {
    }
  }

  /** With one operation at a time on a name, and no crash before a mark, no change is ever hidden. */
  lemma {:induction false} TurnsStayCovered(hash: Bytes -> Bytes, s: State, ops: seq<Op>)
    requires InTurn(hash, s) && AllTakeTurns(hash, s, ops)
    ensures NeverLoses(hash, s, ops) && Inv(hash, Run(hash, s, ops))
    decreases ops
  {
    if ops != [] {
      InTurnLosesNothing(hash, s, ops[0]);
      StepKeepsTurns(hash, s, ops[0]);
      TurnsStayCovered(hash, Step(hash, s, ops[0]), ops[1..]);
    }
  }

  // ----- operations that nothing interrupts -----

  lemma {:induction false} RunConcat(hash: Bytes -> Bytes, s: State, a: seq<Op>, b: seq<Op>)
    ensures Run(hash, s, a + b) == Run(hash, Run(hash, s, a), b)
    decreases a
  {
    if a == [] {
      assert a + b == b;
    } else {
      assert (a + b)[1..] == a[1..] + b;
      RunConcat(hash, Step(hash, s, a[0]), a[1..], b);
    }
  }

  lemma RunOfTwo(hash: Bytes -> Bytes, s: State, a: Op, b: Op)
    ensures Run(hash, s, [a, b]) == Step(hash, Step(hash, s, a), b)
  {
    assert [a, b][1..] == [b];
    assert Run(hash, Step(hash, s, a), [b]) == Run(hash, Step(hash, Step(hash, s, a), b), []);
  }

  lemma RunOfFour(hash: Bytes -> Bytes, s: State, a: Op, b: Op, c: Op, d: Op)
    ensures Run(hash, s, [a, b, c, d]) == Step(hash, Step(hash, Step(hash, Step(hash, s, a), b), c), d)
  {
    assert [a, b, c, d] == [a, b] + [c, d];
    RunConcat(hash, s, [a, b], [c, d]);
    RunOfTwo(hash, s, a, b);
    RunOfTwo(hash, Step(hash, Step(hash, s, a), b), c, d);
  }

  function WholeChange(id: nat, c: Change): seq<Op> { [Begin(id, c), Go(id), Go(id), Go(id)] }

  lemma ToTwice(s: State, a: Store, b: Store, id: nat, t: Option<Task>, u: Option<Task>)
    ensures To(To(s, a, id, t), b, id, u) == To(s, b, id, u)
    ensures id !in s.tasks ==> To(s, a, id, None) == s.(st := a)
  {
    assert u.Some? && t.Some? ==> s.tasks[id := t.value][id := u.value] == s.tasks[id := u.value];
    assert u.Some? && t.None? ==> (s.tasks - {id})[id := u.value] == s.tasks[id := u.value];
    assert u.None? && t.Some? ==> s.tasks[id := t.value] - {id} == s.tasks - {id};
    assert id !in s.tasks ==> s.tasks - {id} == s.tasks;
  }

  lemma GoMarking(hash: Bytes -> Bytes, s: State, st: Store, id: nat, name: Bytes, protocol: Bytes)
    requires id !in s.tasks
    ensures var s1 := To(s, st, id, Some(Marking(name, protocol)));
      Step(hash, Step(hash, s1, Go(id)), Go(id)) == s.(st := MarkDirty(st, name, protocol, ENTRY_ITEM_CHANGED))
  {
    var t, u := Some(Marking(name, protocol)), Some(MarkSaving(LoadOrNew(st, name), protocol));
    var marked := MarkDirty(st, name, protocol, ENTRY_ITEM_CHANGED);
    ToTwice(s, st, st, id, t, u);
    ToTwice(s, st, st, id, t, None);
    ToTwice(s, st, marked, id, u, None);
    ToTwice(s, marked, marked, id, u, None);
  }

  lemma GoStoring(hash: Bytes -> Bytes, s: State, id: nat, t: Task)
    requires id !in s.tasks && t.Storing?
    ensures var s1 := To(s, s.st, id, Some(t));
      Step(hash, Step(hash, Step(hash, s1, Go(id)), Go(id)), Go(id))
      == s.(st := PutAndMark(s.st, t.name, t.files, t.protocol, t.marks))
  {
    var put := s.st.(items := s.st.items[t.name := t.files]);
    var next := if t.marks then Some(Marking(t.name, t.protocol)) else None;
    ToTwice(s, s.st, put, id, Some(t), next);
    if t.marks {
      GoMarking(hash, s, put, id, t.name, t.protocol);
    } else {
      ToTwice(s, put, put, id, None, None);
    }
  }

  lemma GoDeleting(hash: Bytes -> Bytes, s: State, id: nat, name: Bytes)
    requires id !in s.tasks
    ensures var s1 := To(s, s.st, id, Some(Deleting(name)));
      Step(hash, Step(hash, Step(hash, s1, Go(id)), Go(id)), Go(id))
      == s.(st := s.st.(items := s.st.items - {name}, health := s.st.health - {name}))
  {
    var a := s.st.(items := s.st.items - {name});
    var b := a.(health := a.health - {name});
    ToTwice(s, s.st, a, id, Some(Deleting(name)), Some(Dropping(name)));
    ToTwice(s, a, b, id, Some(Dropping(name)), None);
    ToTwice(s, b, b, id, None, None);
  }

  /** The steps of an index change, when nothing comes between them, do what the change is to do. */
  lemma ChangeWhole(hash: Bytes -> Bytes, s: State, id: nat, c: Change)
    requires id !in s.tasks
    ensures Run(hash, s, WholeChange(id, c)) == s.(st := Apply(hash, s.st, c))
  {
    RunOfFour(hash, s, Begin(id, c), Go(id), Go(id), Go(id));
    match Planned(hash, s.st, c)
    case None =>
    case Some(t) =>
      if t.Storing? {
        GoStoring(hash, s, id, t);
      } else {
        GoDeleting(hash, s, id, t.name);
      }
  }
}
