/** What a file holds on disk while loads, verdicts, undos, redos, rollbacks and deletions of it overlap. The write of an
undo, redo or rollback lands when it is resumed; one that lands too late is repaired, and once nothing is left to repair
the file holds what it should. */
module DiskTarget {
  import opened Modifications
  import opened DiffContext
  import opened DiffProtocol
  import opened DiffSafety
  import opened Stacks
  import History

  /** The content a file should hold: the one the registered latest load aims at, else the one on screen or stored. */
  function TargetOf(s: Store, key: Key): Option<string> {
    CurrentTarget(s, key.context, key.document, None, Lookup(s.loads, key))
  }

  /** The system, and what was last written to each file by an undo, redo, rollback or repair, as long as nothing else has
      given the file another target since. A load takes its content from a file that was written elsewhere. */
  datatype Desk = Desk(system: System, disk: map<Key, string>)

  /** The file and content a suspended operation is writing. */
  function WriteOf(t: Task): Option<(Key, string)> {
    match t
    case MoveTask(m) =>
      if StackOf(m.source, m.direction) == [] then None
      else Some((MoveKey(m), var e := Last(StackOf(m.source, m.direction));
                             if m.direction == Backward then e.contentBefore else e.contentAfter))
    case RollbackTask(r) => if r.at.Writing? then Some((RollbackKey(r), r.at.target.content)) else None
    case RepairTask(p) => Some((Key(p.context, p.document), p.content))
    case LoadTask(_) => None
  }

  /** The write that lands with an event. */
  function Landing(y: System, e: Event): Option<(Key, string)> {
    if e.Resume? && e.id in y.tasks && !e.answer.Failure? then WriteOf(y.tasks[e.id]) else None
  }

  function StillWanted(disk: map<Key, string>, s: Store, t: Store): map<Key, string> {
    map k | k in disk && TargetOf(t, k) == TargetOf(s, k) :: disk[k]
  }

  function NextDesk(d: Desk, e: Event): Desk {
    var z := Next(d.system, e);
    var kept := StillWanted(d.disk, d.system.store, z.store);
    Desk(z, match Landing(d.system, e) case None => kept case Some(w) => kept[w.0 := w.1])
  }

  function RunDesk(d: Desk, events: seq<Event>): Desk
    decreases |events|
  {
    if events == [] then d else RunDesk(NextDesk(d, events[0]), events[1..])
  }

  predicate Writes(t: Task, key: Key) {
    WriteOf(t).Some? && WriteOf(t).value.0 == key
  }

  /** No write of the file fails, or lands where its path was deleted, and no repair of it gives up at its last attempt.
      Everything else may happen. */
  predicate GoesWell(y: System, e: Event, key: Key) {
    e.Resume? && e.id in y.tasks && Writes(y.tasks[e.id], key) ==>
      && !e.answer.Failure? && !WasPathDeleted(y.store.markers, key.context, key.document)
      && (y.tasks[e.id].RepairTask? && y.tasks[e.id].repair.attempt + 1 >= MAX_REPAIR_ATTEMPTS ==>
            RepairHolds(y.store, y.tasks[e.id].repair))
  }

  predicate AllGoWell(d: Desk, events: seq<Event>, key: Key)
    decreases |events|
  {
    events != [] ==> GoesWell(d.system, events[0], key) && AllGoWell(NextDesk(d, events[0]), events[1..], key)
  }

  // ---------------------------------------------------------------- the load an operation superseded is over

  /** The file of an operation and the load generation it started from or repairs for. */
  function SupersededBy(t: Task): Option<(Key, Option<nat>)> {
    match t
    case MoveTask(m) => Some((MoveKey(m), m.loadGen))
    case RollbackTask(r) => Some((RollbackKey(r), r.loadGen))
    case RepairTask(p) => Some((Key(p.context, p.document), p.superseded))
    case LoadTask(_) => None
  }

  /** That load is not registered, and no later one will have its generation. */
  predicate Past(s: Store, key: Key, gen: Option<nat>) {
    gen.Some? ==> key in s.loads && gen.value <= s.loads[key] && Lookup(s.active, key) != gen
  }

  predicate AgedTask(s: Store, t: Task) {
    var g := SupersededBy(t);
    g.Some? ==> Past(s, g.value.0, g.value.1)
  }

  predicate Aged(y: System) {
    forall id :: id in y.tasks ==> AgedTask(y.store, y.tasks[id])
  }

  /** Generations only grow, and a file registers the load it had or a new one. */
  predicate Ages(s: Store, t: Store) {
    && Grows(s.loads, t.loads)
    && forall k :: k in t.active ==> Lookup(s.active, k) == Some(t.active[k]) || Count(s.loads, k) < t.active[k]
  }

  lemma PastStays(s: Store, t: Store, task: Task)
    requires AgedTask(s, task) && Ages(s, t)
    ensures AgedTask(t, task)
  {
  }

  lemma StepAges(y: System, e: Event)
    ensures Ages(y.store, Next(y, e).store)
  {
    hide BeginLoad, BeginMove, BeginRollback, ResumeTask, DeletePath, EditContext, ContextOf, KeyOf;
    GenerationsGrow(y, e);
    match e {
      case StartLoad(a) => BeginLoadFrame(y.store, a);
      case StartMove(d, context) => BeginMoveFrame(y.store, d, context);
      case StartRollback(context, snapshot) => BeginRollbackFrame(y.store, context, snapshot);
      case Resume(id, answer) => if id in y.tasks { ResumeKeepsRegister(y.store, y.tasks[id], answer); }
      case EditEvent(context, edit) => EditFrame(y.store, context, edit);
      case DeleteEvent(context, path, isDirectory) => DeleteFrame(y.store, context, path, isDirectory);
    }
  }

  lemma ResumeKeepsRegister(s: Store, t: Task, answer: Answer)
    ensures var s' := ResumeTask(s, t, answer).0; forall k :: k in s'.active ==> Lookup(s.active, k) == Some(s'.active[k])
  {
    hide ResumeLoad, ResumeMove, ResumeRollback, ResumeRepair;
    if t.LoadTask? {
      LoadFrame(s, t.load, answer);
      assert ResumeTask(s, t, answer).0 == ResumeLoad(s, t.load, answer).0;
    } else {
      MutationFrame(s, t, answer);
    }
  }

  lemma RepairGoesOn(s: Store, context: string, document: Option<string>, superseded: Option<nat>, attempt: nat)
    ensures var t := NextRepair(s, context, document, superseded, attempt);
            t.Some? ==> document.Some? && t.value.RepairTask? && SupersededBy(t.value) == Some((Key(context, document.value), superseded))
  {
    hide WasPathDeleted, CurrentTarget;
  }

  /** What an operation goes on as, or turns into, repairs for the same load. */
  lemma SameSuperseded(s: Store, t: Task, answer: Answer)
    requires !t.LoadTask?
    ensures var u := ResumeTask(s, t, answer).1; u.Some? ==> SupersededBy(u.value) == SupersededBy(t)
  {
    hide CommitMove, CommitRollback, MoveIsCurrent, RollbackIsCurrent, NextRepair, RepairHolds;
    match t
    case MoveTask(m) => RepairGoesOn(s, m.context, m.source.documentId, m.loadGen, 0);
    case RollbackTask(r) => RepairGoesOn(s, r.context, r.source.documentId, r.loadGen, 0);
    case RepairTask(p) => RepairGoesOn(s, p.context, Some(p.document), p.superseded, p.attempt + 1);
  }

  lemma LoadsSupersedeNothing(s: Store, l: Load, answer: Answer)
    ensures var u := ResumeTask(s, LoadTask(l), answer).1; u.Some? ==> SupersededBy(u.value) == None
  {
    hide ResumeLoad;
  }

  lemma StartedAged(s: Store, d: Direction, context: string, snapshot: string)
    ensures var (t, u) := BeginMove(s, d, context); t.loads == s.loads && t.active == s.active && (u.Some? ==> AgedTask(s, u.value))
    ensures var (t, u) := BeginRollback(s, context, snapshot); t.loads == s.loads && t.active == s.active && (u.Some? ==> AgedTask(s, u.value))
  {
    hide Moved, MoveIsCurrent, ContextOf;
  }

  lemma StaysAged(y: System, e: Event)
    requires Ordered(y) && Aged(y)
    ensures Aged(Next(y, e))
  {
    hide BeginLoad, BeginMove, BeginRollback, ResumeTask, DeletePath, EditContext, AgedTask, Ages, SupersededBy;
    var s, z := y.store, Next(y, e);
    StepAges(y, e);
    forall id | id in z.tasks ensures AgedTask(z.store, z.tasks[id]) {
      if id in y.tasks && z.tasks[id] == y.tasks[id] {
        PastStays(s, z.store, z.tasks[id]);
      } else {
        NewTaskAged(y, e, id);
        PastStays(s, z.store, z.tasks[id]);
      }
    }
  }

  /** A task that is new or went on. */
  lemma NewTaskAged(y: System, e: Event, id: nat)
    requires Ordered(y) && Aged(y) && id in Next(y, e).tasks && !(id in y.tasks && Next(y, e).tasks[id] == y.tasks[id])
    ensures AgedTask(y.store, Next(y, e).tasks[id])
  {
    hide BeginLoad, BeginMove, BeginRollback, ResumeTask, DeletePath, EditContext, Past, SupersededBy;
    match e
    case StartLoad(a) => assert SupersededBy(LoadTask(BeginLoad(y.store, a).1)) == None by { BeginsAsLoad(y.store, a); }
    case StartMove(d, context) => StartedAged(y.store, d, context, "");
    case StartRollback(context, snapshot) => StartedAged(y.store, Backward, context, snapshot);
    case Resume(other, answer) =>
      if y.tasks[other].LoadTask? {
        LoadsSupersedeNothing(y.store, y.tasks[other].load, answer);
      } else {
        SameSuperseded(y.store, y.tasks[other], answer);
      }
    case EditEvent(context, edit) =>
    case DeleteEvent(context, path, isDirectory) =>
  }

  lemma BeginsAsLoad(s: Store, a: LoadArgs)
    ensures SupersededBy(LoadTask(BeginLoad(s, a).1)) == None
  {
    hide BeginLoad;
  }

  /** So leaving the superseded load out makes no difference to the target. */
  lemma TargetOfPast(s: Store, key: Key, gen: Option<nat>)
    requires Past(s, key, gen)
    ensures CurrentTarget(s, key.context, key.document, gen, Lookup(s.loads, key)) == TargetOf(s, key)
  {
  }

  // ---------------------------------------------------------------- what a landing write does

  predicate Repairs(t: Task, key: Key) {
    t.RepairTask? && Key(t.repair.context, t.repair.document) == key
  }

  predicate RepairInFlight(y: System, key: Key) {
    exists id :: id in y.tasks && Repairs(y.tasks[id], key)
  }

  /** The file has what was written as its target, or none, or a repair goes on. */
  predicate Landed(s: Store, u: Option<Task>, key: Key, content: string) {
    || TargetOf(s, key) == None
    || TargetOf(s, key) == Some(content)
    || (u.Some? && Repairs(u.value, key))
  }

  lemma RepairTakesOver(s: Store, key: Key, superseded: Option<nat>, attempt: nat, content: string)
    requires Past(s, key, superseded) && attempt < MAX_REPAIR_ATTEMPTS && !WasPathDeleted(s.markers, key.context, key.document)
    ensures Landed(s, NextRepair(s, key.context, Some(key.document), superseded, attempt), key, content)
  {
    hide WasPathDeleted, CurrentTarget;
    TargetOfPast(s, key, superseded);
  }

  /** A file that shows a content and has no load registered has that content as its target. */
  lemma ShownIsTarget(s: Store, key: Key)
    requires key.context in s.contexts && s.contexts[key.context].documentId == Some(key.document) && key !in s.active
    ensures TargetOf(s, key) == Some(s.contexts[key.context].content)
  {
  }

  lemma ProjectShows(c: Context, p: Projection)
    ensures var d := Project(c, p); d.content == p.target && d.documentId == c.documentId
  {
    hide Put;
  }

  lemma SyncShows(c: Context)
    ensures var d := Sync(c); d.content == c.content && d.documentId == c.documentId
  {
    hide Put;
  }

  /** A committing move shows what was written. */
  lemma MoveShowsWritten(c: Context, m: Move, ref: nat)
    requires StackOf(m.source, m.direction) != [] && c.undo == m.source.undo && c.redo == m.source.redo && ContextFormed(c)
    ensures var d := Moved(c, m, ref); d.content == WriteOf(MoveTask(m)).value.1 && d.documentId == c.documentId
  {
    hide Project, Sync, Push;
    var e := Last(StackOf(m.source, m.direction));
    assert History.WellFormed(e);
    if m.direction == Backward {
      var moved := c.(undo := Arr(ref, Init(m.source.undo.items)), redo := Arr(ref + 1, Push(m.source.redo.items, e)));
      if e.projectionBefore.Some? {
        ProjectShows(moved, e.projectionBefore.value);
      } else {
        SyncShows(moved.(content := e.contentBefore, mods := e.modsBefore));
      }
    } else {
      var moved := c.(redo := Arr(ref, Init(m.source.redo.items)), undo := Arr(ref + 1, Push(m.source.undo.items, e)));
      if e.projectionAfter.Some? {
        ProjectShows(moved, e.projectionAfter.value);
      } else {
        SyncShows(moved.(content := e.contentAfter, mods := e.modsAfter));
      }
    }
  }

  lemma RollbackShowsWritten(c: Context, before: Projection, t: Target, ref: nat)
    ensures var d := RollbackFrom(c, before, t, ref); d.content == t.content && d.documentId == c.documentId
  {
    hide Project, Push;
    var after := TargetProjection(c, t);
    var e := HistoryEntry(RollbackEntry, before.target, t.content, before.mods, t.mods, Some(before), Some(after));
    ProjectShows(c.(undo := Arr(ref, Push(c.undo.items, e)), redo := Arr(ref + 1, [])), after);
  }

  /** A file on disk is the one its operations were started on. */
  lemma KeyTellsDocument(context: string, document: Option<string>, key: Key)
    requires KeyOf(context, document) == key && ':' in key.document
    ensures context == key.context && document == Some(key.document)
  {
  }

  lemma MoveLands(s: Store, m: Move, answer: Answer, key: Key)
    requires StoreFormed(s) && AgedTask(s, MoveTask(m)) && Writes(MoveTask(m), key) && ':' in key.document
    requires !answer.Failure? && !WasPathDeleted(s.markers, key.context, key.document)
    ensures var (t, u) := ResumeTask(s, MoveTask(m), answer); Landed(t, u, key, WriteOf(MoveTask(m)).value.1)
  {
    hide Moved, NextRepair, WasPathDeleted, ContextFormed, CurrentTarget;
    KeyTellsDocument(m.context, m.source.documentId, key);
    if MoveIsCurrent(s, m) {
      MoveShowsWritten(s.contexts[m.context], m, s.nextRef);
      ShownIsTarget(CommitMove(s, m), key);
    } else {
      RepairTakesOver(s, key, m.loadGen, 0, WriteOf(MoveTask(m)).value.1);
    }
  }

  lemma RollbackLands(s: Store, r: RollbackRun, answer: Answer, key: Key)
    requires AgedTask(s, RollbackTask(r)) && Writes(RollbackTask(r), key) && ':' in key.document
    requires !answer.Failure? && !WasPathDeleted(s.markers, key.context, key.document)
    ensures var (t, u) := ResumeTask(s, RollbackTask(r), answer); Landed(t, u, key, WriteOf(RollbackTask(r)).value.1)
  {
    hide RollbackFrom, NextRepair, WasPathDeleted, CurrentTarget, CurrentProjection;
    KeyTellsDocument(r.context, r.source.documentId, key);
    if RollbackIsCurrent(s, r) {
      RollbackShowsWritten(s.contexts[r.context], CurrentProjection(r.source), r.at.target, s.nextRef);
      ShownIsTarget(CommitRollback(s, r, r.at.target), key);
    } else {
      RepairTakesOver(s, key, r.loadGen, 0, r.at.target.content);
    }
  }

  lemma RepairLands(s: Store, p: Repair, answer: Answer, key: Key)
    requires AgedTask(s, RepairTask(p)) && Writes(RepairTask(p), key)
    requires !answer.Failure? && !WasPathDeleted(s.markers, key.context, key.document)
    requires p.attempt + 1 >= MAX_REPAIR_ATTEMPTS ==> RepairHolds(s, p)
    ensures var (t, u) := ResumeTask(s, RepairTask(p), answer); Landed(t, u, key, p.content)
  {
    hide NextRepair, WasPathDeleted, CurrentTarget;
    TargetOfPast(s, key, p.superseded);
    if p.attempt + 1 < MAX_REPAIR_ATTEMPTS {
      RepairTakesOver(s, key, p.superseded, p.attempt + 1, p.content);
    }
  }

  // ---------------------------------------------------------------- every step, every run

  /** What was last written to the file is its target, or the file has none, or a repair is on its way. */
  predicate Faithful(d: Desk, key: Key) {
    && Ordered(d.system) && Aged(d.system) && StoreFormed(d.system.store)
    && (key in d.disk ==> TargetOf(d.system.store, key) == None || TargetOf(d.system.store, key) == Some(d.disk[key]) || RepairInFlight(d.system, key))
  }

  lemma TargetRenumbered(s: Store, ref: nat, key: Key)
    ensures TargetOf(Renumber(s, ref), key) == TargetOf(s, key)
  {
  }

  /** The write of the file that an event lets land. */
  lemma LandingLands(d: Desk, e: Event, key: Key)
    requires Faithful(d, key) && GoesWell(d.system, e, key) && ':' in key.document
    requires Landing(d.system, e).Some? && Landing(d.system, e).value.0 == key
    ensures var y := d.system; var (t, u) := ResumeTask(y.store, y.tasks[e.id], e.answer); Landed(t, u, key, Landing(y, e).value.1)
  {
    hide ResumeTask, StoreFormed, Ordered, WriteOf, Landed, WasPathDeleted, RepairHolds, AgedTask;
    var y := d.system;
    match y.tasks[e.id]
    case MoveTask(m) => MoveLands(y.store, m, e.answer, key);
    case RollbackTask(r) => RollbackLands(y.store, r, e.answer, key);
    case RepairTask(p) => WritesItsContent(p); RepairLands(y.store, p, e.answer, key);
    case LoadTask(l) => LoadsWriteNothing(l);
  }

  lemma WritesItsContent(p: Repair)
    ensures WriteOf(RepairTask(p)).value.1 == p.content
  {
  }

  lemma LoadsWriteNothing(l: Load)
    ensures WriteOf(LoadTask(l)) == None
  {
  }

  lemma RepairWrites(t: Task, key: Key)
    ensures Repairs(t, key) ==> Writes(t, key)
  {
  }

  /** A repair in flight stays until its write lands. */
  lemma RepairStays(y: System, e: Event, key: Key)
    requires Ordered(y) && GoesWell(y, e, key) && RepairInFlight(y, key)
    ensures RepairInFlight(Next(y, e), key) || (Landing(y, e).Some? && Landing(y, e).value.0 == key)
  {
    hide BeginLoad, BeginMove, BeginRollback, ResumeTask, DeletePath, EditContext, WriteOf, Repairs, WasPathDeleted, RepairHolds;
    var id :| id in y.tasks && Repairs(y.tasks[id], key);
    RepairWrites(y.tasks[id], key);
    if !(e.Resume? && e.id == id) {
      assert id in Next(y, e).tasks && Next(y, e).tasks[id] == y.tasks[id];
    }
  }

  lemma StaysFaithful(d: Desk, e: Event, key: Key)
    requires Faithful(d, key) && GoesWell(d.system, e, key) && ':' in key.document
    ensures Faithful(NextDesk(d, e), key)
  {
    hide Next, Ordered, Aged, StoreFormed, GoesWell, RepairInFlight, Landing, TargetOf, ResumeTask, Landed;
    var y, z := d.system, Next(d.system, e);
    StaysOrdered(y, e);
    StaysAged(y, e);
    StepForms(y, e);
    if Landing(y, e).Some? && Landing(y, e).value.0 == key {
      LandingLands(d, e, key);
      AfterLanding(y, e, key);
    } else if RepairInFlight(y, key) {
      RepairStays(y, e, key);
    }
  }

  lemma AfterLanding(y: System, e: Event, key: Key)
    requires Landing(y, e).Some?
    requires var (t, u) := ResumeTask(y.store, y.tasks[e.id], e.answer); Landed(t, u, key, Landing(y, e).value.1)
    ensures var z := Next(y, e);
            TargetOf(z.store, key) == None || TargetOf(z.store, key) == Some(Landing(y, e).value.1) || RepairInFlight(z, key)
  {
    hide ResumeTask, TargetOf, Repairs, WriteOf;
    var (t, u) := ResumeTask(y.store, y.tasks[e.id], e.answer);
    TargetRenumbered(t, y.store.nextRef + 2 * REFS_PER_STEP, key);
    if u.Some? && Repairs(u.value, key) {
      assert Next(y, e).tasks[e.id] == u.value;
    }
  }

  lemma {:induction false} FaithfulAlongRun(d: Desk, events: seq<Event>, key: Key)
    requires Faithful(d, key) && AllGoWell(d, events, key) && ':' in key.document
    ensures Faithful(RunDesk(d, events), key)
    decreases |events|
  {
    if events != [] {
      hide NextDesk, Faithful, GoesWell;
      StaysFaithful(d, events[0], key);
      FaithfulAlongRun(NextDesk(d, events[0]), events[1..], key);
    }
  }

  /** Main result: whatever overlaps, as long as no write of the file fails or lands on a deleted path and no repair uses up
      its attempts, a file that was written holds its target as soon as no repair of it is in flight: the content its latest
      load aims at while that is registered, else the one on screen or stored. */
  lemma DiskHoldsTarget(d: Desk, events: seq<Event>, key: Key)
    requires Faithful(d, key) && AllGoWell(d, events, key) && ':' in key.document
    requires !RepairInFlight(RunDesk(d, events).system, key) && key in RunDesk(d, events).disk
    ensures var e := RunDesk(d, events); TargetOf(e.system.store, key) == None || TargetOf(e.system.store, key) == Some(e.disk[key])
  {
    hide RunDesk, TargetOf;
    FaithfulAlongRun(d, events, key);
  }

  lemma DeskStartsFaithful(key: Key)
    ensures Faithful(Desk(Initially(), map[]), key)
  {
  }

  // ---------------------------------------------------------------- what keeps the last write in force

  /** The stores give the file the same target: one context changed, not as to this file. */
  predicate TargetUntouched(s: Store, t: Store, key: Key) {
    && t.loads == s.loads && t.active == s.active && t.targets == s.targets
    && (key.context in t.contexts <==> key.context in s.contexts)
    && (key.context in s.contexts ==>
          var c, d := s.contexts[key.context], t.contexts[key.context];
          d == c || (d.documentId == c.documentId && c.documentId != Some(key.document)
                     && Find(d.entries, key.document) == Find(c.entries, key.document)))
  }

  lemma UntouchedTarget(s: Store, t: Store, key: Key)
    requires TargetUntouched(s, t, key)
    ensures TargetOf(t, key) == TargetOf(s, key)
  {
    hide Find;
  }

  lemma SyncElsewhere(c: Context, document: string)
    requires c.documentId != Some(document)
    ensures Find(Sync(c).entries, document) == Find(c.entries, document) && Sync(c).documentId == c.documentId
  {
    hide Find, Put;
    if c.documentId.Some? {
      FindAfterPut(c.entries, Extract(c).value, document);
    }
  }

  lemma ProjectElsewhere(c: Context, p: Projection, document: string)
    requires c.documentId != Some(document)
    ensures Find(Project(c, p).entries, document) == Find(c.entries, document) && Project(c, p).documentId == c.documentId
  {
    hide Find, Sync;
    SyncElsewhere(c.(content := p.target, original := p.base,
                     preApplied := if p.preApplied.Some? then p.preApplied.value else p.target,
                     xml := p.xml, mods := p.mods, snapshot := p.snapshot, mode := p.mode), document);
  }

  lemma MovedElsewhere(c: Context, m: Move, ref: nat, document: string)
    requires StackOf(m.source, m.direction) != [] && c.documentId != Some(document)
    ensures var d := Moved(c, m, ref); Find(d.entries, document) == Find(c.entries, document) && d.documentId == c.documentId
  {
    hide Project, Sync, Push, Find;
    var e := Last(StackOf(m.source, m.direction));
    var moved := if m.direction == Backward
                 then c.(undo := Arr(ref, Init(m.source.undo.items)), redo := Arr(ref + 1, Push(m.source.redo.items, e)))
                 else c.(redo := Arr(ref, Init(m.source.redo.items)), undo := Arr(ref + 1, Push(m.source.undo.items, e)));
    if e.projectionBefore.Some? { ProjectElsewhere(moved, e.projectionBefore.value, document); }
    if e.projectionAfter.Some? { ProjectElsewhere(moved, e.projectionAfter.value, document); }
    SyncElsewhere(moved.(content := e.contentBefore, mods := e.modsBefore), document);
    SyncElsewhere(moved.(content := e.contentAfter, mods := e.modsAfter), document);
  }

  lemma RollbackElsewhere(c: Context, before: Projection, t: Target, ref: nat, document: string)
    requires c.documentId != Some(document)
    ensures var d := RollbackFrom(c, before, t, ref); Find(d.entries, document) == Find(c.entries, document) && d.documentId == c.documentId
  {
    hide Project, Push, Find;
    var after := TargetProjection(c, t);
    var e := HistoryEntry(RollbackEntry, before.target, t.content, before.mods, t.mods, Some(before), Some(after));
    ProjectElsewhere(c.(undo := Arr(ref, Push(c.undo.items, e)), redo := Arr(ref + 1, [])), after, document);
  }

  lemma MoveOfAnother(s: Store, m: Move, key: Key)
    requires MoveKey(m) != key && ':' in key.document
    ensures TargetUntouched(s, CommitMove(s, m), key)
  {
    hide Moved, Find;
    if MoveIsCurrent(s, m) && StackOf(m.source, m.direction) != [] && m.context == key.context {
      MovedElsewhere(s.contexts[m.context], m, s.nextRef, key.document);
    }
  }

  lemma RollbackOfAnother(s: Store, r: RollbackRun, t: Target, key: Key)
    requires RollbackKey(r) != key && ':' in key.document
    ensures TargetUntouched(s, CommitRollback(s, r, t), key)
  {
    hide RollbackFrom, Find, CurrentProjection;
    if RollbackIsCurrent(s, r) && r.context == key.context {
      RollbackElsewhere(s.contexts[r.context], CurrentProjection(r.source), t, s.nextRef, key.document);
    }
  }

  /** A file on disk is never rolled back without a write. */
  lemma UnwrittenRollback(s: Store, r: RollbackRun, answer: Answer, key: Key)
    requires ':' in key.document && (r.at.Writing? ==> RollbackKey(r) != key || answer.Failure?)
    ensures TargetUntouched(s, ResumeRollback(s, r, answer).0, key)
  {
    hide CommitRollback, RollbackIsCurrent, NextRepair, TargetUntouched;
    SameUntouched(s, key);
    forall t ensures TargetUntouched(s, WriteOrCommit(s, r, t).0, key) {
      WriteOrCommitKeeps(s, r, t, key);
    }
    if RollbackKey(r) != key {
      forall t ensures TargetUntouched(s, CommitRollback(s, r, t), key) {
        RollbackOfAnother(s, r, t, key);
      }
    }
  }

  lemma SameUntouched(s: Store, key: Key)
    ensures TargetUntouched(s, s, key)
  {
    hide Find;
  }

  lemma WriteOrCommitKeeps(s: Store, r: RollbackRun, t: Target, key: Key)
    requires ':' in key.document
    ensures TargetUntouched(s, WriteOrCommit(s, r, t).0, key)
  {
    hide CommitRollback, RollbackIsCurrent, TargetUntouched;
    SameUntouched(s, key);
    if RollbackKey(r) == key {
      KeyTellsDocument(r.context, r.source.documentId, key);
    } else {
      RollbackOfAnother(s, r, t, key);
    }
  }

  /** Undos, redos, rollbacks and repairs. */
  predicate Moves(y: System, e: Event) {
    match e
    case StartMove(_, _) => true
    case StartRollback(_, _) => true
    case Resume(id, _) => id in y.tasks ==> !y.tasks[id].LoadTask?
    case _ => false
  }

  predicate AllMoves(d: Desk, events: seq<Event>)
    decreases |events|
  {
    events != [] ==> Moves(d.system, events[0]) && AllMoves(NextDesk(d, events[0]), events[1..])
  }

  lemma BeginMoveKeepsTarget(s: Store, d: Direction, context: string, key: Key)
    requires ':' in key.document
    ensures TargetUntouched(s, BeginMove(s, d, context).0, key)
  {
    hide CommitMove, ContextOf, TargetUntouched;
    var c := ContextOf(s, context);
    var at := KeyOf(context, c.documentId);
    var gen := Count(s.mutations, at) + 1;
    var started := s.(mutations := s.mutations[at := gen]);
    var m := Move(d, context, c, gen, Lookup(s.loads, at));
    SameUntouched(s, key);
    MutationsUntouched(s, started.mutations, key);
    if at == key {
      KeyTellsDocument(context, c.documentId, key);
    } else {
      MoveOfAnother(started, m, key);
      MutationsAside(s, started.mutations, CommitMove(started, m), key);
    }
  }

  lemma MutationsUntouched(s: Store, mutations: map<Key, nat>, key: Key)
    ensures TargetUntouched(s, s.(mutations := mutations), key)
  {
    hide Find;
  }

  lemma MutationsAside(s: Store, mutations: map<Key, nat>, t: Store, key: Key)
    requires TargetUntouched(s.(mutations := mutations), t, key)
    ensures TargetUntouched(s, t, key)
  {
    hide Find;
  }

  lemma ResumeKeepsTarget(s: Store, t: Task, answer: Answer, key: Key)
    requires ':' in key.document && !t.LoadTask? && (Writes(t, key) ==> answer.Failure?)
    ensures TargetUntouched(s, ResumeTask(s, t, answer).0, key)
  {
    hide CommitMove, MoveIsCurrent, ResumeRollback, ResumeRepair, NextRepair, TargetUntouched;
    SameUntouched(s, key);
    match t
    case MoveTask(m) =>
      if MoveKey(m) != key { MoveOfAnother(s, m, key); } else { EmptyMove(s, m); }
    case RollbackTask(r) => UnwrittenRollback(s, r, answer, key);
    case RepairTask(p) =>
  }

  lemma EmptyMove(s: Store, m: Move)
    ensures StackOf(m.source, m.direction) == [] ==> CommitMove(s, m) == s
  {
  }

  /** Starting or resuming them gives no file on disk another target but the one they write. */
  lemma MovesKeepTargets(y: System, e: Event, key: Key)
    requires Moves(y, e) && ':' in key.document
    ensures TargetOf(Next(y, e).store, key) == TargetOf(y.store, key) || (Landing(y, e).Some? && Landing(y, e).value.0 == key)
  {
    hide BeginMove, BeginRollback, ResumeTask, TargetUntouched, TargetOf, WriteOf;
    var s, t := y.store, Stretch(y, e).store;
    TargetRenumbered(t, s.nextRef + 2 * REFS_PER_STEP, key);
    SameUntouched(s, key);
    match e {
      case StartMove(d, context) => BeginMoveKeepsTarget(s, d, context, key);
      case StartRollback(context, snapshot) => BeginRollbackKeepsTarget(s, context, snapshot, key);
      case Resume(id, answer) =>
        if id in y.tasks && !(Landing(y, e).Some? && Landing(y, e).value.0 == key) {
          ResumeKeepsTarget(s, y.tasks[id], answer, key);
        }
    }
    if TargetUntouched(s, t, key) {
      UntouchedTarget(s, t, key);
    }
  }

  lemma BeginRollbackKeepsTarget(s: Store, context: string, snapshot: string, key: Key)
    ensures TargetUntouched(s, BeginRollback(s, context, snapshot).0, key)
  {
    hide ContextOf, Find;
  }

  /** So along undos, redos, rollbacks and repairs what was written stays in force, whatever they overlap with. */
  lemma {:induction false} MovesForgetNothing(d: Desk, events: seq<Event>, key: Key)
    requires AllMoves(d, events) && ':' in key.document && key in d.disk
    ensures key in RunDesk(d, events).disk
    decreases |events|
  {
    if events != [] {
      hide Next, Moves, TargetOf, Landing;
      MovesKeepTargets(d.system, events[0], key);
      MovesForgetNothing(NextDesk(d, events[0]), events[1..], key);
    }
  }
}
