/** A deleted path stays deleted: whatever was in flight when it was deleted, and whatever runs
afterwards, nothing under it comes back until a load for it is started anew. */
module DeletedPaths {
  import opened Modifications
  import opened DiffContext
  import opened DiffProtocol
  import opened DiffSafety
  import Paths

  /** No file of the context lies under the path, neither on screen nor among the entries. */
  predicate Clear(c: Context, path: string, isDirectory: bool) {
    && !DocumentDeleted(c.documentId, path, isDirectory)
    && !DocumentDeleted(c.activeFileId, path, isDirectory)
    && ClearEntries(c.entries, path, isDirectory)
  }

  predicate ClearEntries(entries: seq<FileEntry>, path: string, isDirectory: bool) {
    forall e :: e in entries ==> !Paths.IsPathDeleted(e.documentId, path, isDirectory)
  }

  // ---------------------------------------------------------------- operations keep a context clear

  lemma SyncClear(c: Context, path: string, isDirectory: bool)
    requires Clear(c, path, isDirectory)
    ensures Clear(Sync(c), path, isDirectory)
  {
    hide Paths.IsPathDeleted;
  }

  lemma ApplyClear(c: Context, entries: seq<FileEntry>, e: FileEntry, path: string, isDirectory: bool)
    requires ClearEntries(entries, path, isDirectory) && e in entries
    ensures Clear(Apply(c.(entries := entries), e), path, isDirectory)
  {
    hide Paths.IsPathDeleted;
  }

  lemma ProjectClear(c: Context, p: Projection, path: string, isDirectory: bool)
    requires Clear(c, path, isDirectory)
    ensures Clear(Project(c, p), path, isDirectory)
  {
    hide Paths.IsPathDeleted, Sync;
    SyncClear(c.(content := p.target, original := p.base,
                 preApplied := if p.preApplied.Some? then p.preApplied.value else p.target,
                 xml := p.xml, mods := p.mods, snapshot := p.snapshot, mode := p.mode), path, isDirectory);
  }

  lemma MovedClear(c: Context, m: Move, ref: nat, path: string, isDirectory: bool)
    requires Clear(c, path, isDirectory) && StackOf(m.source, m.direction) != []
    ensures Clear(Moved(c, m, ref), path, isDirectory)
  {
    hide Paths.IsPathDeleted, Sync, Project, Push;
    var e := Last(StackOf(m.source, m.direction));
    var moved := if m.direction == Backward
                 then c.(undo := Arr(ref, Init(m.source.undo.items)), redo := Arr(ref + 1, Push(m.source.redo.items, e)))
                 else c.(redo := Arr(ref, Init(m.source.redo.items)), undo := Arr(ref + 1, Push(m.source.undo.items, e)));
    assert Clear(moved, path, isDirectory);
    if e.projectionBefore.Some? { ProjectClear(moved, e.projectionBefore.value, path, isDirectory); }
    if e.projectionAfter.Some? { ProjectClear(moved, e.projectionAfter.value, path, isDirectory); }
    SyncClear(moved.(content := e.contentBefore, mods := e.modsBefore), path, isDirectory);
    SyncClear(moved.(content := e.contentAfter, mods := e.modsAfter), path, isDirectory);
  }

  lemma RollbackClear(c: Context, before: Projection, t: Target, ref: nat, path: string, isDirectory: bool)
    requires Clear(c, path, isDirectory)
    ensures Clear(RollbackFrom(c, before, t, ref), path, isDirectory)
  {
    hide Paths.IsPathDeleted, Project, Push, TargetProjection;
    var after := TargetProjection(c, t);
    var e := HistoryEntry(RollbackEntry, before.target, t.content, before.mods, t.mods, Some(before), Some(after));
    var moved := c.(undo := Arr(ref, Push(c.undo.items, e)), redo := Arr(ref + 1, []));
    assert Clear(moved, path, isDirectory);
    ProjectClear(moved, after, path, isDirectory);
  }

  lemma OpenLoadedClear(c: Context, a: LoadArgs, ready: Answer, other: bool, ref: nat, path: string, isDirectory: bool)
    requires ready.Ready? && Clear(c, path, isDirectory) && !Paths.IsPathDeleted(a.document, path, isDirectory)
    ensures Clear(OpenLoaded(c, a, ready, other, ref), path, isDirectory)
  {
    hide Paths.IsPathDeleted, Sync, InitialContent;
    SyncClear(c, path, isDirectory);
  }

  lemma FinishClear(c: Context, path: string, isDirectory: bool)
    requires Clear(c, path, isDirectory)
    ensures Clear(FinishByAccept(c), path, isDirectory)
  {
    hide Paths.IsPathDeleted, HasPending;
  }

  lemma EditedClear(c: Context, edit: Edit, ref: nat, path: string, isDirectory: bool)
    requires Clear(c, path, isDirectory)
    ensures Clear(Edited(c, edit, ref), path, isDirectory)
  {
    hide Paths.IsPathDeleted, HasPending, FinishByAccept, Commit, Settle, AcceptEach, RebuiltContent, RejectedByScript, Sync;
    match edit
    case Accept(id) =>
      forall d: Context | Clear(d, path, isDirectory) ensures Clear(FinishByAccept(d), path, isDirectory) {
        FinishClear(d, path, isDirectory);
      }
      CommitClear(c, path, isDirectory);
    case Reject(id, script) => CommitClear(c, path, isDirectory);
    case RejectAll => CommitClear(c, path, isDirectory);
    case AcceptAll =>
      var done := c.(mods := Arr(ref, AcceptEach(c.mods.items, |c.mods.items|)), isLoading := false);
      assert Clear(done, path, isDirectory);
      SyncClear(done, path, isDirectory);
    case Select(document) => SyncClear(c, path, isDirectory);
    case SetMode(mode) =>
  }

  lemma CommitClear(c: Context, path: string, isDirectory: bool)
    requires Clear(c, path, isDirectory)
    ensures forall kind, content, mods, ref :: Clear(Commit(c, kind, content, mods, ref), path, isDirectory)
  {
    hide Paths.IsPathDeleted, Push;
  }

  lemma KeptEntries(c: Context, path: string, isDirectory: bool)
    ensures var all := Sync(c).entries; var kept := Without(all, DeletedDocuments(all, path, isDirectory));
            && ClearEntries(kept, path, isDirectory)
            && (forall e :: e in c.entries && Some(e.documentId) != c.documentId ==> e in all)
            && (forall e :: e in all && !Paths.IsPathDeleted(e.documentId, path, isDirectory) ==> e in kept)
            && (DeletedDocuments(all, path, isDirectory) == {} ==> ClearEntries(all, path, isDirectory))
  {
    hide Paths.IsPathDeleted;
    var all := Sync(c).entries;
    forall e | e in all && Paths.IsPathDeleted(e.documentId, path, isDirectory)
      ensures e.documentId in DeletedDocuments(all, path, isDirectory)
    {
    }
  }

  /** Deleting a path clears it and keeps every other stored file. */
  lemma DeleteClears(c: Context, path: string, isDirectory: bool, invalidated: bool, other: bool, ref: nat)
    ensures Clear(DeleteFrom(c, path, isDirectory, invalidated, other, ref), path, isDirectory)
    ensures forall e :: e in c.entries && Some(e.documentId) != c.documentId && !Paths.IsPathDeleted(e.documentId, path, isDirectory) ==>
              e in DeleteFrom(c, path, isDirectory, invalidated, other, ref).entries
    ensures !DocumentDeleted(c.documentId, path, isDirectory) && !DocumentDeleted(c.activeFileId, path, isDirectory) ==>
              var d := DeleteFrom(c, path, isDirectory, invalidated, other, ref);
              d == c.(entries := d.entries, isLoading := d.isLoading)
  {
    hide Paths.IsPathDeleted, HasPending, Sync, Without, DeletedDocuments;
    KeptEntries(c, path, isDirectory);
    var all := Sync(c).entries;
    if DeletedDocuments(all, path, isDirectory) == {} && !DocumentDeleted(c.documentId, path, isDirectory) {
      forall e | e in c.entries ensures !Paths.IsPathDeleted(e.documentId, path, isDirectory) {
        assert Some(e.documentId) != c.documentId ==> e in all;
      }
    }
  }

  lemma DeleteKeepsClear(c: Context, path: string, isDirectory: bool, invalidated: bool, other: bool, ref: nat, path': string, isDirectory': bool)
    requires Clear(c, path', isDirectory')
    ensures Clear(DeleteFrom(c, path, isDirectory, invalidated, other, ref), path', isDirectory')
  {
    hide Paths.IsPathDeleted, HasPending, Sync;
    SyncClear(c, path', isDirectory');
  }

  // ---------------------------------------------------------------- over runs

  predicate ContextClear(s: Store, context: string, path: string, isDirectory: bool) {
    context in s.contexts ==> Clear(s.contexts[context], path, isDirectory)
  }

  /** The load was started before its path was deleted. */
  predicate Overtaken(s: Store, l: Load) {
    LoadKey(l) in s.loads && l.gen < s.loads[LoadKey(l)]
  }

  /** Nothing under the path is left, and no load in flight can bring it back. */
  predicate Gone(y: System, context: string, path: string, isDirectory: bool) {
    && ContextClear(y.store, context, path, isDirectory)
    && forall id :: id in y.tasks && y.tasks[id].LoadTask? && KeyDeleted(LoadKey(y.tasks[id].load), context, path, isDirectory) ==>
         Overtaken(y.store, y.tasks[id].load)
  }

  predicate LoadsUnder(e: Event, context: string, path: string, isDirectory: bool) {
    e.StartLoad? && e.args.context == context && Paths.IsPathDeleted(e.args.document, path, isDirectory)
  }

  lemma EmptyClear(ref: nat, path: string, isDirectory: bool)
    ensures Clear(Empty(ref), path, isDirectory)
  {
  }

  lemma LoadKeepsClear(s: Store, l: Load, answer: Answer, context: string, path: string, isDirectory: bool)
    requires ContextClear(s, context, path, isDirectory)
    requires KeyDeleted(LoadKey(l), context, path, isDirectory) ==> Overtaken(s, l)
    ensures ContextClear(ResumeLoad(s, l, answer).0, context, path, isDirectory)
  {
    hide ResumeLoad, OutcomeOf, OpenLoaded, Paths.IsPathDeleted, LoadRegistered, OtherLoadRegistered;
    EmptyClear(s.nextRef, path, isDirectory);
    LoadEffect(s, l, answer);
    if OutcomeOf(s, l, answer).Committed? && l.args.context == context {
      OpenLoadedClear(ContextOf(s, context), l.args, answer, OtherLoadRegistered(s, LoadKey(l), l.gen), s.nextRef, path, isDirectory);
    }
  }

  lemma CommitMoveKeepsClear(s: Store, m: Move, context: string, path: string, isDirectory: bool)
    requires ContextClear(s, context, path, isDirectory)
    ensures ContextClear(CommitMove(s, m), context, path, isDirectory)
  {
    hide Moved, GenerationsHold, Clear;
    if MoveIsCurrent(s, m) && StackOf(m.source, m.direction) != [] && m.context == context {
      MovedClear(s.contexts[context], m, s.nextRef, path, isDirectory);
    }
  }

  lemma CommitRollbackKeepsClear(s: Store, r: RollbackRun, t: Target, context: string, path: string, isDirectory: bool)
    requires ContextClear(s, context, path, isDirectory)
    ensures ContextClear(CommitRollback(s, r, t), context, path, isDirectory)
  {
    hide RollbackFrom, GenerationsHold, Clear, CurrentProjection;
    if RollbackIsCurrent(s, r) && r.context == context {
      RollbackClear(s.contexts[context], CurrentProjection(r.source), t, s.nextRef, path, isDirectory);
    }
  }

  lemma RollbackKeepsClear(s: Store, r: RollbackRun, answer: Answer, context: string, path: string, isDirectory: bool)
    requires ContextClear(s, context, path, isDirectory)
    ensures ContextClear(ResumeRollback(s, r, answer).0, context, path, isDirectory)
  {
    hide CommitRollback, RollbackIsCurrent, NextRepair, Clear;
    forall t ensures ContextClear(CommitRollback(s, r, t), context, path, isDirectory) {
      CommitRollbackKeepsClear(s, r, t, context, path, isDirectory);
    }
  }

  lemma ResumeKeepsClear(s: Store, t: Task, answer: Answer, context: string, path: string, isDirectory: bool)
    requires ContextClear(s, context, path, isDirectory)
    requires t.LoadTask? && KeyDeleted(LoadKey(t.load), context, path, isDirectory) ==> Overtaken(s, t.load)
    ensures ContextClear(ResumeTask(s, t, answer).0, context, path, isDirectory)
  {
    hide ResumeLoad, CommitMove, MoveIsCurrent, NextRepair, ResumeRollback, ResumeRepair, ContextClear, KeyDeleted;
    match t
    case LoadTask(l) =>
      LoadKeepsClear(s, l, answer, context, path, isDirectory);
      assert ResumeTask(s, t, answer).0 == ResumeLoad(s, l, answer).0;
    case MoveTask(m) => CommitMoveKeepsClear(s, m, context, path, isDirectory);
    case RollbackTask(r) => RollbackKeepsClear(s, r, answer, context, path, isDirectory);
    case RepairTask(p) =>
  }

  lemma StartMoveKeepsClear(s: Store, d: Direction, at: string, context: string, path: string, isDirectory: bool)
    requires ContextClear(s, context, path, isDirectory)
    ensures ContextClear(BeginMove(s, d, at).0, context, path, isDirectory)
  {
    hide CommitMove, ContextOf, Clear;
    var c := ContextOf(s, at);
    var key := KeyOf(at, c.documentId);
    var gen := Count(s.mutations, key) + 1;
    var started := s.(mutations := s.mutations[key := gen]);
    CommitMoveKeepsClear(started, Move(d, at, c, gen, Lookup(s.loads, key)), context, path, isDirectory);
  }

  lemma StretchKeepsClear(y: System, e: Event, context: string, path: string, isDirectory: bool)
    requires Gone(y, context, path, isDirectory)
    ensures ContextClear(Stretch(y, e).store, context, path, isDirectory)
  {
    hide BeginLoad, BeginMove, ResumeTask, EditContext, DeletePath, Clear, KeyDeleted, Overtaken;
    var s := y.store;
    match e
    case StartLoad(a) => BeginLoadKeepsClear(s, a, context, path, isDirectory);
    case StartMove(d, at) => StartMoveKeepsClear(s, d, at, context, path, isDirectory);
    case StartRollback(at, snapshot) =>
    case Resume(id, answer) => if id in y.tasks { ResumeKeepsClear(s, y.tasks[id], answer, context, path, isDirectory); }
    case EditEvent(at, edit) => EditKeepsClear(s, at, edit, context, path, isDirectory);
    case DeleteEvent(at, path', isDirectory') => DeletePathKeepsClear(s, at, path', isDirectory', context, path, isDirectory);
  }

  lemma BeginLoadKeepsClear(s: Store, a: LoadArgs, context: string, path: string, isDirectory: bool)
    requires ContextClear(s, context, path, isDirectory)
    ensures ContextClear(BeginLoad(s, a).0, context, path, isDirectory)
  {
    hide InitialContent, Paths.IsPathDeleted;
    EmptyClear(s.nextRef, path, isDirectory);
  }

  lemma EditKeepsClear(s: Store, at: string, edit: Edit, context: string, path: string, isDirectory: bool)
    requires ContextClear(s, context, path, isDirectory)
    ensures ContextClear(EditContext(s, at, edit), context, path, isDirectory)
  {
    hide Edited, Clear;
    EmptyClear(s.nextRef, path, isDirectory);
    if at == context {
      EditedClear(ContextOf(s, at), edit, s.nextRef + REFS_PER_STEP, path, isDirectory);
    }
  }

  lemma DeletePathKeepsClear(s: Store, at: string, path': string, isDirectory': bool, context: string, path: string, isDirectory: bool)
    requires ContextClear(s, context, path, isDirectory)
    ensures ContextClear(DeletePath(s, at, path', isDirectory'), context, path, isDirectory)
  {
    hide DeleteFrom, Clear, KeyDeleted, Mark, Paths.Normalize;
    if at == context && context in s.contexts {
      forall invalidated, other ensures Clear(DeleteFrom(s.contexts[at], path', isDirectory', invalidated, other, s.nextRef), path, isDirectory) {
        DeleteKeepsClear(s.contexts[at], path', isDirectory', invalidated, other, s.nextRef, path, isDirectory);
      }
    }
  }

  /** The loads in flight after a stretch are those before it, and perhaps the one it started. */
  lemma LoadsAfter(y: System, e: Event, id: nat)
    requires id in Stretch(y, e).tasks && Stretch(y, e).tasks[id].LoadTask?
    ensures var l := Stretch(y, e).tasks[id].load;
            || (e.StartLoad? && id == y.nextTask && LoadKey(l) == Key(e.args.context, e.args.document))
            || (id in y.tasks && y.tasks[id].LoadTask? && LoadKey(y.tasks[id].load) == LoadKey(l) && y.tasks[id].load.gen == l.gen)
  {
    hide BeginLoad, BeginMove, BeginRollback, ResumeLoad, ResumeMove, ResumeRollback, ResumeRepair, EditContext, DeletePath, ContextOf;
    match e
    case StartLoad(a) => BeginLoadFrame(y.store, a);
    case StartMove(d, at) => BeginMoveFrame(y.store, d, at);
    case StartRollback(at, snapshot) => BeginRollbackFrame(y.store, at, snapshot);
    case Resume(id', answer) =>
      if id' in y.tasks {
        var t := y.tasks[id'];
        if t.LoadTask? { LoadFrame(y.store, t.load, answer); } else { MutationFrame(y.store, t, answer); }
      }
    case EditEvent(at, edit) =>
    case DeleteEvent(at, path', isDirectory') =>
  }

  lemma GoneStays(y: System, e: Event, context: string, path: string, isDirectory: bool)
    requires Gone(y, context, path, isDirectory) && !LoadsUnder(e, context, path, isDirectory)
    ensures Gone(Next(y, e), context, path, isDirectory)
  {
    hide Stretch, Clear, Paths.IsPathDeleted;
    var z := Next(y, e);
    GenerationsGrow(y, e);
    StretchKeepsClear(y, e, context, path, isDirectory);
    forall id | id in z.tasks && z.tasks[id].LoadTask? && KeyDeleted(LoadKey(z.tasks[id].load), context, path, isDirectory)
      ensures Overtaken(z.store, z.tasks[id].load)
    {
      LoadsAfter(y, e, id);
      assert Overtaken(y.store, y.tasks[id].load);
    }
  }

  /** Right after the deletion nothing under the path is left, and every load in flight for it is overtaken. */
  lemma DeletionClears(y: System, context: string, path: string, isDirectory: bool)
    requires Ordered(y)
    ensures Gone(Next(y, DeleteEvent(context, path, isDirectory)), context, path, isDirectory)
  {
    hide DeleteFrom, Clear, Mark, Paths.Normalize, Paths.IsPathDeleted, KeyDeleted, Apart, Running;
    var s := y.store;
    var t := DeletePath(s, context, path, isDirectory);
    DeleteFrame(s, context, path, isDirectory);
    if context in s.contexts {
      forall invalidated, other ensures Clear(DeleteFrom(s.contexts[context], path, isDirectory, invalidated, other, s.nextRef), path, isDirectory) {
        DeleteClears(s.contexts[context], path, isDirectory, invalidated, other, s.nextRef);
      }
    }
    forall id | id in y.tasks && y.tasks[id].LoadTask? && KeyDeleted(LoadKey(y.tasks[id].load), context, path, isDirectory)
      ensures Overtaken(t, y.tasks[id].load)
    {
      assert TaskBounded(s, y.tasks[id]);
    }
  }

  lemma {:induction false} GoneAlongRun(y: System, events: seq<Event>, context: string, path: string, isDirectory: bool)
    requires Gone(y, context, path, isDirectory)
    requires forall e :: e in events ==> !LoadsUnder(e, context, path, isDirectory)
    ensures Gone(Run(y, events), context, path, isDirectory)
    decreases |events|
  {
    if events != [] {
      hide Next, Gone, LoadsUnder;
      GoneStays(y, events[0], context, path, isDirectory);
      GoneAlongRun(Next(y, events[0]), events[1..], context, path, isDirectory);
    }
  }

  /** Main result: after a deletion, along any run that starts no new load under the path, no file under it
      is on screen or among the entries, whatever was in flight. */
  lemma NoResurrection(y: System, context: string, path: string, isDirectory: bool, events: seq<Event>)
    requires Ordered(y)
    requires forall e :: e in events ==> !LoadsUnder(e, context, path, isDirectory)
    ensures ContextClear(Run(Next(y, DeleteEvent(context, path, isDirectory)), events).store, context, path, isDirectory)
  {
    hide Next, Ordered, LoadsUnder, ContextClear;
    DeletionClears(y, context, path, isDirectory);
    GoneAlongRun(Next(y, DeleteEvent(context, path, isDirectory)), events, context, path, isDirectory);
  }

  // ---------------------------------------------------------------- old loads, even when new ones start

  /** An operation from before, if it is still a load, is an overtaken one. */
  predicate OldAndOvertaken(y: System, id: nat) {
    id < y.nextTask && (id in y.tasks && y.tasks[id].LoadTask? ==> Overtaken(y.store, y.tasks[id].load))
  }

  lemma TaskNumbersGrow(y: System, e: Event)
    ensures y.nextTask <= Next(y, e).nextTask
  {
    hide BeginLoad, BeginMove, BeginRollback, ResumeTask, EditContext, DeletePath;
  }

  lemma OvertakenStays(y: System, e: Event, id: nat)
    requires OldAndOvertaken(y, id)
    ensures OldAndOvertaken(Next(y, e), id)
  {
    hide Stretch;
    TaskNumbersGrow(y, e);
    GenerationsGrow(y, e);
    if id in Stretch(y, e).tasks && Stretch(y, e).tasks[id].LoadTask? {
      LoadsAfter(y, e, id);
    }
  }

  lemma {:induction false} OvertakenAlongRun(y: System, events: seq<Event>, id: nat)
    requires OldAndOvertaken(y, id)
    ensures OldAndOvertaken(Run(y, events), id)
    decreases |events|
  {
    if events != [] {
      hide Next, OldAndOvertaken;
      OvertakenStays(y, events[0], id);
      OvertakenAlongRun(Next(y, events[0]), events[1..], id);
    }
  }

  /** What an overtaken load can still do to the contexts: nothing but settle a loading flag. */
  lemma OvertakenSettlesFlagsOnly(s: Store, l: Load, answer: Answer)
    requires Overtaken(s, l)
    ensures var t := ResumeLoad(s, l, answer).0;
            t.contexts.Keys == s.contexts.Keys
            && forall c :: c in s.contexts ==> t.contexts[c].(isLoading := false) == s.contexts[c].(isLoading := false)
  {
    hide ResumeLoad, FailLoad, CommitLoad, CancelLoad, OutcomeOf;
    LoadEffect(s, l, answer);
    CancelSettlesFlagOnly(s, l);
  }

  lemma CancelSettlesFlagOnly(s: Store, l: Load)
    ensures var t := CancelLoad(s, l);
            t.contexts.Keys == s.contexts.Keys
            && forall c :: c in s.contexts ==> t.contexts[c].(isLoading := false) == s.contexts[c].(isLoading := false)
  {
    hide LoadRegistered;
  }

  /** Main result: a load that was in flight when its path was deleted never commits, whatever happens later, new
      loads of the same file included. */
  lemma NoOldLoadCommits(y: System, context: string, path: string, isDirectory: bool, id: nat, events: seq<Event>, answer: Answer)
    requires Ordered(y) && id in y.tasks && y.tasks[id].LoadTask?
    requires KeyDeleted(LoadKey(y.tasks[id].load), context, path, isDirectory)
    ensures var z := Run(Next(y, DeleteEvent(context, path, isDirectory)), events);
            id in z.tasks && z.tasks[id].LoadTask? ==>
              var t := ResumeLoad(z.store, z.tasks[id].load, answer).0;
              && t.contexts.Keys == z.store.contexts.Keys
              && forall c :: c in z.store.contexts ==> t.contexts[c].(isLoading := false) == z.store.contexts[c].(isLoading := false)
  {
    hide Run, ResumeLoad;
    var d := Next(y, DeleteEvent(context, path, isDirectory));
    assert OldAndOvertaken(d, id) by {
      hide DeletePath, Clear, ContextClear, KeyDeleted, Apart, Running;
      DeletionClears(y, context, path, isDirectory);
      assert d.tasks == y.tasks && d.nextTask == y.nextTask;
    }
    OvertakenAlongRun(d, events, id);
    var z := Run(d, events);
    if id in z.tasks && z.tasks[id].LoadTask? {
      OvertakenSettlesFlagsOnly(z.store, z.tasks[id].load, answer);
    }
  }
}
