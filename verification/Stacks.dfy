/** The undo and redo stacks in every run of the protocol, of the file on screen and of every stored file. */
module Stacks {
  import opened Modifications
  import opened DiffContext
  import opened DiffProtocol
  import opened DiffSafety
  import History
  import Paths

  /** Both stacks together keep within the bound, and each entry's projections show what the entry says. */
  predicate Formed(undo: seq<HistoryEntry>, redo: seq<HistoryEntry>) {
    && |undo| + |redo| <= 50
    && (forall e :: e in undo ==> History.WellFormed(e))
    && (forall e :: e in redo ==> History.WellFormed(e))
  }

  predicate EntriesFormed(entries: seq<FileEntry>) {
    forall e :: e in entries ==> Formed(e.undo.items, e.redo.items)
  }

  predicate ContextFormed(c: Context) {
    Formed(c.undo.items, c.redo.items) && EntriesFormed(c.entries)
  }

  predicate StoreFormed(s: Store) {
    forall c :: c in s.contexts ==> ContextFormed(s.contexts[c])
  }

  // ---------------------------------------------------------------- operations on one context

  /** A step pushed on the undo stack; the redo stack is emptied. */
  lemma PushForms(undo: seq<HistoryEntry>, redo: seq<HistoryEntry>, e: HistoryEntry)
    requires Formed(undo, redo) && History.WellFormed(e)
    ensures Formed(Push(undo, e), [])
  {
    hide History.WellFormed;
  }

  /** An entry moved from one stack to the other; none is dropped. */
  lemma MoveForms(a: seq<HistoryEntry>, b: seq<HistoryEntry>)
    requires a != [] && (Formed(a, b) || Formed(b, a))
    ensures Formed(Init(a), Push(b, Last(a))) && Formed(Push(b, Last(a)), Init(a))
    ensures Push(b, Last(a)) == b + [Last(a)]
  {
    hide History.WellFormed;
  }

  lemma SyncForms(c: Context)
    requires ContextFormed(c)
    ensures ContextFormed(Sync(c))
  {
    hide Formed;
  }

  lemma ProjectForms(c: Context, p: Projection)
    requires ContextFormed(c)
    ensures ContextFormed(Project(c, p))
  {
    hide Sync, Formed;
    SyncForms(c.(content := p.target, original := p.base,
                preApplied := if p.preApplied.Some? then p.preApplied.value else p.target,
                xml := p.xml, mods := p.mods, snapshot := p.snapshot, mode := p.mode));
  }

  lemma ApplyForms(c: Context, e: FileEntry)
    requires EntriesFormed(c.entries) && Formed(e.undo.items, e.redo.items)
    ensures ContextFormed(Apply(c, e))
  {
    hide Formed;
  }

  lemma PendingForms(entries: seq<FileEntry>, except: Option<string>)
    requires EntriesFormed(entries) && FirstPending(entries, except).Some?
    ensures var e := FirstPending(entries, except).value; Formed(e.undo.items, e.redo.items)
  {
    hide Formed, HasPending;
  }

  lemma CommitForms(c: Context, kind: EntryKind, content: string, mods: Arr<Mod>, ref: nat)
    requires ContextFormed(c)
    ensures ContextFormed(Commit(c, kind, content, mods, ref))
  {
    hide Formed, Push;
    PushForms(c.undo.items, c.redo.items, HistoryEntry(kind, c.content, content, c.mods, mods, None, None));
  }

  lemma FinishForms(c: Context)
    requires ContextFormed(c)
    ensures ContextFormed(FinishByAccept(c))
  {
    hide Formed, HasPending, FirstPending, Apply;
    forall entries, except | EntriesFormed(entries) && FirstPending(entries, except).Some?
      ensures ContextFormed(Apply(c.(entries := entries), FirstPending(entries, except).value))
    {
      PendingForms(entries, except);
      ApplyForms(c.(entries := entries), FirstPending(entries, except).value);
    }
  }

  lemma EditForms(c: Context, edit: Edit, ref: nat)
    requires ContextFormed(c)
    ensures ContextFormed(Edited(c, edit, ref))
  {
    hide ContextFormed, DiffContext.Accept, DiffContext.Reject, DiffContext.AcceptAll, Commit, Settle, RejectedByScript, SelectFile, SwitchMode;
    match edit
    case Accept(id) => AcceptForms(c, id, ref);
    case Reject(id, script) => RejectForms(c, id, RejectedByScript(c, id, script), ref);
    case RejectAll => CommitForms(c, RejectEntry, c.original, Arr(ref, Settle(c.mods.items, Rejected)), ref + 1);
    case AcceptAll => AcceptAllForms(c, ref);
    case Select(document) => SelectForms(c, document);
    case SetMode(mode) => ModeForms(c, mode);
  }

  lemma AcceptForms(c: Context, id: string, ref: nat)
    requires ContextFormed(c)
    ensures ContextFormed(DiffContext.Accept(c, id, ref))
  {
    hide ContextFormed, FinishByAccept, Commit;
    var i := IndexOf(c.mods.items, id);
    if i.Some? {
      var m := c.mods.items[i.value].(status := Applied, contentAtAccept := Some(c.content));
      var mods := Arr(ref, c.mods.items[i.value := m]);
      CommitForms(c, AcceptEntry, c.content, mods, ref + 1);
      FinishForms(Commit(c, AcceptEntry, c.content, mods, ref + 1));
    }
  }

  lemma RejectForms(c: Context, id: string, fallback: string, ref: nat)
    requires ContextFormed(c)
    ensures ContextFormed(DiffContext.Reject(c, id, fallback, ref))
  {
    hide ContextFormed, Commit, RebuiltContent;
    var i := IndexOf(c.mods.items, id);
    if i.Some? {
      var mods := c.mods.items[i.value := c.mods.items[i.value].(status := Rejected)];
      CommitForms(c, RejectEntry, RebuiltContent(c.original, mods, fallback), Arr(ref, mods), ref + 1);
    }
  }

  lemma AcceptAllForms(c: Context, ref: nat)
    requires ContextFormed(c)
    ensures ContextFormed(DiffContext.AcceptAll(c, ref))
  {
    hide Formed, AcceptEach, Sync, Apply, FirstPending, HasPending;
    var done := c.(mods := Arr(ref, AcceptEach(c.mods.items, |c.mods.items|)), isLoading := false);
    SyncForms(done);
    var entries := Sync(done).entries;
    if FirstPending(entries, c.documentId).Some? {
      PendingForms(entries, c.documentId);
      ApplyForms(done.(entries := entries), FirstPending(entries, c.documentId).value);
    }
  }

  lemma SelectForms(c: Context, document: string)
    requires ContextFormed(c)
    ensures ContextFormed(SelectFile(c, document))
  {
    hide Formed, Sync, Apply;
    SyncForms(c);
    if Find(c.entries, document).Some? {
      ApplyForms(Sync(c), Find(c.entries, document).value);
    }
  }

  lemma ModeForms(c: Context, mode: Mode)
    requires ContextFormed(c)
    ensures ContextFormed(SwitchMode(c, mode))
  {
    hide Formed, Apply, FirstPending, HasPending;
    if FirstPending(c.entries, c.activeFileId).Some? {
      PendingForms(c.entries, c.activeFileId);
      ApplyForms(c.(mode := Diff), FirstPending(c.entries, c.activeFileId).value);
    }
  }

  lemma MovedForms(c: Context, m: Move, ref: nat)
    requires ContextFormed(c) && c.undo == m.source.undo && c.redo == m.source.redo && StackOf(m.source, m.direction) != []
    ensures ContextFormed(Moved(c, m, ref))
  {
    hide Project, Sync, Push, Formed;
    var e := Last(StackOf(m.source, m.direction));
    MoveForms(StackOf(m.source, m.direction), StackOf(m.source, if m.direction == Backward then Forward else Backward));
    var moved := if m.direction == Backward
                 then c.(undo := Arr(ref, Init(m.source.undo.items)), redo := Arr(ref + 1, Push(m.source.redo.items, e)))
                 else c.(redo := Arr(ref, Init(m.source.redo.items)), undo := Arr(ref + 1, Push(m.source.undo.items, e)));
    assert ContextFormed(moved);
    if e.projectionBefore.Some? { ProjectForms(moved, e.projectionBefore.value); }
    if e.projectionAfter.Some? { ProjectForms(moved, e.projectionAfter.value); }
    SyncForms(moved.(content := e.contentBefore, mods := e.modsBefore));
    SyncForms(moved.(content := e.contentAfter, mods := e.modsAfter));
  }

  lemma RollbackForms(c: Context, before: Projection, t: Target, ref: nat)
    requires ContextFormed(c)
    ensures ContextFormed(RollbackFrom(c, before, t, ref))
  {
    hide Project, Push, Formed;
    var after := TargetProjection(c, t);
    var e := HistoryEntry(RollbackEntry, before.target, t.content, before.mods, t.mods, Some(before), Some(after));
    PushForms(c.undo.items, c.redo.items, e);
    ProjectForms(c.(undo := Arr(ref, Push(c.undo.items, e)), redo := Arr(ref + 1, [])), after);
  }

  lemma OpenForms(c: Context, a: LoadArgs, ready: Answer, other: bool, ref: nat)
    requires ready.Ready? && ContextFormed(c)
    ensures ContextFormed(OpenLoaded(c, a, ready, other, ref))
  {
    hide Sync, InitialContent;
    SyncForms(c);
  }

  lemma DeleteForms(c: Context, path: string, isDirectory: bool, invalidated: bool, other: bool, ref: nat)
    requires ContextFormed(c)
    ensures ContextFormed(DeleteFrom(c, path, isDirectory, invalidated, other, ref))
  {
    hide Paths.IsPathDeleted, HasPending, Sync, DeletedDocuments, FirstPending, Apply, DocumentDeleted;
    SyncForms(c);
    var all := Sync(c).entries;
    var kept := Without(all, DeletedDocuments(all, path, isDirectory));
    assert EntriesFormed(kept) by { hide Formed; }
    if FirstPending(kept, None).Some? {
      PendingForms(kept, None);
      ApplyForms(c.(entries := kept), FirstPending(kept, None).value);
    }
  }

  // ---------------------------------------------------------------- every step, every run

  lemma CommitMoveForms(s: Store, m: Move)
    requires StoreFormed(s)
    ensures StoreFormed(CommitMove(s, m))
  {
    hide Moved, GenerationsHold, ContextFormed;
    if MoveIsCurrent(s, m) && StackOf(m.source, m.direction) != [] {
      MovedForms(s.contexts[m.context], m, s.nextRef);
    }
  }

  lemma CommitRollbackForms(s: Store, r: RollbackRun, t: Target)
    requires StoreFormed(s)
    ensures StoreFormed(CommitRollback(s, r, t))
  {
    hide RollbackFrom, GenerationsHold, ContextFormed, CurrentProjection;
    if RollbackIsCurrent(s, r) {
      RollbackForms(s.contexts[r.context], CurrentProjection(r.source), t, s.nextRef);
    }
  }

  lemma ResumeRollbackForms(s: Store, r: RollbackRun, answer: Answer)
    requires StoreFormed(s)
    ensures StoreFormed(ResumeRollback(s, r, answer).0)
  {
    hide CommitRollback, RollbackIsCurrent, NextRepair, StoreFormed;
    forall t ensures StoreFormed(CommitRollback(s, r, t)) {
      CommitRollbackForms(s, r, t);
    }
  }

  lemma EmptyForms(ref: nat)
    ensures ContextFormed(Empty(ref))
  {
  }

  lemma ResumeLoadForms(s: Store, l: Load, answer: Answer)
    requires StoreFormed(s)
    ensures StoreFormed(ResumeLoad(s, l, answer).0)
  {
    hide ResumeLoad, OutcomeOf, OpenLoaded, LoadRegistered, OtherLoadRegistered, Formed;
    LoadEffect(s, l, answer);
    EmptyForms(s.nextRef);
    if OutcomeOf(s, l, answer).Committed? {
      OpenForms(ContextOf(s, l.args.context), l.args, answer, OtherLoadRegistered(s, LoadKey(l), l.gen), s.nextRef);
    }
  }

  lemma ResumeForms(s: Store, t: Task, answer: Answer)
    requires StoreFormed(s)
    ensures StoreFormed(ResumeTask(s, t, answer).0)
  {
    hide ResumeLoad, CommitMove, MoveIsCurrent, NextRepair, ResumeRollback, ResumeRepair, StoreFormed;
    match t
    case LoadTask(l) =>
      ResumeLoadForms(s, l, answer);
      assert ResumeTask(s, t, answer).0 == ResumeLoad(s, l, answer).0;
    case MoveTask(m) => CommitMoveForms(s, m);
    case RollbackTask(r) => ResumeRollbackForms(s, r, answer);
    case RepairTask(p) =>
  }

  lemma BeginLoadForms(s: Store, a: LoadArgs)
    requires StoreFormed(s)
    ensures StoreFormed(BeginLoad(s, a).0)
  {
    hide InitialContent, Formed;
    EmptyForms(s.nextRef);
  }

  lemma BeginMoveForms(s: Store, d: Direction, context: string)
    requires StoreFormed(s)
    ensures StoreFormed(BeginMove(s, d, context).0)
  {
    hide CommitMove, ContextOf, ContextFormed;
    var c := ContextOf(s, context);
    var key := KeyOf(context, c.documentId);
    var gen := Count(s.mutations, key) + 1;
    CommitMoveForms(s.(mutations := s.mutations[key := gen]), Move(d, context, c, gen, Lookup(s.loads, key)));
  }

  lemma EditContextForms(s: Store, context: string, edit: Edit)
    requires StoreFormed(s)
    ensures StoreFormed(EditContext(s, context, edit))
  {
    hide Edited, ContextFormed;
    EmptyForms(s.nextRef);
    EditForms(ContextOf(s, context), edit, s.nextRef + REFS_PER_STEP);
  }

  lemma DeletePathForms(s: Store, context: string, path: string, isDirectory: bool)
    requires StoreFormed(s)
    ensures StoreFormed(DeletePath(s, context, path, isDirectory))
  {
    hide DeleteFrom, ContextFormed, KeyDeleted, Mark, Paths.Normalize;
    if context in s.contexts {
      forall invalidated, other ensures ContextFormed(DeleteFrom(s.contexts[context], path, isDirectory, invalidated, other, s.nextRef)) {
        DeleteForms(s.contexts[context], path, isDirectory, invalidated, other, s.nextRef);
      }
    }
  }

  lemma StepForms(y: System, e: Event)
    requires StoreFormed(y.store)
    ensures StoreFormed(Next(y, e).store)
  {
    hide BeginLoad, BeginMove, ResumeTask, EditContext, DeletePath, ContextFormed;
    var s := y.store;
    match e
    case StartLoad(a) => BeginLoadForms(s, a);
    case StartMove(d, context) => BeginMoveForms(s, d, context);
    case StartRollback(context, snapshot) =>
    case Resume(id, answer) => if id in y.tasks { ResumeForms(s, y.tasks[id], answer); }
    case EditEvent(context, edit) => EditContextForms(s, context, edit);
    case DeleteEvent(context, path, isDirectory) => DeletePathForms(s, context, path, isDirectory);
  }

  /** Main result: in every run, of every operation in any order, the two stacks of every file, on screen or stored, keep
      within the bound together, and every history entry shows what it says. */
  lemma {:induction false} RunStaysFormed(y: System, events: seq<Event>)
    requires StoreFormed(y.store)
    ensures StoreFormed(Run(y, events).store)
    decreases |events|
  {
    if events != [] {
      hide Next, StoreFormed;
      StepForms(y, events[0]);
      RunStaysFormed(Next(y, events[0]), events[1..]);
    }
  }
}
