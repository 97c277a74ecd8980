/** Approval and history in runs of the whole protocol. While a file stays on screen, whatever is in flight on it and on
every other file, each step does nothing to it or one sequential operation; so its text stays the rebuild of its original
and its stacks stay chained, as in a run of that file alone. */
module Interleaved {
  import opened Modifications
  import opened DiffContext
  import opened DiffProtocol
  import opened DiffSafety
  import Approval
  import DeletedPaths
  import History
  import Linearization
  import MatchRebuild

  /** The step opens no other file in the context, and does not load its file anew. */
  predicate OnFile(y: System, e: Event, context: string)
    requires context in y.store.contexts
  {
    var c := y.store.contexts[context];
    match e
    case EditEvent(at, edit) =>
      at == context ==>
        && !edit.Select? && (edit.SetMode? ==> edit.mode == Normal || HasPending(c.mods.items))
        && Edited(c, edit, y.store.nextRef + REFS_PER_STEP).documentId == c.documentId
    case DeleteEvent(at, path, isDirectory) =>
      at == context ==> !DocumentDeleted(c.documentId, path, isDirectory) && !DocumentDeleted(c.activeFileId, path, isDirectory)
    case Resume(id, answer) =>
      id in y.tasks && y.tasks[id].LoadTask? && y.tasks[id].load.args.context == context ==>
        !OutcomeOf(y.store, y.tasks[id].load, answer).Committed?
    case _ => true
  }

  // ---------------------------------------------------------------- what a step does to the file

  /** An undo or redo of the file was resumed under its guard. */
  predicate MoveCommits(y: System, e: Event, context: string) {
    && e.Resume? && e.id in y.tasks && y.tasks[e.id].MoveTask?
    && y.tasks[e.id].move.context == context && MoveIsCurrent(y.store, y.tasks[e.id].move)
  }

  predicate RollbackCommits(y: System, e: Event, context: string) {
    && e.Resume? && e.id in y.tasks && y.tasks[e.id].RollbackTask?
    && y.tasks[e.id].run.context == context && RollbackIsCurrent(y.store, y.tasks[e.id].run)
    && e.id !in Next(y, e).tasks
  }

  ghost predicate RolledBack(c: Context, d: Context, source: Context, ref: nat) {
    exists t :: d == RollbackFrom(c, CurrentProjection(source), t, ref)
  }

  /** Nothing the user can see or undo changed, or exactly one operation was performed on the file as it was. */
  ghost predicate OneOperation(y: System, e: Event, context: string, c: Context, d: Context) {
    var ref := y.store.nextRef;
    || History.Same(d, c)
    || (e.StartMove? && e.context == context && !OnDisk(c.documentId) && d == Linearization.Sequential(c, e.direction, ref)
          && Linearization.MovesGeneration(y.store, Next(y, e).store, KeyOf(context, c.documentId)))
    || (MoveCommits(y, e, context) && d == Linearization.Sequential(c, y.tasks[e.id].move.direction, ref))
    || (RollbackCommits(y, e, context) && RolledBack(c, d, y.tasks[e.id].run.source, ref))
    || (e.EditEvent? && e.context == context && d == Edited(c, e.edit, ref + REFS_PER_STEP))
  }

  lemma LoadIsNothing(s: Store, l: Load, answer: Answer, context: string)
    requires context in s.contexts && (l.args.context == context ==> !OutcomeOf(s, l, answer).Committed?)
    ensures var t := ResumeLoad(s, l, answer).0;
            && context in t.contexts && t.contexts[context].documentId == s.contexts[context].documentId
            && History.Same(t.contexts[context], s.contexts[context])
  {
    hide ResumeLoad, OutcomeOf, OpenLoaded, LoadRegistered, OtherLoadRegistered;
    LoadEffect(s, l, answer);
  }

  lemma SequentialStays(c: Context, d: Direction, ref: nat)
    ensures Linearization.Sequential(c, d, ref).documentId == c.documentId
  {
    hide Put, Push;
  }

  lemma RollbackStays(c: Context, before: Projection, t: Target, ref: nat)
    ensures RollbackFrom(c, before, t, ref).documentId == c.documentId
  {
    hide Put, Push;
  }

  lemma StartMoveIsOne(y: System, d: Direction, at: string, context: string)
    requires context in y.store.contexts
    ensures var e, z := StartMove(d, at), Next(y, StartMove(d, at)); var c := y.store.contexts[context];
            && context in z.store.contexts && z.store.contexts[context].documentId == c.documentId
            && OneOperation(y, e, context, c, z.store.contexts[context])
  {
    hide BeginMove, Linearization.Sequential;
    var s, c := y.store, y.store.contexts[context];
    var t := BeginMove(s, d, at).0;
    if at in s.contexts && !OnDisk(s.contexts[at].documentId) {
      Linearization.UnsavedMoveIsSequential(s, d, at);
      SequentialStays(s.contexts[at], d, s.nextRef);
      if t.contexts != s.contexts {
        MoveMovesGeneration(s, d, at);
      }
    } else {
      StartsOnly(s, d, at);
    }
  }

  lemma MoveMovesGeneration(s: Store, d: Direction, at: string)
    requires at in s.contexts && BeginMove(s, d, at).0.contexts != s.contexts
    ensures Linearization.MovesGeneration(s, BeginMove(s, d, at).0, KeyOf(at, s.contexts[at].documentId))
  {
    hide Moved, MoveIsCurrent;
  }

  lemma StartsOnly(s: Store, d: Direction, at: string)
    requires at in s.contexts ==> OnDisk(s.contexts[at].documentId)
    ensures BeginMove(s, d, at).0.contexts == s.contexts
  {
    hide CommitMove;
  }

  /** Resuming a rollback leaves the contexts alone or commits and ends. */
  lemma RollbackIsOne(s: Store, r: RollbackRun, answer: Answer)
    ensures var (t, u) := ResumeRollback(s, r, answer);
            || t == s
            || (u == None && RollbackIsCurrent(s, r) && r.context in s.contexts
                && exists x :: t == Set(s, r.context, RollbackFrom(s.contexts[r.context], CurrentProjection(r.source), x, s.nextRef)))
  {
    hide RollbackFrom, CurrentProjection, NextRepair, GenerationsHold;
    forall x ensures WrittenOrCommitted(s, r, x) {
    }
  }

  predicate WrittenOrCommitted(s: Store, r: RollbackRun, x: Target) {
    var (t, u) := WriteOrCommit(s, r, x);
    t == s || (u == None && RollbackIsCurrent(s, r) && r.context in s.contexts
               && t == Set(s, r.context, RollbackFrom(s.contexts[r.context], CurrentProjection(r.source), x, s.nextRef)))
  }

  lemma ResumeIsOne(y: System, id: nat, answer: Answer, context: string)
    requires context in y.store.contexts && OnFile(y, Resume(id, answer), context) && id in y.tasks
    ensures var e, z := Resume(id, answer), Next(y, Resume(id, answer)); var c := y.store.contexts[context];
            && context in z.store.contexts && z.store.contexts[context].documentId == c.documentId
            && OneOperation(y, e, context, c, z.store.contexts[context])
  {
    hide ResumeLoad, ResumeMove, ResumeRollback, ResumeRepair, OutcomeOf, MoveIsCurrent, RollbackIsCurrent, RollbackFrom, Linearization.Sequential;
    var s, c := y.store, y.store.contexts[context];
    var z := Next(y, Resume(id, answer));
    match y.tasks[id] {
      case LoadTask(l) =>
        LoadIsNothing(s, l, answer, context);
        assert z.store.contexts == ResumeLoad(s, l, answer).0.contexts;
      case MoveTask(m) =>
        Linearization.MoveIsLinearizable(s, m, answer);
        if m.context == context { SequentialStays(c, m.direction, s.nextRef); }
      case RollbackTask(r) =>
        RollbackIsOne(s, r, answer);
        var (t, u) := ResumeRollback(s, r, answer);
        if t != s && r.context == context {
          var x :| t == Set(s, context, RollbackFrom(c, CurrentProjection(r.source), x, s.nextRef));
          RollbackStays(c, CurrentProjection(r.source), x, s.nextRef);
          assert z.store.contexts[context] == RollbackFrom(c, CurrentProjection(r.source), x, s.nextRef);
          assert RolledBack(c, z.store.contexts[context], r.source, s.nextRef);
        }
      case RepairTask(p) =>
    }
  }

  lemma DeleteIsNothing(s: Store, at: string, path: string, isDirectory: bool, context: string)
    requires context in s.contexts
    requires var c := s.contexts[context];
             at == context ==> !DocumentDeleted(c.documentId, path, isDirectory) && !DocumentDeleted(c.activeFileId, path, isDirectory)
    ensures var t := DeletePath(s, at, path, isDirectory);
            && context in t.contexts && t.contexts[context].documentId == s.contexts[context].documentId
            && History.Same(t.contexts[context], s.contexts[context])
  {
    hide DeleteFrom, KeyDeleted, DocumentDeleted, Mark;
    if at == context {
      forall invalidated, other ensures var c := s.contexts[context]; var d := DeleteFrom(c, path, isDirectory, invalidated, other, s.nextRef);
                                        d.documentId == c.documentId && History.Same(d, c)
      {
        DeletedPaths.DeleteClears(s.contexts[context], path, isDirectory, invalidated, other, s.nextRef);
      }
    }
  }

  lemma StartLoadIsNothing(s: Store, a: LoadArgs, context: string)
    requires context in s.contexts
    ensures var t := BeginLoad(s, a).0;
            && context in t.contexts && t.contexts[context].documentId == s.contexts[context].documentId
            && History.Same(t.contexts[context], s.contexts[context])
  {
    hide InitialContent;
  }

  /** Main result: a step that stays on the file leaves it as it is or performs exactly one sequential operation on it. */
  lemma StepIsOneOperation(y: System, e: Event, context: string)
    requires context in y.store.contexts && OnFile(y, e, context)
    ensures var c, z := y.store.contexts[context], Next(y, e);
            && context in z.store.contexts && z.store.contexts[context].documentId == c.documentId
            && OneOperation(y, e, context, c, z.store.contexts[context])
  {
    hide BeginLoad, BeginMove, BeginRollback, ResumeTask, EditContext, DeletePath, OutcomeOf, DocumentDeleted, MoveCommits, RollbackCommits, RolledBack;
    hide Edited, Linearization.Sequential, Linearization.MovesGeneration;
    var s := y.store;
    match e
    case StartLoad(a) => StartLoadIsNothing(s, a, context);
    case StartMove(d, at) => StartMoveIsOne(y, d, at, context);
    case StartRollback(at, snapshot) => assert BeginRollback(s, at, snapshot).0.contexts == s.contexts by { StartRollbackIsNothing(s, at, snapshot); }
    case Resume(id, answer) => if id in y.tasks { ResumeIsOne(y, id, answer, context); }
    case EditEvent(at, edit) => EditIsOne(s, at, edit, context);
    case DeleteEvent(at, path, isDirectory) => DeleteIsNothing(s, at, path, isDirectory, context);
  }

  lemma StartRollbackIsNothing(s: Store, at: string, snapshot: string)
    ensures BeginRollback(s, at, snapshot).0.contexts == s.contexts
  {
    hide ContextOf;
  }

  lemma EditIsOne(s: Store, at: string, edit: Edit, context: string)
    requires context in s.contexts
    ensures var t := EditContext(s, at, edit);
            && context in t.contexts
            && t.contexts[context] == if at == context then Edited(s.contexts[context], edit, s.nextRef + REFS_PER_STEP) else s.contexts[context]
  {
    hide Edited;
  }

  // ---------------------------------------------------------------- the text stays the rebuild

  /** A review step: verdicts as in `Approval.Open`, and no rollback of the file commits. */
  predicate Reviews(y: System, e: Event, context: string)
    requires context in y.store.contexts
  {
    && OnFile(y, e, context) && !RollbackCommits(y, e, context)
    && (e.EditEvent? && e.context == context ==>
          match e.edit
          case Accept(id) => Approval.Open(y.store.contexts[context], Approval.Accept(id))
          case AcceptAll => Approval.Open(y.store.contexts[context], Approval.AcceptAll)
          case RejectAll => false
          case _ => true)
  }

  /** The context exists, and every step of the run is such a step. */
  predicate AllReview(y: System, events: seq<Event>, context: string)
    decreases |events|
  {
    context in y.store.contexts && (events != [] ==> Reviews(y, events[0], context) && AllReview(Next(y, events[0]), events[1..], context))
  }

  lemma SameCoherent(b: Approval.Basis, c: Context, d: Context)
    requires Approval.Coherent(b, c) && History.Same(d, c) && d.documentId == c.documentId
    ensures Approval.Coherent(b, d)
  {
    hide MatchRebuild.Rebuilt;
  }

  lemma EditCoherent(b: Approval.Basis, y: System, at: string, edit: Edit)
    requires at in y.store.contexts && Approval.Coherent(b, y.store.contexts[at]) && Reviews(y, EditEvent(at, edit), at)
    ensures Approval.Coherent(b, Edited(y.store.contexts[at], edit, y.store.nextRef + REFS_PER_STEP))
  {
    hide Approval.Coherent, DiffContext.Accept, DiffContext.Reject, DiffContext.AcceptAll, RejectedByScript, PendingReachable, HasPending;
    var c, ref := y.store.contexts[at], y.store.nextRef + REFS_PER_STEP;
    match edit
    case Accept(id) => Approval.AcceptCoherent(b, c, id, ref);
    case Reject(id, script) => Approval.RejectCoherent(b, c, id, RejectedByScript(c, id, script), ref);
    case AcceptAll => Approval.AcceptAllCoherent(b, c, ref);
    case SetMode(mode) => SameCoherent(b, c, c.(mode := mode));
  }

  lemma SequentialCoherent(b: Approval.Basis, c: Context, d: Direction, ref: nat)
    requires Approval.Coherent(b, c)
    ensures Approval.Coherent(b, Linearization.Sequential(c, d, ref))
  {
    hide Approval.Coherent, DiffContext.Undo, DiffContext.Redo;
    Approval.UndoCoherent(b, c, ref);
    Approval.RedoCoherent(b, c, ref);
  }

  lemma StepCoherent(b: Approval.Basis, y: System, e: Event, context: string)
    requires context in y.store.contexts && Approval.Coherent(b, y.store.contexts[context]) && Reviews(y, e, context)
    ensures context in Next(y, e).store.contexts && Approval.Coherent(b, Next(y, e).store.contexts[context])
  {
    hide Next, Approval.Coherent, OnFile, Edited, Linearization.Sequential, RollbackCommits, MoveIsCurrent, History.Same;
    var c := y.store.contexts[context];
    StepIsOneOperation(y, e, context);
    var d := Next(y, e).store.contexts[context];
    if History.Same(d, c) {
      SameCoherent(b, c, d);
    } else if e.EditEvent? && e.context == context && d == Edited(c, e.edit, y.store.nextRef + REFS_PER_STEP) {
      EditCoherent(b, y, context, e.edit);
    } else {
      forall way ensures Approval.Coherent(b, Linearization.Sequential(c, way, y.store.nextRef)) {
        SequentialCoherent(b, c, way, y.store.nextRef);
      }
    }
  }

  /** Main result: in every run of the protocol that stays on the file, with loads, rollbacks and deletions of other files and
      undos and redos of this one suspended at any point, the text stays the rebuild under the verdicts. */
  lemma {:induction false} InterleavedStaysCoherent(b: Approval.Basis, y: System, events: seq<Event>, context: string)
    requires AllReview(y, events, context) && Approval.Coherent(b, y.store.contexts[context])
    ensures var z := Run(y, events); context in z.store.contexts && Approval.Coherent(b, z.store.contexts[context])
    decreases |events|
  {
    if events != [] {
      hide Next, Approval.Coherent, Reviews;
      StepCoherent(b, y, events[0], context);
      InterleavedStaysCoherent(b, Next(y, events[0]), events[1..], context);
    }
  }

  /** So confluence holds across interleavings: two runs that end with the same blocks rejected end with the same text. */
  lemma InterleavedConfluence(b: Approval.Basis, y: System, events: seq<Event>, z: System, events': seq<Event>, context: string)
    requires AllReview(y, events, context) && Approval.Coherent(b, y.store.contexts[context])
    requires AllReview(z, events', context) && Approval.Coherent(b, z.store.contexts[context])
    ensures var s, t := Run(y, events).store, Run(z, events').store;
            && context in s.contexts && context in t.contexts
            && (Verdicts(s.contexts[context].mods.items) == Verdicts(t.contexts[context].mods.items) ==>
                  s.contexts[context].content == t.contexts[context].content)
  {
    hide Run, AllReview, MatchRebuild.Rebuilt;
    InterleavedStaysCoherent(b, y, events, context);
    InterleavedStaysCoherent(b, z, events', context);
    var c, d := Run(y, events).store.contexts[context], Run(z, events').store.contexts[context];
    if Verdicts(c.mods.items) == Verdicts(d.mods.items) {
      MatchRebuild.RebuildSeesOnlyRejections(b.original, c.mods.items, d.mods.items);
    }
  }

  // ---------------------------------------------------------------- the stacks stay chained

  /** As long as a rollback of the file is not overtaken, the marks it records but does not compare, as far as history shows
      them, are those of its start. */
  predicate Marked(s: Store, r: RollbackRun, context: string) {
    r.context == context && context in s.contexts && s.contexts[context].documentId == r.source.documentId
    && !Linearization.Late(s, RollbackTask(r)) ==>
      s.contexts[context].preApplied == r.source.preApplied && s.contexts[context].snapshot == r.source.snapshot
  }

  predicate AllMarked(y: System, context: string) {
    forall id :: id in y.tasks && y.tasks[id].RollbackTask? ==> Marked(y.store, y.tasks[id].run, context)
  }

  /** A step within the file that keeps history: everything but accepting all at once, which pushes no entry. */
  predicate Records(y: System, e: Event, context: string)
    requires context in y.store.contexts
  {
    OnFile(y, e, context) && (e.EditEvent? && e.context == context ==> !e.edit.AcceptAll?)
  }

  predicate AllRecord(y: System, events: seq<Event>, context: string)
    decreases |events|
  {
    context in y.store.contexts && (events != [] ==> Records(y, events[0], context) && AllRecord(Next(y, events[0]), events[1..], context))
  }

  lemma EditKeepsMarks(c: Context, edit: Edit, ref: nat)
    requires !edit.Select? && (edit.SetMode? ==> edit.mode == Normal || HasPending(c.mods.items))
    requires Edited(c, edit, ref).documentId == c.documentId
    ensures Edited(c, edit, ref).preApplied == c.preApplied && Edited(c, edit, ref).snapshot == c.snapshot
  {
    hide Put, HasPending, Push, RebuiltContent, RejectedByScript, AcceptEach, Settle;
  }

  /** Two operations on one file: while one may commit the other is overtaken. */
  lemma OnlyOneMayCommit(y: System, i: nat, j: nat)
    requires Ordered(y) && i in y.tasks && j in y.tasks && i != j
    requires MutationOf(y.tasks[i]).Some? && MutationOf(y.tasks[j]).Some? && MutationOf(y.tasks[i]).value.0 == MutationOf(y.tasks[j]).value.0
    requires Lookup(y.store.mutations, MutationOf(y.tasks[i]).value.0) == Some(MutationOf(y.tasks[i]).value.1)
    ensures Linearization.Late(y.store, y.tasks[j])
  {
    assert Apart(y.tasks[i], y.tasks[j]);
  }

  /** A rollback in flight after a step was in flight before, from the same start, or has just started from the context. */
  lemma RollbackBefore(y: System, e: Event, id: nat)
    requires Ordered(y) && id in Next(y, e).tasks && Next(y, e).tasks[id].RollbackTask?
    ensures var r := Next(y, e).tasks[id].run;
            if id in y.tasks then y.tasks[id].RollbackTask? && y.tasks[id].run.(at := r.at) == r
            else r.context in y.store.contexts ==> r.source == y.store.contexts[r.context] && Next(y, e).store.contexts == y.store.contexts
  {
    hide BeginLoad, BeginMove, BeginRollback, ResumeTask, EditContext, DeletePath, Ordered;
    if id in y.tasks { OrderedIds(y, id); }
    match e
    case StartLoad(a) => LoadBegins(y.store, a);
    case StartMove(d, at) => MoveBegins(y.store, d, at);
    case StartRollback(at, snapshot) => RollbackBegins(y.store, at, snapshot);
    case Resume(other, answer) => if other in y.tasks { RollbackGoesOnAs(y.store, y.tasks[other], answer); }
    case EditEvent(at, edit) =>
    case DeleteEvent(at, path, isDirectory) =>
  }

  lemma LoadBegins(s: Store, a: LoadArgs)
    ensures !LoadTask(BeginLoad(s, a).1).RollbackTask?
  {
    hide BeginLoad;
  }

  lemma MoveBegins(s: Store, d: Direction, at: string)
    ensures BeginMove(s, d, at).1.Some? ==> BeginMove(s, d, at).1.value.MoveTask?
  {
    hide CommitMove, ContextOf;
  }

  lemma RollbackBegins(s: Store, at: string, snapshot: string)
    ensures var (t, u) := BeginRollback(s, at, snapshot);
            t.contexts == s.contexts && (u.Some? && u.value.RollbackTask? && u.value.run.context in s.contexts ==>
              u.value.run.source == s.contexts[u.value.run.context])
  {
  }

  lemma RollbackGoesOnAs(s: Store, t: Task, answer: Answer)
    ensures var u := ResumeTask(s, t, answer).1;
            u.Some? && u.value.RollbackTask? ==> t.RollbackTask? && t.run.(at := u.value.run.at) == u.value.run
  {
    hide ResumeLoad, CommitMove, MoveIsCurrent, CommitRollback, RollbackIsCurrent, CurrentTarget, WasPathDeleted, RepairHolds;
  }

  lemma OrderedIds(y: System, id: nat)
    requires Ordered(y) && id in y.tasks
    ensures id < y.nextTask && TaskBounded(y.store, y.tasks[id])
  {
  }

  lemma SameRollbackLate(s: Store, r: RollbackRun, r': RollbackRun)
    requires r'.(at := r.at) == r
    ensures Linearization.Late(s, RollbackTask(r)) <==> Linearization.Late(s, RollbackTask(r'))
    ensures MutationOf(RollbackTask(r)) == MutationOf(RollbackTask(r')) == Some((RollbackKey(r), r.gen, r.loadGen))
  {
  }

  /** What changes the marks of the file overtakes every rollback of it. */
  lemma MarksChangeOvertakes(y: System, e: Event, context: string, id: nat)
    requires Ordered(y) && context in y.store.contexts && Records(y, e, context)
    requires id in y.tasks && id in Next(y, e).tasks && y.tasks[id].RollbackTask?
    requires y.tasks[id].run.context == context && y.store.contexts[context].documentId == y.tasks[id].run.source.documentId
    requires !Linearization.Late(y.store, y.tasks[id]) && !Linearization.Late(Next(y, e).store, y.tasks[id])
    ensures var c, z := y.store.contexts[context], Next(y, e);
            && context in z.store.contexts && z.store.contexts[context].preApplied == c.preApplied && z.store.contexts[context].snapshot == c.snapshot
  {
    hide Next, Ordered, OnFile, Edited, Linearization.Sequential, RolledBack, Linearization.Late;
    var c, r := y.store.contexts[context], y.tasks[id].run;
    StepIsOneOperation(y, e, context);
    var d := Next(y, e).store.contexts[context];
    if History.Same(d, c) {
    } else if e.StartMove? {
      Linearization.NewerOvertakes(y, e, id);
    } else if e.EditEvent? {
      EditStays(y, context, e.edit);
      EditKeepsMarks(c, e.edit, y.store.nextRef + REFS_PER_STEP);
    } else if MoveCommits(y, e, context) {
      OnlyOneMayCommit(y, e.id, id);
    } else if RollbackCommits(y, e, context) {
      assert e.id != id;
      OnlyOneMayCommit(y, e.id, id);
    }
  }

  lemma EditStays(y: System, at: string, edit: Edit)
    requires at in y.store.contexts && OnFile(y, EditEvent(at, edit), at)
    ensures var c := y.store.contexts[at];
            && !edit.Select? && (edit.SetMode? ==> edit.mode == Normal || HasPending(c.mods.items))
            && Edited(c, edit, y.store.nextRef + REFS_PER_STEP).documentId == c.documentId
  {
  }

  lemma StaysMarked(y: System, e: Event, context: string)
    requires Ordered(y) && AllMarked(y, context) && context in y.store.contexts && Records(y, e, context)
    ensures AllMarked(Next(y, e), context)
  {
    hide Next, Ordered, Records, Linearization.Late;
    var z := Next(y, e);
    assert OnFile(y, e, context) by { RecordsOnFile(y, e, context); }
    StepIsOneOperation(y, e, context);
    GenerationsGrow(y, e);
    forall id | id in z.tasks && z.tasks[id].RollbackTask? ensures Marked(z.store, z.tasks[id].run, context) {
      var r := z.tasks[id].run;
      RollbackBefore(y, e, id);
      if r.context == context && z.store.contexts[context].documentId == r.source.documentId && !Linearization.Late(z.store, RollbackTask(r)) && id in y.tasks {
        var r' := y.tasks[id].run;
        SameRollbackLate(z.store, r, r');
        SameRollbackLate(y.store, r, r');
        OrderedIds(y, id);
        if Linearization.Late(y.store, RollbackTask(r')) {
          Linearization.LateStays(y.store, z.store, y.tasks[id]);
        }
        MarksChangeOvertakes(y, e, context, id);
        assert Marked(y.store, r', context);
      }
    }
  }

  lemma RecordsOnFile(y: System, e: Event, context: string)
    requires context in y.store.contexts && Records(y, e, context)
    ensures OnFile(y, e, context)
  {
  }

  /** A rollback whose entry records the look of the context it commits on. */
  lemma RollbackFromSound(c: Context, before: Projection, t: Target, ref: nat)
    requires History.Sound(c) && before.target == c.content && before.mods == c.mods && History.Shown(before) == History.LookOf(c)
    ensures History.Sound(RollbackFrom(c, before, t, ref))
  {
    hide Put;
    var after := TargetProjection(c, t);
    var e := HistoryEntry(RollbackEntry, before.target, t.content, before.mods, t.mods, Some(before), Some(after));
    History.CommitSound(c, RollbackFrom(c, before, t, ref), e);
  }

  lemma SameSound(c: Context, d: Context)
    requires History.Sound(c) && History.Same(d, c)
    ensures History.Sound(d)
  {
  }

  lemma SequentialSound(c: Context, d: Direction, ref: nat)
    requires History.Sound(c)
    ensures History.Sound(Linearization.Sequential(c, d, ref))
  {
    hide History.Sound;
    SequentialStays(c, d, ref);
    History.OpSound(c, if d == Backward then History.Undo else History.Redo, ref);
  }

  lemma EditSound(c: Context, edit: Edit, ref: nat)
    requires History.Sound(c) && Edited(c, edit, ref).documentId == c.documentId
    requires !edit.Select? && !edit.AcceptAll? && (edit.SetMode? ==> edit.mode == Normal || HasPending(c.mods.items))
    ensures History.Sound(Edited(c, edit, ref))
  {
    hide History.Sound, DiffContext.Accept, DiffContext.Reject, DiffContext.RejectAll, RejectedByScript, HasPending;
    match edit
    case Accept(id) => History.OpSound(c, History.Accept(id), ref);
    case Reject(id, script) =>
      RejectStays(c, id, RejectedByScript(c, id, script), ref);
      History.OpSound(c, History.Reject(id, RejectedByScript(c, id, script)), ref);
    case RejectAll => History.OpSound(c, History.RejectAll, ref);
    case SetMode(mode) => SameSound(c, c.(mode := mode));
  }

  lemma RejectStays(c: Context, id: string, fallback: string, ref: nat)
    ensures DiffContext.Reject(c, id, fallback, ref).documentId == c.documentId
  {
    hide RebuiltContent;
  }

  lemma RollbackCommitSound(y: System, e: Event, context: string, d: Context)
    requires context in y.store.contexts && AllMarked(y, context) && RollbackCommits(y, e, context)
    requires RolledBack(y.store.contexts[context], d, y.tasks[e.id].run.source, y.store.nextRef)
    requires History.Sound(y.store.contexts[context])
    ensures History.Sound(d)
  {
    hide Next, RollbackFrom, History.Sound;
    var c, r := y.store.contexts[context], y.tasks[e.id].run;
    assert Marked(y.store, r, context);
    var t :| d == RollbackFrom(c, CurrentProjection(r.source), t, y.store.nextRef);
    RollbackFromSound(c, CurrentProjection(r.source), t, y.store.nextRef);
  }

  lemma CommitsNamed(y: System, e: Event, context: string)
    requires RollbackCommits(y, e, context)
    ensures e.Resume? && e.id in y.tasks && y.tasks[e.id].RollbackTask?
  {
  }

  lemma StepSound(y: System, e: Event, context: string)
    requires Ordered(y) && AllMarked(y, context) && context in y.store.contexts && Records(y, e, context)
    requires History.Sound(y.store.contexts[context])
    ensures context in Next(y, e).store.contexts && History.Sound(Next(y, e).store.contexts[context])
  {
    hide Next, Ordered, AllMarked, History.Sound, OnFile, Edited, Linearization.Sequential, RollbackCommits, MoveIsCurrent, History.Same, RolledBack;
    var c := y.store.contexts[context];
    StepIsOneOperation(y, e, context);
    var d := Next(y, e).store.contexts[context];
    if History.Same(d, c) {
      SameSound(c, d);
    } else if e.EditEvent? && e.context == context && d == Edited(c, e.edit, y.store.nextRef + REFS_PER_STEP) {
      EditStays(y, context, e.edit);
      EditSound(c, e.edit, y.store.nextRef + REFS_PER_STEP);
    } else {
      forall way ensures History.Sound(Linearization.Sequential(c, way, y.store.nextRef)) {
        SequentialSound(c, way, y.store.nextRef);
      }
      if RollbackCommits(y, e, context) {
        CommitsNamed(y, e, context);
        if RolledBack(c, d, y.tasks[e.id].run.source, y.store.nextRef) {
          RollbackCommitSound(y, e, context, d);
        }
      }
    }
  }

  /** Main result: in every run of the protocol that stays on the file, rollbacks of it included, the two stacks hold at
      most 50 entries together and chain, from what is shown back to the oldest state and on to the newest. */
  lemma {:induction false} InterleavedStaysSound(y: System, events: seq<Event>, context: string)
    requires Ordered(y) && AllMarked(y, context) && AllRecord(y, events, context) && History.Sound(y.store.contexts[context])
    ensures var z := Run(y, events); context in z.store.contexts && History.Sound(z.store.contexts[context])
    decreases |events|
  {
    if events != [] {
      hide Next, Ordered, AllMarked, Records, History.Sound;
      StaysOrdered(y, events[0]);
      StaysMarked(y, events[0], context);
      StepSound(y, events[0], context);
      InterleavedStaysSound(Next(y, events[0]), events[1..], context);
    }
  }
}
