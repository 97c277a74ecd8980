/** Undo, redo and rollback are linearizable: one that commits has the effect of the sequential
operation on the context at that moment, and one that was overtaken never changes the store. */
module Linearization {
  import opened Modifications
  import opened DiffContext
  import opened DiffProtocol
  import opened DiffSafety

  // ---------------------------------------------------------------- undo and redo

  function Sequential(c: Context, d: Direction, ref: nat): Context {
    if d == Backward then Undo(c, ref) else Redo(c, ref)
  }

  /** Under the guard the stacks remembered at the start are the stacks of the context itself. */
  lemma MovedIsSequential(c: Context, m: Move, ref: nat)
    requires StackOf(m.source, m.direction) != []
    requires c.undo == m.source.undo && c.redo == m.source.redo
    ensures Moved(c, m, ref) == Sequential(c, m.direction, ref)
  {
    hide Project, Sync, Push;
  }

  /** Resuming an undo or redo either leaves the store untouched or performs the sequential operation on the
      context as it is now; it does the latter exactly when its write succeeded and nothing overtook it. */
  lemma MoveIsLinearizable(s: Store, m: Move, answer: Answer)
    ensures var t := ResumeMove(s, m, answer).0;
            if !answer.Failure? && MoveIsCurrent(s, m)
            then t == Set(s, m.context, Sequential(s.contexts[m.context], m.direction, s.nextRef))
            else t == s
  {
    hide Moved, NextRepair, Project, Sync, Push;
    if MoveIsCurrent(s, m) {
      if StackOf(m.source, m.direction) == [] {
        assert s.contexts[m.context := s.contexts[m.context]] == s.contexts;
      } else {
        MovedIsSequential(s.contexts[m.context], m, s.nextRef);
      }
    }
  }

  /** Files that are not on disk have no suspension point: starting the move performs it. */
  lemma UnsavedMoveIsSequential(s: Store, d: Direction, context: string)
    requires context in s.contexts && !OnDisk(s.contexts[context].documentId)
    ensures var c := s.contexts[context];
            var key := KeyOf(context, c.documentId);
            var (t, task) := BeginMove(s, d, context);
            && task == None
            && t.contexts == if StackOf(c, d) == [] || key in s.active then s.contexts
                             else s.contexts[context := Sequential(c, d, s.nextRef)]
  {
    hide Moved, Sequential;
    var c := s.contexts[context];
    var key := KeyOf(context, c.documentId);
    if StackOf(c, d) != [] && key !in s.active {
      var gen := Count(s.mutations, key) + 1;
      var started := s.(mutations := s.mutations[key := gen]);
      var m := Move(d, context, c, gen, Lookup(s.loads, key));
      MovedIsSequential(c, m, s.nextRef);
      assert MoveIsCurrent(started, m);
    }
  }

  // ---------------------------------------------------------------- overtaken operations

  /** A newer undo, redo or rollback of the file, a newer load or a deletion took the lead. */
  predicate Late(s: Store, t: Task)
    requires MutationOf(t).Some?
  {
    var (key, gen, loadGen) := MutationOf(t).value;
    Lookup(s.mutations, key) != Some(gen) || Lookup(s.loads, key) != loadGen
  }

  lemma LateChangesNothing(s: Store, t: Task, answer: Answer)
    requires MutationOf(t).Some? && Late(s, t)
    ensures ResumeTask(s, t, answer).0 == s
  {
    hide Moved, RollbackFrom, NextRepair, CurrentTarget, WasPathDeleted;
    match t
    case MoveTask(m) =>
    case RollbackTask(r) => assert !RollbackIsCurrent(s, r);
  }

  lemma LateStays(s: Store, s': Store, t: Task)
    requires MutationOf(t).Some? && TaskBounded(s, t) && Late(s, t) && StoreGrows(s, s')
    ensures Late(s', t)
  {
  }

  predicate LateOrDone(y: System, id: nat) {
    id < y.nextTask && (id in y.tasks && MutationOf(y.tasks[id]).Some? ==> Late(y.store, y.tasks[id]))
  }

  /** The undos, redos and rollbacks after a stretch are those before it, and perhaps the one it started. */
  lemma MutationsAfter(y: System, e: Event, id: nat)
    requires Ordered(y) && id < y.nextTask
    ensures y.nextTask <= Stretch(y, e).nextTask
    ensures id in Stretch(y, e).tasks && MutationOf(Stretch(y, e).tasks[id]).Some? ==>
              id in y.tasks && MutationOf(y.tasks[id]) == MutationOf(Stretch(y, e).tasks[id])
  {
    hide BeginLoad, BeginMove, BeginRollback, ResumeLoad, ResumeMove, ResumeRollback, ResumeRepair, EditContext, DeletePath;
    hide Apart, Running, TaskBounded;
    match e
    case Resume(id', answer) =>
      if id' in y.tasks {
        var t := y.tasks[id'];
        if t.LoadTask? { LoadFrame(y.store, t.load, answer); } else { MutationFrame(y.store, t, answer); }
      }
    case _ =>
  }

  lemma LateOrDoneStays(y: System, e: Event, id: nat)
    requires Ordered(y) && LateOrDone(y, id)
    ensures LateOrDone(Next(y, e), id)
  {
    hide Stretch, MutationOf, TaskBounded;
    GenerationsGrow(y, e);
    MutationsAfter(y, e, id);
    var z := Next(y, e);
    if id in z.tasks && MutationOf(z.tasks[id]).Some? {
      assert TaskBounded(y.store, y.tasks[id]);
      LateSame(y.store, y.tasks[id], z.tasks[id]);
      LateBoundedSame(y.store, y.tasks[id], z.tasks[id]);
      LateStays(y.store, z.store, z.tasks[id]);
    }
  }

  lemma LateSame(s: Store, t: Task, u: Task)
    requires MutationOf(t).Some? && MutationOf(t) == MutationOf(u)
    ensures Late(s, t) <==> Late(s, u)
  {
  }

  lemma LateBoundedSame(s: Store, t: Task, u: Task)
    requires MutationOf(t).Some? && MutationOf(t) == MutationOf(u)
    ensures TaskBounded(s, t) <==> TaskBounded(s, u)
  {
  }

  lemma {:induction false} LateAlongRun(y: System, events: seq<Event>, id: nat)
    requires Ordered(y) && LateOrDone(y, id)
    ensures LateOrDone(Run(y, events), id)
    decreases |events|
  {
    if events != [] {
      hide Next, Ordered, LateOrDone;
      LateOrDoneStays(y, events[0], id);
      StaysOrdered(y, events[0]);
      LateAlongRun(Next(y, events[0]), events[1..], id);
    }
  }

  /** Main result: once overtaken, an undo, redo or rollback never commits. However the run goes on, resuming
      it leaves the store as it is, unless it has turned to repairing the file it wrote. */
  lemma OvertakenNeverCommits(y: System, events: seq<Event>, id: nat, answer: Answer)
    requires Ordered(y) && id in y.tasks && MutationOf(y.tasks[id]).Some? && Late(y.store, y.tasks[id])
    ensures var z := Run(y, events);
            id in z.tasks && MutationOf(z.tasks[id]).Some? ==> ResumeTask(z.store, z.tasks[id], answer).0 == z.store
  {
    hide Run, ResumeTask;
    LateAlongRun(y, events, id);
    var z := Run(y, events);
    if id in z.tasks && MutationOf(z.tasks[id]).Some? {
      LateChangesNothing(z.store, z.tasks[id], answer);
    }
  }

  /** Whatever starts on a file overtakes every undo, redo and rollback of it that is still in flight. */
  lemma NewerOvertakes(y: System, e: Event, id: nat)
    requires Ordered(y) && id in y.tasks && MutationOf(y.tasks[id]).Some?
    ensures MovesGeneration(y.store, Next(y, e).store, MutationOf(y.tasks[id]).value.0) ==> Late(Next(y, e).store, y.tasks[id])
  {
    hide Next, Ordered;
    GenerationsGrow(y, e);
    OrderedBounds(y, id);
    if MovesGeneration(y.store, Next(y, e).store, MutationOf(y.tasks[id]).value.0) {
      MovedOnOvertakes(y.store, Next(y, e).store, y.tasks[id]);
    }
  }

  predicate MovesGeneration(s: Store, t: Store, key: Key) {
    Lookup(t.mutations, key) != Lookup(s.mutations, key) || Lookup(t.loads, key) != Lookup(s.loads, key)
  }

  lemma OrderedBounds(y: System, id: nat)
    requires Ordered(y) && id in y.tasks
    ensures TaskBounded(y.store, y.tasks[id])
  {
  }

  lemma MovedOnOvertakes(s: Store, t: Store, task: Task)
    requires MutationOf(task).Some? && TaskBounded(s, task) && StoreGrows(s, t)
    requires MovesGeneration(s, t, MutationOf(task).value.0)
    ensures Late(t, task)
  {
  }

  lemma BumpMoves(m: map<Key, nat>, key: Key)
    ensures Lookup(m[key := Count(m, key) + 1], key) != Lookup(m, key)
  {
  }

  /** What "starts on a file" means for the three kinds of operation. */
  lemma StartingMovesGenerations(s: Store, a: LoadArgs, d: Direction, context: string, snapshot: string)
    ensures Lookup(BeginLoad(s, a).0.loads, Key(a.context, a.document)) != Lookup(s.loads, Key(a.context, a.document))
    ensures var key := KeyOf(context, ContextOf(s, context).documentId);
            && (BeginMove(s, d, context).1.Some? ==>
                  Lookup(BeginMove(s, d, context).0.mutations, key) != Lookup(s.mutations, key))
            && (BeginRollback(s, context, snapshot).1.Some? ==>
                  Lookup(BeginRollback(s, context, snapshot).0.mutations, key) != Lookup(s.mutations, key))
  {
    hide BeginLoad, BeginMove, BeginRollback, ContextOf;
    BeginLoadFrame(s, a);
    BeginMoveFrame(s, d, context);
    BeginRollbackFrame(s, context, snapshot);
    BumpMoves(s.loads, Key(a.context, a.document));
    BumpMoves(s.mutations, KeyOf(context, ContextOf(s, context).documentId));
  }

  // ---------------------------------------------------------------- rollback

  lemma LastPushed(stack: seq<HistoryEntry>, e: HistoryEntry)
    ensures Push(stack, e) != [] && Last(Push(stack, e)) == e
  {
  }

  lemma ProjectKeepsStacks(c: Context, p: Projection)
    ensures Project(c, p).undo == c.undo && Project(c, p).redo == c.redo
  {
    hide Put;
  }

  /** A committing rollback has the effect of the sequential one, up to what its history entry says about the
      state it left: that is the state at its start. It is exact if and only if the applied text, the snapshot
      mark and the review mode are still those of the start; everything else the guard has compared. */
  lemma RollbackCommitIsSequential(s: Store, r: RollbackRun, t: Target)
    requires RollbackIsCurrent(s, r)
    ensures var c := s.contexts[r.context];
            CommitRollback(s, r, t) == Set(s, r.context, Rollback(c, t, s.nextRef)) <==>
            c.preApplied == r.source.preApplied && c.snapshot == r.source.snapshot && c.mode == r.source.mode
  {
    hide Project, Push, TargetProjection, GenerationsHold;
    var c := s.contexts[r.context];
    var before, now := CurrentProjection(r.source), CurrentProjection(c);
    var after := TargetProjection(c, t);
    var e1 := HistoryEntry(RollbackEntry, before.target, t.content, before.mods, t.mods, Some(before), Some(after));
    var e2 := HistoryEntry(RollbackEntry, now.target, t.content, now.mods, t.mods, Some(now), Some(after));
    LastPushed(c.undo.items, e1);
    LastPushed(c.undo.items, e2);
    ProjectKeepsStacks(c.(undo := Arr(s.nextRef, Push(c.undo.items, e1)), redo := Arr(s.nextRef + 1, [])), after);
    ProjectKeepsStacks(c.(undo := Arr(s.nextRef, Push(c.undo.items, e2)), redo := Arr(s.nextRef + 1, [])), after);
    var d1 := RollbackFrom(c, before, t, s.nextRef);
    var d2 := RollbackFrom(c, now, t, s.nextRef);
    assert d1.undo.items == Push(c.undo.items, e1) && d2.undo.items == Push(c.undo.items, e2);
    if CommitRollback(s, r, t) == Set(s, r.context, d2) {
      assert CommitRollback(s, r, t).contexts[r.context] == d1;
      assert e1 == e2;
    }
  }

  // ---------------------------------------------------------------- rollback among loads, undos and redos

  /** The three marks a rollback records but does not compare. */
  function Marks(c: Context): (string, Option<string>, Mode) {
    (c.preApplied, c.snapshot, c.mode)
  }

  /** As long as a rollback is not overtaken its file is not loading, and while the file is on screen the
      marks are those of the start. */
  predicate Undisturbed(s: Store, r: RollbackRun) {
    !Late(s, RollbackTask(r)) ==>
      && RollbackKey(r) !in s.active
      && (if r.context in s.contexts then
            s.contexts[r.context].documentId == r.source.documentId ==> Marks(s.contexts[r.context]) == Marks(r.source)
          else Marks(r.source) == Marks(Empty(0)))
  }

  predicate AllUndisturbed(y: System) {
    forall id :: id in y.tasks && y.tasks[id].RollbackTask? ==> Undisturbed(y.store, y.tasks[id].run)
  }

  /** Loads, undos, redos and rollbacks only. */
  predicate Quiet(e: Event) {
    !e.EditEvent? && !e.DeleteEvent?
  }

  lemma UndisturbedByStartLoad(s: Store, a: LoadArgs, r: RollbackRun)
    requires Undisturbed(s, r) && TaskBounded(s, RollbackTask(r))
    ensures Undisturbed(BeginLoad(s, a).0, r)
  {
    hide InitialContent;
  }

  lemma UndisturbedByCommitMove(s: Store, m: Move, r: RollbackRun)
    requires Undisturbed(s, r) && Apart(MoveTask(m), RollbackTask(r))
    ensures Undisturbed(CommitMove(s, m), r)
  {
    hide Moved;
    if MoveIsCurrent(s, m) && StackOf(m.source, m.direction) != [] {
      MovedKeepsDocument(s.contexts[m.context], m, s.nextRef);
    }
  }

  lemma MovedKeepsDocument(c: Context, m: Move, ref: nat)
    requires StackOf(m.source, m.direction) != []
    ensures Moved(c, m, ref).documentId == c.documentId
  {
    hide Put;
  }

  lemma UndisturbedByStartMove(s: Store, d: Direction, at: string, r: RollbackRun)
    requires Undisturbed(s, r) && TaskBounded(s, RollbackTask(r))
    ensures Undisturbed(BeginMove(s, d, at).0, r)
  {
    hide CommitMove, ContextOf;
    var c := ContextOf(s, at);
    var key := KeyOf(at, c.documentId);
    var gen := Count(s.mutations, key) + 1;
    var started := s.(mutations := s.mutations[key := gen]);
    var m := Move(d, at, c, gen, Lookup(s.loads, key));
    assert Undisturbed(started, r);
    UndisturbedByCommitMove(started, m, r);
  }

  lemma RollbackFromKeepsDocument(c: Context, before: Projection, t: Target, ref: nat)
    ensures RollbackFrom(c, before, t, ref).documentId == c.documentId
  {
    hide Put, Push, TargetProjection;
  }

  lemma UndisturbedByCommitRollback(s: Store, q: RollbackRun, t: Target, r: RollbackRun)
    requires Undisturbed(s, r) && Apart(RollbackTask(q), RollbackTask(r))
    ensures Undisturbed(CommitRollback(s, q, t), r)
  {
    hide RollbackFrom, CurrentProjection;
    if RollbackIsCurrent(s, q) {
      RollbackFromKeepsDocument(s.contexts[q.context], CurrentProjection(q.source), t, s.nextRef);
    }
  }

  lemma UndisturbedByResumeRollback(s: Store, q: RollbackRun, answer: Answer, r: RollbackRun)
    requires Undisturbed(s, r) && Apart(RollbackTask(q), RollbackTask(r))
    ensures Undisturbed(ResumeRollback(s, q, answer).0, r)
  {
    hide CommitRollback, RollbackIsCurrent, NextRepair, Undisturbed, Apart;
    forall t ensures Undisturbed(CommitRollback(s, q, t), r) {
      UndisturbedByCommitRollback(s, q, t, r);
    }
  }

  lemma CommittedDocument(s: Store, l: Load, ready: Answer)
    requires ready.Ready?
    ensures CommitLoad(s, l, ready).contexts[l.args.context].documentId == Some(l.args.document)
  {
    hide OtherLoadRegistered, Put, Without, Sync, ContextOf, InitialContent;
  }

  lemma UndisturbedByResumeLoad(s: Store, l: Load, answer: Answer, r: RollbackRun)
    requires Undisturbed(s, r) && TaskBounded(s, LoadTask(l))
    ensures Undisturbed(ResumeLoad(s, l, answer).0, r)
  {
    hide ResumeLoad, CommitLoad, OutcomeOf, LoadRegistered, OtherLoadRegistered;
    LoadFrame(s, l, answer);
    LoadEffect(s, l, answer);
    match OutcomeOf(s, l, answer) {
      case GoesOn =>
      case Dropped =>
      case GaveUp => CancelFrame(s, l);
      case Errored => FailFrame(s, l);
      case Committed =>
        CommitFrame(s, l, answer);
        CommittedDocument(s, l, answer);
    }
  }

  lemma UndisturbedByStartRollback(s: Store, at: string, snapshot: string, r: RollbackRun)
    requires Undisturbed(s, r) && TaskBounded(s, RollbackTask(r))
    ensures Undisturbed(BeginRollback(s, at, snapshot).0, r)
  {
    hide ContextOf;
  }

  lemma NewRollbackUndisturbed(s: Store, at: string, snapshot: string)
    ensures var (t, task) := BeginRollback(s, at, snapshot);
            task.Some? ==> task.value.RollbackTask? && Undisturbed(t, task.value.run)
  {
  }

  /** Going on keeps what a rollback remembers. */
  lemma SameRun(s: Store, r: RollbackRun, answer: Answer)
    ensures var t := ResumeRollback(s, r, answer).1;
            t.Some? && t.value.RollbackTask? ==>
              && t.value.run.(at := r.at) == r
              && ResumeRollback(s, r, answer).0 == s
  {
    hide RollbackFrom, RollbackIsCurrent, CurrentTarget, WasPathDeleted;
  }

  lemma UndisturbedIgnores(s: Store, t: Store, r: RollbackRun, q: RollbackRun)
    requires Undisturbed(s, r) && r.(at := q.at) == q
    requires t.contexts == s.contexts && t.active == s.active && t.loads == s.loads && t.mutations == s.mutations
    ensures Undisturbed(t, q)
  {
  }

  lemma ResumeUndisturbed(s: Store, t: Task, answer: Answer, r: RollbackRun)
    requires Undisturbed(s, r) && TaskBounded(s, t) && Apart(t, RollbackTask(r))
    ensures Undisturbed(ResumeTask(s, t, answer).0, r)
  {
    hide ResumeLoad, CommitMove, ResumeRollback, ResumeRepair, NextRepair, MoveIsCurrent, Undisturbed, TaskBounded, Apart;
    match t
    case LoadTask(l) =>
      UndisturbedByResumeLoad(s, l, answer, r);
      assert ResumeTask(s, t, answer).0 == ResumeLoad(s, l, answer).0;
    case MoveTask(m) => UndisturbedByCommitMove(s, m, r);
    case RollbackTask(q) => UndisturbedByResumeRollback(s, q, answer, r);
    case RepairTask(p) =>
  }

  lemma StretchUndisturbed(y: System, e: Event, id: nat)
    requires Ordered(y) && AllUndisturbed(y) && Quiet(e)
    requires id in Stretch(y, e).tasks && Stretch(y, e).tasks[id].RollbackTask?
    ensures Undisturbed(Stretch(y, e).store, Stretch(y, e).tasks[id].run)
  {
    hide BeginLoad, BeginMove, BeginRollback, ResumeLoad, ResumeMove, ResumeRollback, ResumeRepair, Undisturbed, TaskBounded, Apart, Running;
    var s := y.store;
    match e
    case StartLoad(a) => UndisturbedByStartLoad(s, a, y.tasks[id].run);
    case StartMove(d, at) =>
      BeginMoveFrame(s, d, at);
      UndisturbedByStartMove(s, d, at, y.tasks[id].run);
    case StartRollback(at, snapshot) =>
      NewRollbackUndisturbed(s, at, snapshot);
      if id in y.tasks { UndisturbedByStartRollback(s, at, snapshot, y.tasks[id].run); }
    case Resume(id', answer) =>
      if id' == id {
        if y.tasks[id].RollbackTask? {
          var r := y.tasks[id].run;
          SameRun(s, r, answer);
          UndisturbedIgnores(s, s, r, Stretch(y, e).tasks[id].run);
        } else {
          TurnsIntoNoRollback(s, y.tasks[id], answer);
        }
      } else if id' in y.tasks {
        ResumeUndisturbed(s, y.tasks[id'], answer, y.tasks[id].run);
      }
  }

  lemma TurnsIntoNoRollback(s: Store, t: Task, answer: Answer)
    requires !t.RollbackTask?
    ensures var u := ResumeTask(s, t, answer).1; u.Some? ==> !u.value.RollbackTask?
  {
    hide ResumeLoad, CommitMove, MoveIsCurrent, CurrentTarget, WasPathDeleted;
  }

  lemma StaysUndisturbed(y: System, e: Event)
    requires Ordered(y) && AllUndisturbed(y) && Quiet(e)
    ensures AllUndisturbed(Next(y, e))
  {
    hide Stretch, Ordered, Undisturbed;
    var z := Next(y, e);
    forall id | id in z.tasks && z.tasks[id].RollbackTask? ensures Undisturbed(z.store, z.tasks[id].run) {
      StretchUndisturbed(y, e, id);
      UndisturbedIgnores(Stretch(y, e).store, z.store, z.tasks[id].run, z.tasks[id].run);
    }
  }

  lemma {:induction false} QuietRun(y: System, events: seq<Event>)
    requires Ordered(y) && AllUndisturbed(y)
    requires forall e :: e in events ==> Quiet(e)
    ensures AllUndisturbed(Run(y, events))
    decreases |events|
  {
    if events != [] {
      hide Next, Ordered, AllUndisturbed, Quiet;
      StaysOrdered(y, events[0]);
      StaysUndisturbed(y, events[0]);
      QuietRun(Next(y, events[0]), events[1..]);
    }
  }

  /** Main result: in any run of loads, undos, redos and rollbacks, every rollback that commits has exactly
      the effect of the sequential rollback on the context at that moment. */
  lemma QuietRollbackIsLinearizable(y: System, events: seq<Event>, id: nat, t: Target)
    requires Ordered(y) && AllUndisturbed(y)
    requires forall e :: e in events ==> Quiet(e)
    requires var z := Run(y, events);
             id in z.tasks && z.tasks[id].RollbackTask? && RollbackIsCurrent(z.store, z.tasks[id].run)
    ensures var z := Run(y, events); var r := z.tasks[id].run;
            CommitRollback(z.store, r, t) == Set(z.store, r.context, Rollback(z.store.contexts[r.context], t, z.store.nextRef))
  {
    hide Run, CommitRollback, Rollback;
    QuietRun(y, events);
    var z := Run(y, events);
    assert Undisturbed(z.store, z.tasks[id].run);
    RollbackCommitIsSequential(z.store, z.tasks[id].run, t);
  }
}
