/** Repairing a superseded file write: an undo, redo or rollback whose write lands after something newer took
over writes the current target again, and again while things keep changing, but at most three times. */
module RepairSafety {
  import opened Modifications
  import opened DiffContext
  import opened DiffProtocol
  import opened DiffSafety

  // ---------------------------------------------------------------- at most three writes

  /** The number of repair writes operation `id` starts in a run. */
  function WritesStarted(y: System, events: seq<Event>, id: nat): nat
    decreases |events|
  {
    if events == [] then 0
    else (if StartsWrite(y, events[0], id) then 1 else 0) + WritesStarted(Next(y, events[0]), events[1..], id)
  }

  predicate StartsWrite(y: System, e: Event, id: nat) {
    Writing(Next(y, e), id) && (Writing(y, id) ==> e.Resume? && e.id == id)
  }

  predicate Writing(y: System, id: nat) {
    id in y.tasks && y.tasks[id].RepairTask?
  }

  /** Writes the operation may still start. */
  function Budget(y: System, id: nat): int {
    if id !in y.tasks then (if id < y.nextTask then 0 else MAX_REPAIR_ATTEMPTS)
    else if y.tasks[id].RepairTask? then MAX_REPAIR_ATTEMPTS - 1 - y.tasks[id].repair.attempt
    else MAX_REPAIR_ATTEMPTS
  }

  /** What one resumption does to the attempt counter. */
  lemma AttemptCounts(s: Store, t: Task, answer: Answer)
    ensures var u := ResumeTask(s, t, answer).1;
            u.Some? && u.value.RepairTask? ==>
              u.value.repair.attempt == (if t.RepairTask? then t.repair.attempt + 1 else 0) && u.value.repair.attempt < MAX_REPAIR_ATTEMPTS
    ensures t.RepairTask? ==> var u := ResumeTask(s, t, answer).1; u.Some? ==> u.value.RepairTask?
  {
    hide ResumeLoad, CommitMove, CommitRollback, MoveIsCurrent, RollbackIsCurrent, CurrentTarget, WasPathDeleted, RepairHolds;
  }

  lemma BeginStartsNoRepair(s: Store, d: Direction, context: string, snapshot: string)
    ensures var t := BeginMove(s, d, context).1; t.Some? ==> t.value.MoveTask?
    ensures var t := BeginRollback(s, context, snapshot).1; t.Some? ==> t.value.RollbackTask?
  {
    hide CommitMove, ContextOf;
  }

  predicate Budgeted(y: System) {
    && (forall i :: i in y.tasks ==> i < y.nextTask)
    && (forall i :: i in y.tasks && y.tasks[i].RepairTask? ==> y.tasks[i].repair.attempt < MAX_REPAIR_ATTEMPTS)
  }

  lemma BudgetSpent(y: System, e: Event, id: nat)
    requires Budgeted(y)
    ensures Budget(Next(y, e), id) <= Budget(y, id) - if StartsWrite(y, e, id) then 1 else 0
  {
    hide BeginLoad, BeginMove, BeginRollback, ResumeTask, EditContext, DeletePath;
    match e
    case StartMove(d, context) => BeginStartsNoRepair(y.store, d, context, "");
    case StartRollback(context, snapshot) => BeginStartsNoRepair(y.store, Backward, context, snapshot);
    case Resume(id', answer) =>
      if id' in y.tasks {
        AttemptCounts(y.store, y.tasks[id'], answer);
      }
    case _ =>
  }

  lemma StaysBudgeted(y: System, e: Event)
    requires Budgeted(y)
    ensures Budgeted(Next(y, e))
  {
    hide BeginLoad, BeginMove, BeginRollback, ResumeTask, EditContext, DeletePath;
    match e
    case StartMove(d, context) => BeginStartsNoRepair(y.store, d, context, "");
    case StartRollback(context, snapshot) => BeginStartsNoRepair(y.store, Backward, context, snapshot);
    case Resume(id', answer) => if id' in y.tasks { AttemptCounts(y.store, y.tasks[id'], answer); }
    case _ =>
  }

  lemma {:induction false} WritesWithinBudget(y: System, events: seq<Event>, id: nat)
    requires Budgeted(y)
    ensures WritesStarted(y, events, id) <= Budget(y, id)
    decreases |events|
  {
    if events != [] {
      hide Next, StartsWrite;
      BudgetSpent(y, events[0], id);
      StaysBudgeted(y, events[0]);
      WritesWithinBudget(Next(y, events[0]), events[1..], id);
    }
  }

  /** Main result: whatever interferes, one operation writes its file at most three times to repair it. */
  lemma AtMostThreeWrites(y: System, events: seq<Event>, id: nat)
    requires Budgeted(y)
    ensures WritesStarted(y, events, id) <= 3
  {
    WritesWithinBudget(y, events, id);
  }

  // ---------------------------------------------------------------- what the last write wrote

  /** The repair is about to write what it just observed. */
  predicate JustStarted(s: Store, p: Repair) {
    NextRepair(s, p.context, Some(p.document), p.superseded, p.attempt) == Some(RepairTask(p))
  }

  /** Every repair write of the protocol starts that way. */
  lemma EveryWriteJustStarted(s: Store, t: Task, answer: Answer)
    ensures var (s', u) := ResumeTask(s, t, answer); u.Some? && u.value.RepairTask? ==> s' == s && JustStarted(s, u.value.repair)
  {
    hide ResumeLoad, CommitMove, CommitRollback, MoveIsCurrent, RollbackIsCurrent, CurrentTarget, WasPathDeleted, RepairHolds;
  }

  /** When a repair ends. */
  lemma RepairEndsWhen(s: Store, p: Repair, answer: Answer)
    ensures ResumeRepair(s, p, answer) == None <==>
            || answer.Failure?
            || RepairHolds(s, p)
            || p.attempt >= 2
            || WasPathDeleted(s.markers, p.context, p.document)
            || CurrentTarget(s, p.context, p.document, p.superseded, Lookup(s.loads, Key(p.context, p.document))) == None
  {
    hide CurrentTarget, WasPathDeleted, RepairHolds;
  }

  lemma {:induction false} GenerationsGrowAlong(y: System, events: seq<Event>)
    requires Ordered(y)
    ensures Ordered(Run(y, events)) && StoreGrows(y.store, Run(y, events).store)
    decreases |events|
  {
    if events != [] {
      hide Next, Ordered;
      GenerationsGrow(y, events[0]);
      StaysOrdered(y, events[0]);
      GenerationsGrowAlong(Next(y, events[0]), events[1..]);
    }
  }

  lemma {:induction false} RunSplits(y: System, events: seq<Event>, n: nat)
    requires n <= |events|
    ensures Run(y, events) == Run(Run(y, events[..n]), events[n..])
    decreases n
  {
    if n == 0 {
      assert events[..0] == [] && events[0..] == events;
    } else {
      hide Next;
      assert events[..n][0] == events[0] && events[..n][1..] == events[1..][..n - 1] && events[n..] == events[1..][n - 1..];
      RunSplits(Next(y, events[0]), events[1..], n - 1);
    }
  }

  /** No load, undo, redo or rollback of the file started, and no deletion hit it. */
  predicate Untouched(s: Store, t: Store, key: Key) {
    Lookup(t.loads, key) == Lookup(s.loads, key) && Lookup(t.mutations, key) == Lookup(s.mutations, key)
  }

  lemma SqueezedGenerations(s: Store, m: Store, t: Store, key: Key)
    requires StoreGrows(s, m) && StoreGrows(m, t) && Untouched(s, t, key)
    ensures Untouched(s, m, key)
  {
  }

  /** A repair stops after a successful write, before its third attempt, on a file that still has a target and
      whose path stands. */
  predicate StopsContent(s: Store, p: Repair, answer: Answer) {
    && !answer.Failure? && p.attempt + 1 < MAX_REPAIR_ATTEMPTS
    && !WasPathDeleted(s.markers, p.context, p.document)
    && CurrentTarget(s, p.context, p.document, p.superseded, Lookup(s.loads, Key(p.context, p.document))) != None
    && ResumeRepair(s, p, answer) == None
  }

  /** Main result: a repair that stops that way wrote the current target; and during the write, at every moment, no
      load, undo, redo or rollback of the file had started. */
  lemma LastWriteIsTheTarget(y: System, p: Repair, events: seq<Event>, answer: Answer, n: nat)
    requires Ordered(y) && JustStarted(y.store, p) && n <= |events|
    ensures var s, key := Run(y, events).store, Key(p.context, p.document);
            StopsContent(s, p, answer) ==>
              && CurrentTarget(s, p.context, p.document, p.superseded, Lookup(s.loads, key)) == Some(p.content)
              && Untouched(y.store, Run(y, events[..n]).store, key)
  {
    hide CurrentTarget, WasPathDeleted, Run, Ordered, StopsContent, Untouched, RepairHolds;
    var s, key := Run(y, events).store, Key(p.context, p.document);
    if StopsContent(s, p, answer) {
      StoppedHolds(s, p, answer);
      GenerationsGrowAlong(y, events[..n]);
      GenerationsGrowAlong(Run(y, events[..n]), events[n..]);
      RunSplits(y, events, n);
      StartedAndHolds(y.store, s, p);
      SqueezedGenerations(y.store, Run(y, events[..n]).store, s, key);
    }
  }

  lemma StoppedHolds(s: Store, p: Repair, answer: Answer)
    requires StopsContent(s, p, answer)
    ensures RepairHolds(s, p)
  {
    hide CurrentTarget, WasPathDeleted, RepairHolds;
    RepairEndsWhen(s, p, answer);
  }

  lemma StartedAndHolds(s: Store, t: Store, p: Repair)
    requires JustStarted(s, p) && RepairHolds(t, p)
    ensures Untouched(s, t, Key(p.context, p.document))
    ensures CurrentTarget(t, p.context, p.document, p.superseded, Lookup(t.loads, Key(p.context, p.document))) == Some(p.content)
  {
    hide CurrentTarget, WasPathDeleted;
  }

  /** The converse: a write that anything overtook, or whose target changed, is followed by another one
      as long as attempts are left. */
  lemma OvertakenWriteIsRepeated(s: Store, p: Repair, answer: Answer)
    requires !answer.Failure? && p.attempt + 1 < MAX_REPAIR_ATTEMPTS
    requires !WasPathDeleted(s.markers, p.context, p.document) && !RepairHolds(s, p)
    ensures var target := CurrentTarget(s, p.context, p.document, p.superseded, Lookup(s.loads, Key(p.context, p.document)));
            target.Some? ==>
              && ResumeRepair(s, p, answer).Some?
              && var q := ResumeRepair(s, p, answer).value.repair;
              && JustStarted(s, q) && q.content == target.value && q.attempt == p.attempt + 1
              && q.document == p.document && q.context == p.context && q.superseded == p.superseded
  {
    hide CurrentTarget, WasPathDeleted, RepairHolds;
  }
}
