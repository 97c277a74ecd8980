/** Safety of the diff store over every run: generations, the loading flag, and deleted paths. */
module DiffSafety {
  import opened Modifications
  import opened DiffContext
  import opened DiffProtocol
  import Paths

  // ---------------------------------------------------------------- what one stretch touches

  /** The register after an operation left it, and nothing else but contexts and targets changed. */
  predicate Left(s: Store, t: Store, key: Key, gen: nat) {
    && t.loads == s.loads && t.mutations == s.mutations && t.markers == s.markers
    && t.active == Deregister(s, key, gen).active
  }

  lemma CommitFrame(s: Store, l: Load, ready: Answer)
    requires ready.Ready?
    ensures Left(s, CommitLoad(s, l, ready), LoadKey(l), l.gen)
    ensures var t, c := CommitLoad(s, l, ready), l.args.context;
            && c in t.contexts && t.contexts == s.contexts[c := t.contexts[c]]
            && t.contexts[c].isLoading == OtherLoadRegistered(s, LoadKey(l), l.gen)
  {
    hide OtherLoadRegistered, Put, Without, Sync, ContextOf, InitialContent;
  }

  lemma FailFrame(s: Store, l: Load)
    ensures Left(s, FailLoad(s, l), LoadKey(l), l.gen)
    ensures !IsLatestLoad(s, LoadKey(l), l.gen) ==> FailLoad(s, l).contexts == s.contexts
  {
    hide OtherLoadRegistered, ContextOf;
  }

  lemma CancelFrame(s: Store, l: Load)
    ensures Left(s, CancelLoad(s, l), LoadKey(l), l.gen)
  {
    hide LoadRegistered;
  }

  /** Resuming a load changes no generation, and leaves the register alone until the load is over. */
  lemma LoadFrame(s: Store, l: Load, answer: Answer)
    ensures var (t, r) := ResumeLoad(s, l, answer);
            && t.loads == s.loads && t.mutations == s.mutations && t.markers == s.markers
            && (r.Some? ==> LoadKey(r.value) == LoadKey(l) && r.value.gen == l.gen && t.active == s.active)
            && (r.None? ==> t.active == Deregister(s, LoadKey(l), l.gen).active)
  {
    hide CommitLoad, FailLoad, CancelLoad, WasPathDeleted, IsLatestLoad;
    FailFrame(s, l);
    CancelFrame(s, l);
    if answer.Ready? { CommitFrame(s, l, answer); }
  }

  /** How a stretch of a load ends: it goes on, it is dropped, it gives up on a deleted path, or, as the
      latest load of its file, it reports an error or commits the file. */
  datatype Outcome = GoesOn | Dropped | GaveUp | Errored | Committed

  function OutcomeOf(s: Store, l: Load, answer: Answer): Outcome {
    var key := LoadKey(l);
    if ResumeLoad(s, l, answer).1.Some? then GoesOn
    else if l.at == ReadingDeleted || (l.at == Yielded && IsLatestLoad(s, key, l.gen)) then GaveUp
    else if !IsLatestLoad(s, key, l.gen) then Dropped
    else if answer.Ready? then Committed
    else Errored
  }

  lemma LoadEffect(s: Store, l: Load, answer: Answer)
    ensures var t, context := ResumeLoad(s, l, answer).0, l.args.context;
            match OutcomeOf(s, l, answer)
            case GoesOn => t.contexts == s.contexts && t.active == s.active
            case Dropped => t.contexts == s.contexts && !IsLatestLoad(s, LoadKey(l), l.gen) && t.active == Deregister(s, LoadKey(l), l.gen).active
            case GaveUp => t == CancelLoad(s, l)
            case Errored => t == FailLoad(s, l) && IsLatestLoad(s, LoadKey(l), l.gen)
            case Committed => answer.Ready? && t == CommitLoad(s, l, answer) && IsLatestLoad(s, LoadKey(l), l.gen)
  {
    hide CancelLoad, FailLoad, CommitLoad, WasPathDeleted, AfterDeletionCheck;
    FailFrame(s, l);
  }

  predicate OnlyContexts(s: Store, t: Store) {
    && t.loads == s.loads && t.active == s.active && t.targets == s.targets
    && t.mutations == s.mutations && t.markers == s.markers
  }

  /** The file and generation an undo, redo or rollback runs under. */
  function MutationOf(t: Task): Option<(Key, nat, Option<nat>)> {
    match t
    case MoveTask(m) => Some((MoveKey(m), m.gen, m.loadGen))
    case RollbackTask(r) => Some((RollbackKey(r), r.gen, r.loadGen))
    case _ => None
  }

  lemma MutationFrame(s: Store, t: Task, answer: Answer)
    requires !t.LoadTask?
    ensures var (s', t') := ResumeTask(s, t, answer);
            OnlyContexts(s, s') && (t'.Some? ==> !t'.value.LoadTask? && (MutationOf(t'.value) == MutationOf(t) || MutationOf(t'.value) == None))
  {
    hide Moved, MoveIsCurrent, ResumeRollback, CurrentTarget, WasPathDeleted;
    match t
    case MoveTask(m) =>
    case RollbackTask(r) => RollbackFrame(s, r, answer);
    case RepairTask(p) =>
  }

  /** What resuming a rollback may do besides ending it: go on as the same run or turn to the repair. */
  predicate RollbackGoesOn(s: Store, r: RollbackRun, s': Store, t': Option<Task>) {
    && OnlyContexts(s, s')
    && (t'.Some? ==> !t'.value.LoadTask? && (MutationOf(t'.value) == MutationOf(RollbackTask(r)) || MutationOf(t'.value) == None))
  }

  lemma WriteOrCommitFrame(s: Store, r: RollbackRun, t: Target)
    ensures RollbackGoesOn(s, r, WriteOrCommit(s, r, t).0, WriteOrCommit(s, r, t).1)
    ensures RollbackGoesOn(s, r, CommitRollback(s, r, t), None)
  {
    hide RollbackFrom, RollbackIsCurrent;
  }

  lemma ProjectOntoFrame(s: Store, r: RollbackRun, content: string, base: string, xml: string)
    ensures RollbackGoesOn(s, r, ProjectOnto(s, r, content, base, xml).0, ProjectOnto(s, r, content, base, xml).1)
  {
    hide WriteOrCommit;
    WriteOrCommitFrame(s, r, Target(r.snapshot, content, base, xml, Arr(s.nextRef + 2, [])));
  }

  lemma RollbackFrame(s: Store, r: RollbackRun, answer: Answer)
    ensures RollbackGoesOn(s, r, ResumeRollback(s, r, answer).0, ResumeRollback(s, r, answer).1)
  {
    hide WriteOrCommit, ProjectOnto, CommitRollback, RollbackIsCurrent, CurrentTarget, WasPathDeleted;
    match r.at
    case Fetching =>
    case Searching(content) => if answer.Projected? { ProjectOntoFrame(s, r, content, answer.base, answer.xml); }
    case Generating(content) => if answer.Projected? { ProjectOntoFrame(s, r, content, answer.base, answer.xml); }
    case Previewing(content, base, xml) =>
      if answer.Previewed? { WriteOrCommitFrame(s, r, Target(r.snapshot, content, base, xml, Arr(s.nextRef + 2, answer.mods))); }
    case Writing(t) => WriteOrCommitFrame(s, r, t);
  }

  // ---------------------------------------------------------------- generations

  predicate Grows(m: map<Key, nat>, n: map<Key, nat>) {
    forall k :: k in m ==> k in n && m[k] <= n[k]
  }

  predicate StoreGrows(s: Store, t: Store) {
    Grows(s.loads, t.loads) && Grows(s.mutations, t.mutations)
  }

  lemma DeleteFrame(s: Store, context: string, path: string, isDirectory: bool)
    ensures var t := DeletePath(s, context, path, isDirectory);
            StoreGrows(s, t) && t.active == s.active && t.mutations == s.mutations
            && (forall k :: k in s.loads && KeyDeleted(k, context, path, isDirectory) ==> s.loads[k] < t.loads[k])
  {
    hide DeleteFrom, KeyDeleted, Mark, Paths.Normalize;
  }

  lemma ResumeGrows(s: Store, t: Task, answer: Answer)
    ensures StoreGrows(s, ResumeTask(s, t, answer).0)
  {
    hide ResumeLoad, ResumeMove, ResumeRollback, ResumeRepair;
    if t.LoadTask? {
      LoadFrame(s, t.load, answer);
      assert ResumeTask(s, t, answer).0 == ResumeLoad(s, t.load, answer).0;
    } else {
      MutationFrame(s, t, answer);
    }
  }

  lemma BeginMoveFrame(s: Store, d: Direction, context: string)
    ensures var (t, task) := BeginMove(s, d, context);
            var key := KeyOf(context, ContextOf(s, context).documentId);
            && t.loads == s.loads && t.active == s.active
            && (t.mutations == s.mutations || t.mutations == s.mutations[key := Count(s.mutations, key) + 1])
            && (task.Some? ==>
                  && task.value.MoveTask? && t.mutations == s.mutations[key := Count(s.mutations, key) + 1]
                  && MutationOf(task.value) == Some((key, t.mutations[key], Lookup(t.loads, key))))
  {
    hide Moved, MoveIsCurrent, ContextOf;
  }

  lemma BeginRollbackFrame(s: Store, context: string, snapshot: string)
    ensures var (t, task) := BeginRollback(s, context, snapshot);
            var key := KeyOf(context, ContextOf(s, context).documentId);
            && t.loads == s.loads && t.active == s.active
            && (t.mutations == s.mutations || t.mutations == s.mutations[key := Count(s.mutations, key) + 1])
            && (task.Some? ==>
                  && task.value.RollbackTask? && t.mutations == s.mutations[key := Count(s.mutations, key) + 1]
                  && MutationOf(task.value) == Some((key, t.mutations[key], Lookup(t.loads, key))))
  {
    hide ContextOf;
  }

  /** No generation of any file ever goes back. */
  lemma GenerationsGrow(y: System, e: Event)
    ensures StoreGrows(y.store, Next(y, e).store)
  {
    hide BeginLoad, BeginMove, BeginRollback, ResumeTask, DeletePath, EditContext, ContextOf, KeyOf;
    match e {
      case StartLoad(a) => BeginLoadFrame(y.store, a);
      case StartMove(d, context) => BeginMoveFrame(y.store, d, context);
      case StartRollback(context, snapshot) => BeginRollbackFrame(y.store, context, snapshot);
      case Resume(id, answer) => if id in y.tasks { ResumeGrows(y.store, y.tasks[id], answer); }
      case EditEvent(context, edit) => EditFrame(y.store, context, edit);
      case DeleteEvent(context, path, isDirectory) => DeleteFrame(y.store, context, path, isDirectory);
    }
  }

  lemma BeginLoadFrame(s: Store, a: LoadArgs)
    ensures var (t, l) := BeginLoad(s, a);
            var key := Key(a.context, a.document);
            && l == Load(a, Count(s.loads, key) + 1, Yielded)
            && t.loads == s.loads[key := l.gen] && t.active == s.active[key := l.gen] && t.mutations == s.mutations
  {
    hide ContextOf, InitialContent;
  }

  lemma EditFrame(s: Store, context: string, edit: Edit)
    ensures OnlyContexts(s, EditContext(s, context, edit))
  {
    hide Edited, ContextOf;
  }

  predicate TaskBounded(s: Store, t: Task) {
    match t
    case LoadTask(l) =>
      var key := LoadKey(l);
      && key in s.loads && l.gen <= s.loads[key]
      && (l.gen == s.loads[key] ==> Lookup(s.active, key) == Some(l.gen))
    case _ =>
      var m := MutationOf(t);
      m.Some? ==>
        && m.value.0 in s.mutations && m.value.1 <= s.mutations[m.value.0]
        && (m.value.2.Some? ==> m.value.0 in s.loads && m.value.2.value <= s.loads[m.value.0])
  }

  /** Two operations of the same kind on one file carry different generations. */
  predicate Apart(t: Task, u: Task) {
    && (t.LoadTask? && u.LoadTask? && LoadKey(t.load) == LoadKey(u.load) ==> t.load.gen != u.load.gen)
    && (MutationOf(t).Some? && MutationOf(u).Some? && MutationOf(t).value.0 == MutationOf(u).value.0 ==>
          MutationOf(t).value.1 != MutationOf(u).value.1)
  }

  predicate Running(tasks: map<nat, Task>, key: Key, gen: nat) {
    exists id :: id in tasks && tasks[id].LoadTask? && LoadKey(tasks[id].load) == key && tasks[id].load.gen == gen
  }

  /** The latest load of a file is the registered one, every registered load is still running, and no two
      operations share a generation. */
  predicate Ordered(y: System) {
    && (forall id :: id in y.tasks ==> id < y.nextTask && TaskBounded(y.store, y.tasks[id]))
    && (forall i, j :: i in y.tasks && j in y.tasks && i != j ==> Apart(y.tasks[i], y.tasks[j]))
    && (forall k :: k in y.store.active ==> Running(y.tasks, k, y.store.active[k]))
  }

  lemma BoundedAfterBeginLoad(s: Store, a: LoadArgs, task: Task)
    requires TaskBounded(s, task)
    ensures var (t, l) := BeginLoad(s, a); TaskBounded(t, task) && TaskBounded(t, LoadTask(l)) && Apart(task, LoadTask(l))
  {
    hide BeginLoad;
    BeginLoadFrame(s, a);
  }

  lemma OrderedStartLoad(y: System, a: LoadArgs)
    requires Ordered(y)
    ensures var (s, l) := BeginLoad(y.store, a); Ordered(Spawn(y, s, Some(LoadTask(l))))
  {
    hide BeginLoad, TaskBounded, Apart, Running;
    var (s, l) := BeginLoad(y.store, a);
    BeginLoadFrame(y.store, a);
    var z := Spawn(y, s, Some(LoadTask(l)));
    forall id | id in z.tasks ensures id < z.nextTask && TaskBounded(s, z.tasks[id]) {
      if id != y.nextTask { BoundedAfterBeginLoad(y.store, a, z.tasks[id]); } else { NewLoadBounded(y.store, a); }
    }
    forall i, j | i in z.tasks && j in z.tasks && i != j ensures Apart(z.tasks[i], z.tasks[j]) {
      if j == y.nextTask { BoundedAfterBeginLoad(y.store, a, z.tasks[i]); }
      if i == y.nextTask { BoundedAfterBeginLoad(y.store, a, z.tasks[j]); ApartSymmetric(z.tasks[j], z.tasks[i]); }
    }
    forall k | k in s.active ensures Running(z.tasks, k, s.active[k]) {
      if k == LoadKey(l) { RunningHere(z.tasks, y.nextTask); } else { RunningStill(y.tasks, z.tasks, k, s.active[k]); }
    }
  }

  lemma NewLoadBounded(s: Store, a: LoadArgs)
    ensures var (t, l) := BeginLoad(s, a); TaskBounded(t, LoadTask(l))
  {
    hide BeginLoad;
    BeginLoadFrame(s, a);
  }

  lemma ApartSymmetric(t: Task, u: Task)
    requires Apart(t, u)
    ensures Apart(u, t)
  {
  }

  lemma RunningHere(tasks: map<nat, Task>, id: nat)
    requires id in tasks && tasks[id].LoadTask?
    ensures Running(tasks, LoadKey(tasks[id].load), tasks[id].load.gen)
  {
  }

  lemma RunningStill(before: map<nat, Task>, after: map<nat, Task>, key: Key, gen: nat)
    requires Running(before, key, gen)
    requires forall id :: id in before ==> id in after && after[id] == before[id]
    ensures Running(after, key, gen)
  {
    var id :| id in before && before[id].LoadTask? && LoadKey(before[id].load) == key && before[id].load.gen == gen;
    RunningHere(after, id);
  }

  lemma OrderedSpawn(y: System, s: Store, t: Option<Task>, key: Key)
    requires Ordered(y)
    requires s.loads == y.store.loads && s.active == y.store.active
    requires s.mutations == y.store.mutations || s.mutations == y.store.mutations[key := Count(y.store.mutations, key) + 1]
    requires t.Some? ==>
               && (t.value.MoveTask? || t.value.RollbackTask?) && key in s.mutations
               && s.mutations[key] > Count(y.store.mutations, key)
               && MutationOf(t.value).Some? && MutationOf(t.value).value == (key, s.mutations[key], Lookup(s.loads, key))
    ensures Ordered(Spawn(y, s, t))
  {
    hide TaskBounded, Apart, Running, MutationOf;
    var z := Spawn(y, s, t);
    forall id | id in z.tasks ensures id < z.nextTask && TaskBounded(s, z.tasks[id]) {
      if id in y.tasks { BoundedAfterMutation(y.store, s, y.tasks[id], key); } else { NewMutationBounded(s, t.value, key); }
    }
    forall i, j | i in z.tasks && j in z.tasks && i != j ensures Apart(z.tasks[i], z.tasks[j]) {
      if j == y.nextTask && t.Some? { ApartFromNew(y.store, s, z.tasks[i], t.value, key); }
      if i == y.nextTask && t.Some? { ApartFromNew(y.store, s, z.tasks[j], t.value, key); ApartSymmetric(z.tasks[j], z.tasks[i]); }
    }
    forall k | k in z.store.active ensures Running(z.tasks, k, z.store.active[k]) {
      RunningStill(y.tasks, z.tasks, k, z.store.active[k]);
    }
  }

  lemma BoundedAfterMutation(s: Store, t: Store, task: Task, key: Key)
    requires TaskBounded(s, task) && t.loads == s.loads && t.active == s.active
    requires t.mutations == s.mutations || t.mutations == s.mutations[key := Count(s.mutations, key) + 1]
    ensures TaskBounded(t, task)
  {
  }

  lemma NewMutationBounded(s: Store, task: Task, key: Key)
    requires key in s.mutations && MutationOf(task) == Some((key, s.mutations[key], Lookup(s.loads, key)))
    ensures TaskBounded(s, task)
  {
  }

  /** A new undo, redo or rollback has a generation above all others of its file. */
  lemma ApartFromNew(s: Store, t: Store, other: Task, task: Task, key: Key)
    requires TaskBounded(s, other) && key in t.mutations && t.mutations[key] > Count(s.mutations, key)
    requires MutationOf(task) == Some((key, t.mutations[key], Lookup(t.loads, key)))
    ensures Apart(other, task)
  {
  }

  lemma OrderedResume(y: System, id: nat, answer: Answer)
    requires Ordered(y) && id in y.tasks
    ensures var (s, t) := ResumeTask(y.store, y.tasks[id], answer);
            Ordered(System(s, if t.Some? then y.tasks[id := t.value] else y.tasks - {id}, y.nextTask))
  {
    hide ResumeLoad, ResumeMove, ResumeRollback, ResumeRepair, Ordered;
    var task := y.tasks[id];
    var (s, t) := ResumeTask(y.store, task, answer);
    if task.LoadTask? {
      LoadFrame(y.store, task.load, answer);
      var (s', l') := ResumeLoad(y.store, task.load, answer);
      assert s == s' && t == if l'.Some? then Some(LoadTask(l'.value)) else None;
    } else {
      MutationFrame(y.store, task, answer);
    }
    OrderedAfter(y, id, s, t);
  }

  /** A task went on or ended; a load that ended left the register. */
  lemma OrderedAfter(y: System, id: nat, s: Store, t: Option<Task>)
    requires Ordered(y) && id in y.tasks
    requires LeavesRegister(y.store, s, y.tasks[id], t) && (t.Some? ==> GoesOnAs(y.tasks[id], t.value))
    ensures Ordered(System(s, if t.Some? then y.tasks[id := t.value] else y.tasks - {id}, y.nextTask))
  {
    hide TaskBounded, Apart, Running, MutationOf, LoadKey, Deregister;
    var z := System(s, if t.Some? then y.tasks[id := t.value] else y.tasks - {id}, y.nextTask);
    var u := y.tasks[id];
    forall k | k in z.store.active ensures Running(z.tasks, k, z.store.active[k]) {
      RegisteredStays(y.store, s, u, t, k);
      RunningAfter(y.tasks, z.tasks, id, k, y.store.active[k]);
    }
    forall w | w in z.tasks ensures w < z.nextTask && TaskBounded(z.store, z.tasks[w]) {
      if w == id { BoundedGoesOn(y.store, s, u, t.value); } else { BoundedBeside(y.store, s, u, t, y.tasks[w]); }
    }
    forall i, j | i in z.tasks && j in z.tasks && i != j ensures Apart(z.tasks[i], z.tasks[j]) {
      if i == id { ApartGoesOn(u, t.value, y.tasks[j]); }
      if j == id { ApartGoesOn(u, t.value, y.tasks[i]); ApartSymmetric(t.value, y.tasks[i]); }
    }
  }

  /** What going on keeps of a task. */
  predicate GoesOnAs(u: Task, t: Task) {
    if u.LoadTask? then t.LoadTask? && LoadKey(t.load) == LoadKey(u.load) && t.load.gen == u.load.gen
    else !t.LoadTask? && (MutationOf(t) == MutationOf(u) || MutationOf(t) == None)
  }

  /** What resuming a task does to the register: a load that ends leaves it, nothing else touches it. */
  predicate LeavesRegister(s: Store, t: Store, u: Task, v: Option<Task>) {
    && t.loads == s.loads && t.mutations == s.mutations
    && t.active == if u.LoadTask? && v.None? then Deregister(s, LoadKey(u.load), u.load.gen).active else s.active
  }

  lemma RegisteredStays(s: Store, t: Store, u: Task, v: Option<Task>, k: Key)
    requires LeavesRegister(s, t, u, v) && k in t.active
    ensures k in s.active && t.active[k] == s.active[k]
    ensures u.LoadTask? && v.None? ==> LoadKey(u.load) != k || u.load.gen != s.active[k]
  {
  }

  lemma RunningAfter(before: map<nat, Task>, after: map<nat, Task>, id: nat, key: Key, gen: nat)
    requires id in before && Running(before, key, gen)
    requires forall w :: w in before && w != id ==> w in after && after[w] == before[w]
    requires if id in after then GoesOnAs(before[id], after[id])
             else before[id].LoadTask? ==> LoadKey(before[id].load) != key || before[id].load.gen != gen
    ensures Running(after, key, gen)
  {
    var w :| w in before && before[w].LoadTask? && LoadKey(before[w].load) == key && before[w].load.gen == gen;
    RunningHere(after, w);
  }

  lemma BoundedGoesOn(s: Store, t: Store, u: Task, v: Task)
    requires TaskBounded(s, u) && GoesOnAs(u, v) && LeavesRegister(s, t, u, Some(v))
    ensures TaskBounded(t, v)
  {
  }

  lemma BoundedBeside(s: Store, t: Store, u: Task, v: Option<Task>, task: Task)
    requires TaskBounded(s, task) && Apart(u, task) && LeavesRegister(s, t, u, v)
    ensures TaskBounded(t, task)
  {
  }

  lemma ApartGoesOn(u: Task, v: Task, task: Task)
    requires Apart(u, task) && GoesOnAs(u, v)
    ensures Apart(v, task)
  {
  }

  lemma OrderedDelete(y: System, context: string, path: string, isDirectory: bool)
    requires Ordered(y)
    ensures Ordered(y.(store := DeletePath(y.store, context, path, isDirectory)))
  {
    hide DeletePath, Apart, Running;
    var s, t := y.store, DeletePath(y.store, context, path, isDirectory);
    DeleteFrame(s, context, path, isDirectory);
    forall id | id in y.tasks ensures TaskBounded(t, y.tasks[id]) {
      BoundedWhenBumped(s, t, y.tasks[id]);
    }
  }

  /** Raising the generation of a file takes "latest" away from its loads and gives it to none. */
  lemma BoundedWhenBumped(s: Store, t: Store, task: Task)
    requires TaskBounded(s, task)
    requires Grows(s.loads, t.loads) && t.active == s.active && t.mutations == s.mutations
    ensures TaskBounded(t, task)
  {
  }

  lemma OrderedSameStore(y: System, s: Store)
    requires Ordered(y)
    requires s.loads == y.store.loads && s.active == y.store.active && s.mutations == y.store.mutations
    ensures Ordered(y.(store := s))
  {
  }

  /** Every step keeps the order of generations. */
  lemma StaysOrdered(y: System, e: Event)
    requires Ordered(y)
    ensures Ordered(Next(y, e))
  {
    hide Ordered, BeginLoad, BeginMove, BeginRollback, ResumeTask, DeletePath, EditContext, ContextOf, KeyOf;
    match e {
      case StartLoad(a) => OrderedStartLoad(y, a);
      case StartMove(d, context) =>
        var (s, t) := BeginMove(y.store, d, context);
        BeginMoveFrame(y.store, d, context);
        OrderedSpawn(y, s, t, KeyOf(context, ContextOf(y.store, context).documentId));
      case StartRollback(context, snapshot) =>
        var (s, t) := BeginRollback(y.store, context, snapshot);
        BeginRollbackFrame(y.store, context, snapshot);
        OrderedSpawn(y, s, t, KeyOf(context, ContextOf(y.store, context).documentId));
      case Resume(id, answer) => if id in y.tasks { OrderedResume(y, id, answer); }
      case EditEvent(context, edit) =>
        EditFrame(y.store, context, edit);
        OrderedSameStore(y, EditContext(y.store, context, edit));
      case DeleteEvent(context, path, isDirectory) => OrderedDelete(y, context, path, isDirectory);
    }
    var z := Stretch(y, e);
    OrderedSameStore(z, Renumber(z.store, y.store.nextRef + 2 * REFS_PER_STEP));
  }

  lemma {:induction false} RunStaysOrdered(y: System, events: seq<Event>)
    requires Ordered(y)
    ensures Ordered(Run(y, events))
    decreases |events|
  {
    if events != [] {
      StaysOrdered(y, events[0]);
      RunStaysOrdered(Next(y, events[0]), events[1..]);
    }
  }

  /** Last load wins: a load that may commit is newer than every other load of its file still running,
      and it is the one registered. */
  lemma LatestLoadWins(y: System, id: nat, other: nat)
    requires Ordered(y) && id in y.tasks && other in y.tasks && id != other
    requires y.tasks[id].LoadTask? && y.tasks[other].LoadTask? && LoadKey(y.tasks[id].load) == LoadKey(y.tasks[other].load)
    requires IsLatestLoad(y.store, LoadKey(y.tasks[id].load), y.tasks[id].load.gen)
    ensures y.tasks[other].load.gen < y.tasks[id].load.gen
    ensures Lookup(y.store.active, LoadKey(y.tasks[id].load)) == Some(y.tasks[id].load.gen)
  {
    assert Apart(y.tasks[id], y.tasks[other]);
    assert TaskBounded(y.store, y.tasks[id]) && TaskBounded(y.store, y.tasks[other]);
  }
}
