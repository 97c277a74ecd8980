/** The loading flag of a context: exactly when it tells whether one of the context's loads is registered. */
module LoadingFlag {
  import opened Modifications
  import opened DiffContext
  import opened DiffProtocol
  import opened DiffSafety
  import Paths
  import RelativePaths

  /** A context shows as loading exactly while one of its loads is registered. */
  predicate FlagsRight(s: Store) {
    forall c :: c in s.contexts ==> (s.contexts[c].isLoading <==> LoadRegistered(s, c))
  }

  /** Every load registered is one that was counted, in a context that exists. */
  predicate Known(s: Store) {
    && (forall k :: k in s.loads ==> k.context in s.contexts)
    && (forall k :: k in s.active ==> k in s.loads)
  }

  lemma OtherMeansStillLoading(s: Store, key: Key, gen: nat)
    requires Lookup(s.active, key) == Some(gen)
    ensures LoadRegistered(Deregister(s, key, gen), key.context) <==> OtherLoadRegistered(s, key, gen)
    ensures forall c :: c != key.context ==> (LoadRegistered(Deregister(s, key, gen), c) <==> LoadRegistered(s, c))
  {
    var t := Deregister(s, key, gen);
    if LoadRegistered(t, key.context) {
      var k :| k in t.active && k.context == key.context;
      assert k in s.active && k != key;
    }
    if OtherLoadRegistered(s, key, gen) {
      var k :| k in s.active && k.context == key.context && !(k == key && s.active[k] == gen);
      assert k in t.active;
    }
    forall c | c != key.context ensures LoadRegistered(t, c) <==> LoadRegistered(s, c) {
      if LoadRegistered(s, c) {
        var k :| k in s.active && k.context == c;
        assert k in t.active;
      }
    }
  }

  lemma SameRegister(s: Store, t: Store)
    requires s.active == t.active
    ensures forall c :: LoadRegistered(s, c) <==> LoadRegistered(t, c)
  {
  }

  // ---------------------------------------------------------------- loads

  lemma StartLoadFlags(s: Store, a: LoadArgs)
    requires Known(s) && FlagsRight(s)
    ensures Known(BeginLoad(s, a).0) && FlagsRight(BeginLoad(s, a).0)
  {
    hide InitialContent;
    var t := BeginLoad(s, a).0;
    var key := Key(a.context, a.document);
    assert key in t.active;
    forall c | c in t.contexts ensures t.contexts[c].isLoading <==> LoadRegistered(t, c) {
      if c != a.context {
        if LoadRegistered(s, c) {
          var k :| k in s.active && k.context == c;
          assert k in t.active;
        }
        if LoadRegistered(t, c) {
          var k :| k in t.active && k.context == c;
          assert k in s.active;
        }
      }
    }
  }

  /** A load is resumed that is registered but no longer the latest of its file, and returns without another word. */
  predicate DropsOut(s: Store, l: Load) {
    && (l.at == Yielded || l.at == Working)
    && Lookup(s.active, LoadKey(l)) == Some(l.gen) && !IsLatestLoad(s, LoadKey(l), l.gen)
  }

  lemma DropsOutWhen(s: Store, l: Load, answer: Answer)
    ensures OutcomeOf(s, l, answer) == Dropped ==> ((l.at == Yielded || l.at == Working) && !IsLatestLoad(s, LoadKey(l), l.gen))
    ensures DropsOut(s, l) ==> OutcomeOf(s, l, answer) == Dropped
  {
    hide FailLoad, CommitLoad, CancelLoad, AfterDeletionCheck, WasPathDeleted;
  }

  /** Where one context changed, its flag decides. */
  lemma OneFlag(s: Store, t: Store, context: string)
    requires FlagsRight(s) && context in s.contexts && t.contexts.Keys == s.contexts.Keys
    requires forall c :: c in s.contexts && c != context ==>
               t.contexts[c] == s.contexts[c] && (LoadRegistered(t, c) <==> LoadRegistered(s, c))
    ensures FlagsRight(t) <==> (t.contexts[context].isLoading <==> LoadRegistered(t, context))
    ensures s.contexts[context].isLoading <==> LoadRegistered(s, context)
  {
    hide LoadRegistered;
  }

  /** Every way for a load to go on or to end leaves the flags right but one: dropping out as the last one registered. */
  lemma ResumeLoadFlags(s: Store, l: Load, answer: Answer)
    requires Known(s) && FlagsRight(s) && TaskBounded(s, LoadTask(l))
    ensures Known(ResumeLoad(s, l, answer).0)
    ensures FlagsRight(ResumeLoad(s, l, answer).0) <==> (DropsOut(s, l) ==> OtherLoadRegistered(s, LoadKey(l), l.gen))
  {
    hide ResumeLoad, CommitLoad, FailLoad, CancelLoad, LoadRegistered, OtherLoadRegistered, OutcomeOf, FlagsRight;
    var key, t := LoadKey(l), ResumeLoad(s, l, answer).0;
    LoadFrame(s, l, answer);
    LoadEffect(s, l, answer);
    CancelFrame(s, l);
    FailFrame(s, l);
    DropsOutWhen(s, l, answer);
    var out := Deregister(s, key, l.gen);
    if Lookup(s.active, key) == Some(l.gen) {
      RegisteredLoads(s, key);
      OtherMeansStillLoading(s, key, l.gen);
    }
    if t.active == s.active { SameRegister(s, t); }
    if t.active == out.active { SameRegister(out, t); }
    match OutcomeOf(s, l, answer) {
      case GoesOn =>
      case Dropped =>
      case GaveUp => CancelFlags(s, l);
      case Errored => FailFlags(s, l);
      case Committed => CommitFrame(s, l, answer);
    }
    OneFlag(s, t, key.context);
  }

  lemma RegisteredLoads(s: Store, key: Key)
    requires key in s.active
    ensures LoadRegistered(s, key.context)
  {
  }

  lemma CancelFlags(s: Store, l: Load)
    requires Known(s) && l.args.context in s.contexts
    ensures var t, c := CancelLoad(s, l), l.args.context;
            && t.contexts.Keys == s.contexts.Keys
            && (t.contexts[c].isLoading <==> LoadRegistered(Deregister(s, LoadKey(l), l.gen), c))
            && forall d :: d in s.contexts && d != c ==> t.contexts[d] == s.contexts[d]
  {
    hide LoadRegistered;
    SameRegister(Deregister(s, LoadKey(l), l.gen), CancelLoad(s, l));
  }

  lemma FailFlags(s: Store, l: Load)
    requires Known(s) && l.args.context in s.contexts && IsLatestLoad(s, LoadKey(l), l.gen)
    ensures var t, c := FailLoad(s, l), l.args.context;
            && t.contexts.Keys == s.contexts.Keys
            && (t.contexts[c].isLoading <==> OtherLoadRegistered(s, LoadKey(l), l.gen))
            && forall d :: d in s.contexts && d != c ==> t.contexts[d] == s.contexts[d]
  {
    hide OtherLoadRegistered;
  }

  // ---------------------------------------------------------------- what never looks at the flag

  /** The operations on a context's own fields keep its loading flag. */
  lemma EditKeepsFlag(c: Context, e: Edit, ref: nat)
    requires !e.AcceptAll?
    ensures Edited(c, e, ref).isLoading == c.isLoading
  {
  }

  /** A stretch that leaves the register and every flag it finds alone; contexts it adds are idle. */
  predicate KeepsFlags(s: Store, t: Store) {
    && t.loads == s.loads && t.active == s.active
    && (forall c :: c in s.contexts ==> c in t.contexts && t.contexts[c].isLoading == s.contexts[c].isLoading)
    && (forall c :: c in t.contexts && c !in s.contexts ==> !t.contexts[c].isLoading)
  }

  lemma ProjectKeepsFlag(c: Context, p: Projection)
    ensures Project(c, p).isLoading == c.isLoading && Sync(c).isLoading == c.isLoading
  {
  }

  lemma MovedKeepsFlag(c: Context, m: Move, ref: nat)
    requires StackOf(m.source, m.direction) != []
    ensures Moved(c, m, ref).isLoading == c.isLoading
  {
    hide Put;
  }

  lemma MoveKeepsFlags(s: Store, m: Move)
    ensures KeepsFlags(s, CommitMove(s, m))
  {
    hide GenerationsHold, Moved;
    if MoveIsCurrent(s, m) && StackOf(m.source, m.direction) != [] {
      MovedKeepsFlag(s.contexts[m.context], m, s.nextRef);
    }
  }

  lemma CommitRollbackKeepsFlags(s: Store, r: RollbackRun, t: Target)
    ensures KeepsFlags(s, CommitRollback(s, r, t))
  {
    hide GenerationsHold, Put, Extract, Push, TargetProjection, CurrentProjection;
  }

  lemma RollbackKeepsFlags(s: Store, r: RollbackRun, answer: Answer)
    ensures KeepsFlags(s, ResumeRollback(s, r, answer).0)
  {
    hide CommitRollback, RollbackIsCurrent, NextRepair;
    forall t ensures KeepsFlags(s, CommitRollback(s, r, t)) {
      CommitRollbackKeepsFlags(s, r, t);
    }
  }

  lemma StartMoveKeepsFlags(s: Store, d: Direction, context: string)
    ensures KeepsFlags(s, BeginMove(s, d, context).0)
  {
    hide CommitMove, ContextOf;
    var c := ContextOf(s, context);
    var key := KeyOf(context, c.documentId);
    var gen := Count(s.mutations, key) + 1;
    var started := s.(mutations := s.mutations[key := gen]);
    MoveKeepsFlags(started, Move(d, context, c, gen, Lookup(s.loads, key)));
  }

  lemma EditKeepsFlags(s: Store, context: string, edit: Edit)
    requires !edit.AcceptAll?
    ensures KeepsFlags(s, EditContext(s, context, edit))
  {
    hide Edited;
    EditKeepsFlag(ContextOf(s, context), edit, s.nextRef + REFS_PER_STEP);
  }

  lemma StartRollbackKeepsFlags(s: Store, context: string, snapshot: string)
    ensures KeepsFlags(s, BeginRollback(s, context, snapshot).0)
  {
    hide ContextOf;
  }

  lemma ResumeKeepsFlags(s: Store, t: Task, answer: Answer)
    requires !t.LoadTask?
    ensures KeepsFlags(s, ResumeTask(s, t, answer).0)
  {
    hide CommitMove, MoveIsCurrent, NextRepair, ResumeRepair, ResumeRollback;
    match t
    case MoveTask(m) => MoveKeepsFlags(s, m);
    case RollbackTask(r) => RollbackKeepsFlags(s, r, answer);
    case RepairTask(p) =>
  }

  lemma FlagsKept(s: Store, t: Store)
    requires Known(s) && FlagsRight(s) && KeepsFlags(s, t)
    ensures Known(t) && FlagsRight(t)
  {
    SameRegister(s, t);
    forall c | c in t.contexts ensures t.contexts[c].isLoading <==> LoadRegistered(t, c) {
      assert LoadRegistered(s, c) ==> c in s.contexts;
    }
  }

  // ---------------------------------------------------------------- accepting everything, deleting a path

  lemma AcceptAllStops(c: Context, ref: nat)
    ensures !DiffContext.AcceptAll(c, ref).isLoading
  {
    hide Put, AcceptEach;
  }

  /** Accepting everything clears the flag without looking at the register. */
  lemma AcceptAllFlags(s: Store, context: string)
    requires Known(s) && FlagsRight(s)
    ensures Known(EditContext(s, context, Edit.AcceptAll))
    ensures FlagsRight(EditContext(s, context, Edit.AcceptAll)) <==> !LoadRegistered(s, context)
  {
    hide LoadRegistered, DiffContext.AcceptAll, ContextOf;
    var t := EditContext(s, context, Edit.AcceptAll);
    AcceptAllStops(ContextOf(s, context), s.nextRef + REFS_PER_STEP);
    SameRegister(s, t);
    assert context in t.contexts && !t.contexts[context].isLoading;
  }

  /** A registered load of the context lies under the path. */
  predicate Hits(s: Store, context: string, path: string, isDirectory: bool) {
    exists k :: k in s.active && KeyDeleted(k, context, path, isDirectory)
  }

  /** A registered load of the context does not. */
  predicate Spares(s: Store, context: string, path: string, isDirectory: bool) {
    exists k :: k in s.active && k.context == context && !KeyDeleted(k, context, path, isDirectory)
  }

  lemma HitOrSpared(s: Store, context: string, path: string, isDirectory: bool)
    ensures LoadRegistered(s, context) <==> Hits(s, context, path, isDirectory) || Spares(s, context, path, isDirectory)
  {
    hide Paths.IsPathDeleted;
    if LoadRegistered(s, context) {
      var k :| k in s.active && k.context == context;
      assert KeyDeleted(k, context, path, isDirectory) || !KeyDeleted(k, context, path, isDirectory);
    }
  }

  lemma DeleteFromFlag(c: Context, path: string, isDirectory: bool, invalidated: bool, other: bool, ref: nat)
    ensures var d := DeleteFrom(c, path, isDirectory, invalidated, other, ref);
            if invalidated then d.isLoading == other else d.isLoading == c.isLoading || d.isLoading == other
  {
    hide Paths.IsPathDeleted, Put, Without, FirstPending, DeletedDocuments, DocumentDeleted;
  }

  lemma DeletePathSets(s: Store, context: string, path: string, isDirectory: bool)
    requires Known(s)
    ensures var t := DeletePath(s, context, path, isDirectory);
            && t.loads.Keys == s.loads.Keys && t.active == s.active && t.contexts.Keys == s.contexts.Keys
            && (forall c :: c in s.contexts && c != context ==> t.contexts[c] == s.contexts[c])
            && (context in s.contexts ==>
                  t.contexts[context] == DeleteFrom(s.contexts[context], path, isDirectory, Hits(s, context, path, isDirectory),
                                                    Spares(s, context, path, isDirectory), s.nextRef))
  {
    hide DeleteFrom, KeyDeleted, Mark, Paths.Normalize;
    HitsAreCounted(s, context, path, isDirectory);
    hide Hits, Known;
  }

  lemma HitsAreCounted(s: Store, context: string, path: string, isDirectory: bool)
    requires Known(s)
    ensures Hits(s, context, path, isDirectory) <==> exists k :: k in s.loads && k in s.active && KeyDeleted(k, context, path, isDirectory)
  {
    hide KeyDeleted;
  }

  /** A deletion sets the flag for the loads it spares, whereas those it hits stay registered until they drop out. */
  lemma DeleteFlags(s: Store, context: string, path: string, isDirectory: bool)
    requires Known(s) && FlagsRight(s)
    ensures Known(DeletePath(s, context, path, isDirectory))
    ensures FlagsRight(DeletePath(s, context, path, isDirectory)) <==>
            (Hits(s, context, path, isDirectory) ==> Spares(s, context, path, isDirectory))
  {
    hide DeletePath, LoadRegistered, Hits, Spares, DeleteFrom;
    var t := DeletePath(s, context, path, isDirectory);
    DeletePathSets(s, context, path, isDirectory);
    HitOrSpared(s, context, path, isDirectory);
    SameRegister(s, t);
    if context in s.contexts {
      DeleteFromFlag(s.contexts[context], path, isDirectory, Hits(s, context, path, isDirectory), Spares(s, context, path, isDirectory), s.nextRef);
    } else {
      UnknownIsIdle(s, context);
    }
  }

  lemma UnknownIsIdle(s: Store, context: string)
    requires Known(s) && context !in s.contexts
    ensures !LoadRegistered(s, context)
  {
  }

  // ---------------------------------------------------------------- every step, every run

  /** What a step must not do to the flag: accept everything while a load of the context is registered; delete the files
      of all loads registered in a context that has some; let a load drop out as the last one registered. */
  predicate FlagSafe(y: System, e: Event) {
    match e
    case EditEvent(context, edit) => edit.AcceptAll? ==> !LoadRegistered(y.store, context)
    case DeleteEvent(context, path, isDirectory) =>
      Hits(y.store, context, path, isDirectory) ==> Spares(y.store, context, path, isDirectory)
    case Resume(id, _) =>
      id in y.tasks && y.tasks[id].LoadTask? && DropsOut(y.store, y.tasks[id].load) ==>
        OtherLoadRegistered(y.store, LoadKey(y.tasks[id].load), y.tasks[id].load.gen)
    case _ => true
  }

  /** In an ordered system, once the flags are right a step keeps them right if and only if it is safe. */
  lemma FlagsStep(y: System, e: Event)
    requires Ordered(y) && Known(y.store) && FlagsRight(y.store)
    ensures Known(Next(y, e).store)
    ensures FlagsRight(Next(y, e).store) <==> FlagSafe(y, e)
  {
    hide BeginLoad, BeginMove, BeginRollback, ResumeLoad, EditContext, DeletePath, FlagsRight, Known, DropsOut, Hits, Spares;
    var s, t := y.store, Stretch(y, e).store;
    match e {
      case StartLoad(a) => StartLoadFlags(s, a);
      case StartMove(d, context) => StartMoveKeepsFlags(s, d, context); FlagsKept(s, t);
      case StartRollback(context, snapshot) => StartRollbackKeepsFlags(s, context, snapshot); FlagsKept(s, t);
      case Resume(id, answer) =>
        if id in y.tasks {
          if y.tasks[id].LoadTask? {
            ResumeLoadFlags(s, y.tasks[id].load, answer);
            assert t == ResumeLoad(s, y.tasks[id].load, answer).0;
          } else {
            ResumeKeepsFlags(s, y.tasks[id], answer);
            FlagsKept(s, t);
          }
        }
      case EditEvent(context, edit) =>
        if edit.AcceptAll? { AcceptAllFlags(s, context); } else { EditKeepsFlags(s, context, edit); FlagsKept(s, t); }
      case DeleteEvent(context, path, isDirectory) => DeleteFlags(s, context, path, isDirectory);
    }
    FlagsRenumber(t, s.nextRef + 2 * REFS_PER_STEP);
  }

  lemma FlagsRenumber(s: Store, ref: nat)
    ensures FlagsRight(Renumber(s, ref)) <==> FlagsRight(s)
    ensures Known(Renumber(s, ref)) <==> Known(s)
  {
    SameRegister(s, Renumber(s, ref));
  }

  predicate AlwaysRight(y: System, events: seq<Event>)
    decreases |events|
  {
    FlagsRight(y.store) && (events != [] ==> AlwaysRight(Next(y, events[0]), events[1..]))
  }

  predicate AllSafe(y: System, events: seq<Event>)
    decreases |events|
  {
    events != [] ==> FlagSafe(y, events[0]) && AllSafe(Next(y, events[0]), events[1..])
  }

  /** Main result: a context shows as loading exactly while one of its loads is registered, at every moment of a run, if
      and only if every step of the run is safe. */
  lemma {:induction false} FlagsRightExactly(y: System, events: seq<Event>)
    requires Ordered(y) && Known(y.store) && FlagsRight(y.store)
    ensures AlwaysRight(y, events) <==> AllSafe(y, events)
    decreases |events|
  {
    if events != [] {
      hide Next, Ordered, FlagsRight, Known, FlagSafe;
      StaysOrdered(y, events[0]);
      FlagsStep(y, events[0]);
      if FlagsRight(Next(y, events[0]).store) {
        FlagsRightExactly(Next(y, events[0]), events[1..]);
      }
    }
  }

  /** Accepting everything only where nothing loads, and deleting no file that loads. */
  predicate Gentle(y: System, e: Event) {
    && (e.EditEvent? && e.edit.AcceptAll? ==> !LoadRegistered(y.store, e.context))
    && (e.DeleteEvent? ==> !Hits(y.store, e.context, e.path, e.isDirectory))
  }

  predicate AllGentle(y: System, events: seq<Event>)
    decreases |events|
  {
    events != [] ==> Gentle(y, events[0]) && AllGentle(Next(y, events[0]), events[1..])
  }

  /** Every registered load is the latest of its file. */
  predicate RegisteredAreLatest(s: Store) {
    forall k :: k in s.active ==> Lookup(s.loads, k) == Some(s.active[k])
  }

  lemma GentleKeepsLatest(y: System, e: Event)
    requires Ordered(y) && RegisteredAreLatest(y.store) && Gentle(y, e)
    ensures RegisteredAreLatest(Next(y, e).store)
  {
    hide BeginLoad, BeginMove, BeginRollback, ResumeTask, DeletePath, EditContext, ContextOf, KeyOf, Ordered;
    match e {
      case StartLoad(a) => BeginLoadFrame(y.store, a);
      case StartMove(d, context) => BeginMoveFrame(y.store, d, context);
      case StartRollback(context, snapshot) => BeginRollbackFrame(y.store, context, snapshot);
      case Resume(id, answer) => if id in y.tasks { ResumeRegister(y.store, y.tasks[id], answer); }
      case EditEvent(context, edit) => EditFrame(y.store, context, edit);
      case DeleteEvent(context, path, isDirectory) => DeleteSparesOthers(y.store, context, path, isDirectory);
    }
  }

  lemma ResumeRegister(s: Store, t: Task, answer: Answer)
    ensures var s' := ResumeTask(s, t, answer).0;
            s'.loads == s.loads && forall k :: k in s'.active ==> k in s.active && s'.active[k] == s.active[k]
  {
    hide ResumeLoad, ResumeMove, ResumeRollback, ResumeRepair;
    if t.LoadTask? {
      LoadFrame(s, t.load, answer);
      assert ResumeTask(s, t, answer).0 == ResumeLoad(s, t.load, answer).0;
    } else {
      MutationFrame(s, t, answer);
    }
  }

  lemma DeleteSparesOthers(s: Store, context: string, path: string, isDirectory: bool)
    ensures var t := DeletePath(s, context, path, isDirectory);
            t.active == s.active && t.loads.Keys == s.loads.Keys
            && forall k :: k in s.loads && !KeyDeleted(k, context, path, isDirectory) ==> t.loads[k] == s.loads[k]
  {
    hide DeleteFrom, KeyDeleted, Mark, Paths.Normalize;
  }

  /** So the flags are right along every gentle run, whatever loads, fails, is superseded or given up. */
  lemma {:induction false} LoadingFlagIsRight(y: System, events: seq<Event>)
    requires Ordered(y) && Known(y.store) && FlagsRight(y.store) && RegisteredAreLatest(y.store)
    requires AllGentle(y, events)
    ensures AlwaysRight(y, events)
    decreases |events|
  {
    if events != [] {
      assert FlagSafe(y, events[0]) by { hide Ordered, FlagsRight, Known, Hits, Spares, Next; }
      hide Next, Ordered, FlagsRight, Known, Gentle, RegisteredAreLatest;
      StaysOrdered(y, events[0]);
      FlagsStep(y, events[0]);
      GentleKeepsLatest(y, events[0]);
      LoadingFlagIsRight(Next(y, events[0]), events[1..]);
    }
  }

  // ---------------------------------------------------------------- the steps that are not safe

  /** Accepting everything while the first file loads: nothing shows as loading although a load is running. */
  lemma FlagDropped(a: LoadArgs)
    ensures var z := Run(Initially(), [StartLoad(a), EditEvent(a.context, Edit.AcceptAll)]);
            a.context in z.store.contexts && !z.store.contexts[a.context].isLoading && LoadRegistered(z.store, a.context)
  {
    hide InitialContent, DiffContext.AcceptAll;
    var events := [StartLoad(a), EditEvent(a.context, Edit.AcceptAll)];
    var y := Next(Initially(), events[0]);
    assert events[1..] == [events[1]] && events[1..][1..] == [];
    assert Run(Initially(), events) == Run(y, events[1..]);
    assert Run(y, events[1..]) == Next(y, events[1]);
    AcceptAllStops(ContextOf(y.store, a.context), y.store.nextRef + REFS_PER_STEP);
    assert Key(a.context, a.document) in Next(y, events[1]).store.active;
  }

  function StuckEvents(a: LoadArgs, b: LoadArgs, path: string, isDirectory: bool, ready: Answer): seq<Event> {
    [StartLoad(a), StartLoad(b), Resume(1, Continue), DeleteEvent(a.context, path, isDirectory), Resume(1, ready), Resume(0, Continue)]
  }

  lemma TwoLoading(a: LoadArgs, b: LoadArgs)
    requires a.context == b.context && a.document != b.document && ':' !in b.document && !b.restoring
    ensures var z := Next(Next(Next(Initially(), StartLoad(a)), StartLoad(b)), Resume(1, Continue));
            var s, ka, kb := z.store, Key(a.context, a.document), Key(b.context, b.document);
            && z.tasks == map[0 := LoadTask(Load(a, 1, Yielded)), 1 := LoadTask(Load(b, 1, Working))]
            && s.loads == map[ka := 1, kb := 1] && s.active == map[ka := 1, kb := 1] && a.context in s.contexts
  {
    hide ResumeLoad, BeginLoad;
    var ka, kb := Key(a.context, a.document), Key(b.context, b.document);
    BeginLoadKnows(Initially().store, a);
    var y1 := Next(Initially(), StartLoad(a));
    assert y1.store.loads == map[ka := 1] && y1.store.active == map[ka := 1] && y1.tasks == map[0 := LoadTask(Load(a, 1, Yielded))];
    BeginLoadKnows(y1.store, b);
    var y2 := Next(y1, StartLoad(b));
    Previews(y2.store, Load(b, 1, Yielded));
  }

  lemma BeginLoadKnows(s: Store, a: LoadArgs)
    ensures var (t, l) := BeginLoad(s, a); var key := Key(a.context, a.document);
            && l == Load(a, Count(s.loads, key) + 1, Yielded) && t.loads == s.loads[key := l.gen] && t.active == s.active[key := l.gen]
            && t.markers == s.markers && t.contexts.Keys == s.contexts.Keys + {a.context}
  {
    hide ContextOf, InitialContent;
  }

  /** A load of a file that was never deleted and is not on disk goes on to its preview. */
  lemma Previews(s: Store, l: Load)
    requires l.at == Yielded && IsLatestLoad(s, LoadKey(l), l.gen) && s.markers == [] && ':' !in l.args.document
    ensures ResumeLoad(s, l, Continue) == (s, Some(l.(at := Working)))
  {
  }

  lemma OneInvalidated(s: Store, context: string, path: string, isDirectory: bool, ka: Key, kb: Key)
    requires s.loads == map[ka := 1, kb := 1] && s.active == map[ka := 1, kb := 1] && ka != kb
    requires ka.context == context && kb.context == context && context in s.contexts
    requires Paths.IsPathDeleted(ka.document, path, isDirectory) && !Paths.IsPathDeleted(kb.document, path, isDirectory)
    ensures var t := DeletePath(s, context, path, isDirectory);
            t.loads == map[ka := 2, kb := 1] && t.active == s.active && context in t.contexts
  {
    hide DeleteFrom, Mark, Paths.Normalize, Paths.IsPathDeleted;
  }

  /** The other load commits and sees the invalidated one still registered, which then drops out. */
  lemma LastTwoSteps(y: System, a: LoadArgs, b: LoadArgs, ready: Answer)
    requires a.context == b.context && a.document != b.document && ready.Ready? && a.context in y.store.contexts
    requires y.tasks == map[0 := LoadTask(Load(a, 1, Yielded)), 1 := LoadTask(Load(b, 1, Working))]
    requires var ka, kb := Key(a.context, a.document), Key(b.context, b.document);
             y.store.loads == map[ka := 2, kb := 1] && y.store.active == map[ka := 1, kb := 1]
    ensures var z := Next(Next(y, Resume(1, ready)), Resume(0, Continue));
            && z.tasks == map[] && z.store.active == map[]
            && a.context in z.store.contexts && z.store.contexts[a.context].isLoading
  {
    hide ResumeLoad, OtherLoadRegistered, CommitLoad, ContextOf;
    var ka, kb, l := Key(a.context, a.document), Key(b.context, b.document), Load(b, 1, Working);
    CommitFrame(y.store, l, ready);
    StillRegistered(y.store, ka, kb);
    ReadyCommits(y.store, l, ready);
    var y1 := Next(y, Resume(1, ready));
    assert y1.store.active == map[ka := 1] && y1.tasks == map[0 := LoadTask(Load(a, 1, Yielded))];
    OvertakenDrops(y1.store, Load(a, 1, Yielded));
  }

  lemma ReadyCommits(s: Store, l: Load, ready: Answer)
    requires ready.Ready? && l.at == Working && IsLatestLoad(s, LoadKey(l), l.gen)
    ensures ResumeLoad(s, l, ready) == (CommitLoad(s, l, ready), None)
  {
    hide CommitLoad;
  }

  lemma OvertakenDrops(s: Store, l: Load)
    requires l.at == Yielded && !IsLatestLoad(s, LoadKey(l), l.gen)
    ensures ResumeLoad(s, l, Continue) == (Deregister(s, LoadKey(l), l.gen), None)
  {
  }

  lemma StillRegistered(s: Store, ka: Key, kb: Key)
    requires ka in s.active && ka != kb && ka.context == kb.context
    ensures OtherLoadRegistered(s, kb, 1)
  {
  }

  /** Two files of a context load and one of them is deleted: the other commits while the deleted one is still registered,
      and in the end nothing is in flight although the context shows as loading. */
  lemma FlagStuck(a: LoadArgs, b: LoadArgs, path: string, isDirectory: bool, ready: Answer)
    requires a.context == b.context && a.document != b.document && ':' !in b.document && !b.restoring && ready.Ready?
    requires Paths.IsPathDeleted(a.document, path, isDirectory) && !Paths.IsPathDeleted(b.document, path, isDirectory)
    ensures var z := Run(Initially(), StuckEvents(a, b, path, isDirectory, ready));
            && z.tasks == map[] && z.store.active == map[]
            && a.context in z.store.contexts && z.store.contexts[a.context].isLoading
  {
    hide Next, Paths.IsPathDeleted;
    var events := StuckEvents(a, b, path, isDirectory, ready);
    var y1, y2 := Next(Initially(), events[0]), Next(Next(Initially(), events[0]), events[1]);
    var y3 := Next(y2, events[2]);
    TwoLoading(a, b);
    var y4 := Next(y3, events[3]);
    Deletes(y3, a.context, path, isDirectory, Key(a.context, a.document), Key(b.context, b.document));
    LastTwoSteps(y4, a, b, ready);
    SixSteps(Initially(), events);
  }

  /** Such a run. */
  lemma FlagStuckHere(ready: Answer)
    requires ready.Ready?
    ensures var a, b := LoadArgs("c", "A", "", "", None, false, None), LoadArgs("c", "B", "", "", None, false, None);
            var z := Run(Initially(), StuckEvents(a, b, "A", false, ready));
            z.tasks == map[] && z.store.active == map[] && "c" in z.store.contexts && z.store.contexts["c"].isLoading
  {
    hide Run, Paths.Normalize;
    var a, b := LoadArgs("c", "A", "", "", None, false, None), LoadArgs("c", "B", "", "", None, false, None);
    RelativePaths.NormalizeAgain(["A"]);
    RelativePaths.NormalizeAgain(["B"]);
    FlagStuck(a, b, "A", false, ready);
  }

  lemma Deletes(y: System, context: string, path: string, isDirectory: bool, ka: Key, kb: Key)
    requires y.store.loads == map[ka := 1, kb := 1] && y.store.active == map[ka := 1, kb := 1] && ka != kb
    requires ka.context == context && kb.context == context && context in y.store.contexts
    requires Paths.IsPathDeleted(ka.document, path, isDirectory) && !Paths.IsPathDeleted(kb.document, path, isDirectory)
    ensures var z := Next(y, DeleteEvent(context, path, isDirectory));
            z.tasks == y.tasks && z.store.loads == map[ka := 2, kb := 1] && z.store.active == y.store.active && context in z.store.contexts
  {
    hide DeletePath, Paths.IsPathDeleted;
    OneInvalidated(y.store, context, path, isDirectory, ka, kb);
  }

  lemma SixSteps(y: System, events: seq<Event>)
    requires |events| == 6
    ensures Run(y, events) == Next(Next(Next(Next(Next(Next(y, events[0]), events[1]), events[2]), events[3]), events[4]), events[5])
  {
    hide Next;
    var y1 := Next(y, events[0]);
    var y2 := Next(y1, events[1]);
    var y3 := Next(y2, events[2]);
    var y4 := Next(y3, events[3]);
    var y5 := Next(y4, events[4]);
    assert Run(y5, events[5..]) == Next(y5, events[5]);
    assert Run(y4, events[4..]) == Run(y5, events[5..]);
    assert Run(y3, events[3..]) == Run(y4, events[4..]);
    assert Run(y2, events[2..]) == Run(y3, events[3..]);
    assert Run(y1, events[1..]) == Run(y2, events[2..]);
  }
}
