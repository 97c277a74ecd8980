/** The diff store itself: the registers and contexts every operation updates in place. Each method is one
stretch of an operation between two suspension points, and is proved to be the step of the protocol it is named
after. `DiffRuntime` puts the suspended operations beside it: an event is a step of the protocol, and a sequence of
events a run. */
module DiffStores {
  import opened Modifications
  import opened DiffContext
  import opened DiffProtocol
  import MyersRebuild
  import Paths

  // ---------------------------------------------------------------- loops over lists

  lemma {:induction false} UnmarkPrefix(markers: seq<Marker>, m: Marker, i: nat)
    requires i <= |markers| && m !in markers[..i]
    ensures Unmark(markers, m) == markers[..i] + Unmark(markers[i..], m)
    decreases i
  {
    if i == 0 {
      assert markers[0..] == markers;
    } else {
      assert m !in markers[1..][..i - 1] by { assert markers[1..][..i - 1] == markers[1..i]; }
      UnmarkPrefix(markers[1..], m, i - 1);
      assert markers[1..][..i - 1] == markers[1..i] && markers[1..][i - 1..] == markers[i..];
      assert markers[..i] == [markers[0]] + markers[1..i];
    }
  }

  lemma {:induction false} WithoutAppend(a: seq<FileEntry>, b: seq<FileEntry>, gone: set<string>)
    ensures Without(a + b, gone) == Without(a, gone) + Without(b, gone)
    decreases |a|
  {
    if a == [] {
      assert a + b == b;
    } else {
      assert (a + b)[1..] == a[1..] + b;
      WithoutAppend(a[1..], b, gone);
    }
  }

  /** The position of a block by its id, as the program searches for it. */
  method FindIndex(mods: seq<Mod>, id: string) returns (index: Option<nat>)
    ensures index == IndexOf(mods, id)
  {
    var i := 0;
    assert mods[0..] == mods;
    while i < |mods|
      invariant i <= |mods|
      invariant IndexOf(mods, id) == Shifted(IndexOf(mods[i..], id), i)
    {
      if mods[i].id == id {
        return Some(i);
      }
      assert mods[i..][1..] == mods[i + 1..];
      i := i + 1;
    }
    return None;
  }

  function Shifted(index: Option<nat>, offset: nat): Option<nat> {
    match index case None => None case Some(i) => Some(i + offset)
  }

  /** Accepts the pending blocks one by one, each found again by its id. */
  method AcceptPending(mods: seq<Mod>) returns (updated: seq<Mod>)
    ensures updated == AcceptEach(mods, |mods|)
    ensures updated == Settle(mods, Applied) <==> PendingReachable(mods)
  {
    hide IndexOf, PendingReachable;
    updated := mods;
    var i := 0;
    while i < |mods|
      invariant i <= |mods| && updated == AcceptEach(mods, i)
    {
      if mods[i].status.Pending? {
        var at := FindIndex(updated, mods[i].id);
        if at.Some? {
          updated := updated[at.value := mods[i].(status := Applied)];
        }
      }
      i := i + 1;
    }
    AcceptAllSettles(mods);
  }

  // ---------------------------------------------------------------- the store

  class DiffStore {
    var contexts: map<string, Context>
    var loads: map<Key, nat>
    var active: map<Key, nat>
    var targets: map<Key, LoadTarget>
    var mutations: map<Key, nat>
    var markers: seq<Marker>
    var nextRef: nat

    function View(): Store
      reads this
    {
      Store(contexts, loads, active, targets, mutations, markers, nextRef)
    }

    constructor ()
      ensures View() == Store(map[], map[], map[], map[], map[], [], 0)
    {
      contexts, loads, active, targets, mutations, markers, nextRef := map[], map[], map[], map[], map[], [], 0;
    }

    // -------------------------------------------------------------- registers

    /** Moves the newest marker to the end and drops the oldest one beyond the bound. */
    method MarkDeleted(m: Marker)
      modifies this`markers
      ensures markers == Mark(old(markers), m)
    {
      var i := 0;
      while i < |markers| && markers[i] != m
        invariant i <= |markers| && markers == old(markers)
        invariant m !in markers[..i]
      {
        i := i + 1;
      }
      UnmarkPrefix(markers, m, i);
      if i < |markers| {
        assert markers[i..][1..] == markers[i + 1..];
        markers := markers[..i] + markers[i + 1..];
      } else {
        assert markers[..i] + [] == markers;
      }
      markers := markers + [m];
      if |markers| > MAX_DELETED_PATH_MARKERS {
        markers := markers[1..];
      }
    }

    /** Moves the generation of every load of a deleted file on; tells whether one of them is running. */
    method InvalidateLoads(context: string, path: string, isDirectory: bool) returns (invalidated: bool)
      modifies this`loads
      ensures loads == map k | k in old(loads) :: if KeyDeleted(k, context, path, isDirectory) then old(loads)[k] + 1 else old(loads)[k]
      ensures invalidated <==> exists k :: k in old(loads) && k in active && KeyDeleted(k, context, path, isDirectory)
    {
      hide Paths.IsPathDeleted;
      invalidated := false;
      var todo := loads.Keys;
      while todo != {}
        invariant todo <= old(loads).Keys && loads.Keys == old(loads).Keys
        invariant forall k :: k in loads ==>
                    loads[k] == if k !in todo && KeyDeleted(k, context, path, isDirectory) then old(loads)[k] + 1 else old(loads)[k]
        invariant invalidated <==> exists k :: k in old(loads) && k !in todo && k in active && KeyDeleted(k, context, path, isDirectory)
        decreases |todo|
      {
        var key :| key in todo;
        if key.context == context && Paths.IsPathDeleted(key.document, path, isDirectory) {
          if key in active {
            invalidated := true;
          }
          loads := loads[key := loads[key] + 1];
        }
        todo := todo - {key};
      }
    }

    /** Looks for a registered load of the context other than the given one. */
    method HasOtherLoad(key: Key, gen: nat) returns (found: bool)
      ensures found == OtherLoadRegistered(View(), key, gen)
    {
      var todo := active.Keys;
      while todo != {}
        invariant todo <= active.Keys
        invariant forall k :: k in active && k !in todo ==> k.context != key.context || (k == key && active[k] == gen)
        decreases |todo|
      {
        var k :| k in todo;
        if k.context == key.context && !(k == key && active[k] == gen) {
          return true;
        }
        todo := todo - {k};
      }
      return false;
    }

    method HasLoad(context: string) returns (found: bool)
      ensures found == LoadRegistered(View(), context)
    {
      var todo := active.Keys;
      while todo != {}
        invariant todo <= active.Keys
        invariant forall k :: k in active && k !in todo ==> k.context != context
        decreases |todo|
      {
        var k :| k in todo;
        if k.context == context {
          return true;
        }
        todo := todo - {k};
      }
      return false;
    }

    /** Another registered load of the context, on a file the deletion leaves alone. */
    method HasSurvivingLoad(context: string, path: string, isDirectory: bool) returns (found: bool)
      ensures found <==> exists k :: k in active && k.context == context && !KeyDeleted(k, context, path, isDirectory)
    {
      hide Paths.IsPathDeleted;
      var todo := active.Keys;
      while todo != {}
        invariant todo <= active.Keys
        invariant forall k :: k in active && k !in todo ==> k.context != context || KeyDeleted(k, context, path, isDirectory)
        decreases |todo|
      {
        var k :| k in todo;
        if k.context == context && !Paths.IsPathDeleted(k.document, path, isDirectory) {
          return true;
        }
        todo := todo - {k};
      }
      return false;
    }

    method PublishTarget(key: Key, gen: nat, content: string)
      modifies this`targets
      ensures View() == Publish(old(View()), key, gen, content)
    {
      if key in loads && loads[key] == gen && key in active && active[key] == gen {
        targets := targets[key := LoadTarget(gen, content)];
      }
    }

    method FinishLoad(key: Key, gen: nat)
      modifies this`active, this`targets
      ensures View() == Deregister(old(View()), key, gen)
    {
      if key in active && active[key] == gen {
        active := active - {key};
      }
      if key in targets && targets[key].generation == gen {
        targets := targets - {key};
      }
    }

    // -------------------------------------------------------------- loading

    method StartLoad(a: LoadArgs) returns (l: Load)
      modifies this
      ensures var (t, m) := BeginLoad(old(View()), a); View() == Renumber(t, old(nextRef) + 2 * REFS_PER_STEP) && l == m
    {
      hide InitialContent, Publish, Empty;
      var key := Key(a.context, a.document);
      var gen := (if key in loads then loads[key] else 0) + 1;
      loads := loads[key := gen];
      active := active[key := gen];
      PublishTarget(key, gen, InitialContent(a));
      var c := if a.context in contexts then contexts[a.context] else Empty(nextRef);
      contexts := contexts[a.context := c.(isLoading := true)];
      l := Load(a, gen, Yielded);
      nextRef := nextRef + 2 * REFS_PER_STEP;
    }

    method SettleCancelled(l: Load)
      modifies this`contexts, this`active, this`targets
      ensures View() == CancelLoad(old(View()), l)
    {
      hide LoadRegistered;
      var key := LoadKey(l);
      FinishLoad(key, l.gen);
      var other := HasLoad(key.context);
      if key.context in contexts {
        contexts := contexts[key.context := contexts[key.context].(isLoading := other)];
      }
    }

    method ReportFailure(l: Load)
      modifies this`contexts, this`active, this`targets
      ensures View() == FailLoad(old(View()), l)
    {
      hide OtherLoadRegistered;
      var key := LoadKey(l);
      if key in loads && loads[key] == l.gen {
        var other := HasOtherLoad(key, l.gen);
        var c := if key.context in contexts then contexts[key.context] else Empty(nextRef);
        contexts := contexts[key.context := c.(isLoading := other)];
      }
      FinishLoad(key, l.gen);
    }

    /** The final commit of a load: no suspension between the guard and here. */
    method OpenFile(l: Load, ready: Answer)
      requires ready.Ready?
      modifies this`contexts, this`active, this`targets
      ensures View() == CommitLoad(old(View()), l, ready)
    {
      hide OtherLoadRegistered, OpenLoaded, ContextOf;
      var key := LoadKey(l);
      var other := HasOtherLoad(key, l.gen);
      var c := ContextOf(View(), key.context);
      contexts := contexts[key.context := OpenLoaded(c, l.args, ready, other, nextRef)];
      FinishLoad(key, l.gen);
    }

    /** Resumes a load after any of its suspension points. */
    method ContinueLoad(l: Load, answer: Answer) returns (next: Option<Load>)
      modifies this
      ensures var (t, m) := ResumeLoad(old(View()), l, answer); View() == Renumber(t, old(nextRef) + 2 * REFS_PER_STEP) && next == m
    {
      hide CommitLoad, CancelLoad, FailLoad, Deregister, Publish, AfterDeletionCheck, WasPathDeleted, LoadKey;
      var key := LoadKey(l);
      next := None;
      match l.at {
        case Yielded =>
          if !(key in loads && loads[key] == l.gen) {
            FinishLoad(key, l.gen);
          } else if !WasPathDeleted(markers, key.context, key.document) {
            next := Some(AfterDeletionCheck(l));
          } else if l.args.restoring {
            SettleCancelled(l);
          } else {
            next := Some(l.(at := ReadingDeleted));
          }
        case ReadingDeleted =>
          if !answer.Text? || (l.args.preApplied.Some? && l.args.preApplied.value != answer.text) {
            SettleCancelled(l);
          } else {
            next := Some(AfterDeletionCheck(l));
          }
        case ComparingDisk =>
          if answer.Text? && |answer.text| != |l.args.content| {
            PublishTarget(key, l.gen, answer.text);
            var preApplied := if l.args.preApplied == Some(l.args.content) then Some(answer.text) else l.args.preApplied;
            next := Some(l.(args := l.args.(content := answer.text, preApplied := preApplied), at := Working));
          } else {
            next := Some(l.(at := Working));
          }
        case Working =>
          if answer.Failure? {
            ReportFailure(l);
          } else {
            if answer.Republish? {
              PublishTarget(key, l.gen, answer.content);
            }
            if !(key in loads && loads[key] == l.gen) {
              FinishLoad(key, l.gen);
            } else if answer.Ready? {
              OpenFile(l, answer);
            } else {
              next := Some(l);
            }
          }
      }
      nextRef := nextRef + 2 * REFS_PER_STEP;
    }

    // -------------------------------------------------------------- deleting a path

    /** Removes the entries under the deleted path, keeping the order of the others. */
    method RemoveEntries(entries: seq<FileEntry>, path: string, isDirectory: bool) returns (kept: seq<FileEntry>, removed: bool)
      ensures kept == Without(entries, DeletedDocuments(entries, path, isDirectory))
      ensures removed <==> DeletedDocuments(entries, path, isDirectory) != {}
    {
      hide Paths.IsPathDeleted, DeletedDocuments;
      var gone := DeletedDocuments(entries, path, isDirectory);
      kept, removed := [], false;
      var i := 0;
      while i < |entries|
        invariant i <= |entries|
        invariant kept == Without(entries[..i], gone)
        invariant removed ==> gone != {}
        invariant !removed ==> forall j :: 0 <= j < i ==> !Paths.IsPathDeleted(entries[j].documentId, path, isDirectory)
      {
        var e := entries[i];
        assert entries[..i + 1] == entries[..i] + [e];
        WithoutAppend(entries[..i], [e], gone);
        DeletedByPath(entries, path, isDirectory, e);
        if Paths.IsPathDeleted(e.documentId, path, isDirectory) {
          removed := true;
        } else {
          kept := kept + [e];
        }
        i := i + 1;
      }
      assert entries[..i] == entries;
      if !removed {
        NoneDeleted(entries, path, isDirectory);
      }
    }

    static lemma DeletedByPath(entries: seq<FileEntry>, path: string, isDirectory: bool, e: FileEntry)
      requires e in entries
      ensures e.documentId in DeletedDocuments(entries, path, isDirectory) <==> Paths.IsPathDeleted(e.documentId, path, isDirectory)
    {
      hide Paths.IsPathDeleted;
    }

    static lemma NoneDeleted(entries: seq<FileEntry>, path: string, isDirectory: bool)
      requires forall j :: 0 <= j < |entries| ==> !Paths.IsPathDeleted(entries[j].documentId, path, isDirectory)
      ensures DeletedDocuments(entries, path, isDirectory) == {}
    {
      hide Paths.IsPathDeleted;
    }

    /** The entries go, and the active file with them when it was deleted. */
    method DiscardContext(context: string, path: string, isDirectory: bool, invalidated: bool, other: bool)
      requires context in contexts
      modifies this`contexts
      ensures contexts == old(contexts)[context := DeleteFrom(old(contexts)[context], path, isDirectory, invalidated, other, nextRef)]
    {
      hide Paths.IsPathDeleted, Sync, Apply, FirstPending, DeletedDocuments, Without;
      var c := contexts[context];
      var kept, removed := RemoveEntries(Sync(c).entries, path, isDirectory);
      var activeDeleted := DocumentDeleted(c.documentId, path, isDirectory) || DocumentDeleted(c.activeFileId, path, isDirectory);
      if !removed && !activeDeleted {
        if invalidated {
          c := c.(isLoading := other);
        }
      } else if !activeDeleted {
        c := c.(entries := kept, isLoading := if invalidated then other else c.isLoading);
      } else {
        var pending := FirstPending(kept, None);
        if pending.Some? {
          c := Apply(c.(entries := kept), pending.value).(snapshot := None, isLoading := other);
        } else {
          c := Empty(nextRef).(entries := kept, isLoading := other);
        }
      }
      contexts := contexts[context := c];
    }

    /** Everything a deletion does before its first suspension point. */
    method DiscardDeleted(context: string, path: string, isDirectory: bool)
      modifies this
      ensures View() == Renumber(DeletePath(old(View()), context, path, isDirectory), old(nextRef) + 2 * REFS_PER_STEP)
    {
      hide Paths.IsPathDeleted, Paths.Normalize, Mark, DeleteFrom;
      MarkDeleted(Marker(context, Paths.Normalize(path), isDirectory));
      var invalidated := InvalidateLoads(context, path, isDirectory);
      var other := HasSurvivingLoad(context, path, isDirectory);
      if context in contexts {
        DiscardContext(context, path, isDirectory, invalidated, other);
      }
      nextRef := nextRef + 2 * REFS_PER_STEP;
    }

    // -------------------------------------------------------------- undo and redo

    method CommitMoveNow(m: Move)
      modifies this`contexts
      ensures View() == CommitMove(old(View()), m)
    {
      hide Project, Sync, Push, GenerationsHold;
      if !MoveIsCurrent(View(), m) || StackOf(m.source, m.direction) == [] {
        return;
      }
      var c := contexts[m.context];
      if m.direction == Backward {
        var e := Last(m.source.undo.items);
        var restored := c.(undo := Arr(nextRef, Init(m.source.undo.items)), redo := Arr(nextRef + 1, Push(m.source.redo.items, e)));
        if e.projectionBefore.Some? {
          restored := Project(restored, e.projectionBefore.value);
        } else {
          restored := Sync(restored.(content := e.contentBefore, mods := e.modsBefore));
        }
        contexts := contexts[m.context := restored];
      } else {
        var e := Last(m.source.redo.items);
        var restored := c.(redo := Arr(nextRef, Init(m.source.redo.items)), undo := Arr(nextRef + 1, Push(m.source.undo.items, e)));
        if e.projectionAfter.Some? {
          restored := Project(restored, e.projectionAfter.value);
        } else {
          restored := Sync(restored.(content := e.contentAfter, mods := e.modsAfter));
        }
        contexts := contexts[m.context := restored];
      }
    }

    /** Every undo, redo and rollback takes the next generation of its file. */
    method TakeGeneration(key: Key) returns (gen: nat)
      modifies this`mutations
      ensures gen == Count(old(mutations), key) + 1 && mutations == old(mutations)[key := gen]
    {
      gen := (if key in mutations then mutations[key] else 0) + 1;
      mutations := mutations[key := gen];
    }

    method StartMove(d: Direction, context: string) returns (task: Option<Task>)
      modifies this
      ensures var (t, u) := BeginMove(old(View()), d, context); View() == Renumber(t, old(nextRef) + 2 * REFS_PER_STEP) && task == u
    {
      hide CommitMove, ContextOf, StackOf, OnDisk, KeyOf, Count;
      var c := ContextOf(View(), context);
      var key := KeyOf(context, c.documentId);
      task := None;
      if StackOf(c, d) != [] && key !in active {
        var gen := TakeGeneration(key);
        var m := Move(d, context, c, gen, Lookup(loads, key));
        if OnDisk(c.documentId) {
          task := Some(MoveTask(m));
        } else {
          CommitMoveNow(m);
        }
      }
      nextRef := nextRef + 2 * REFS_PER_STEP;
    }

    /** After the write of an undo or redo: commit, or repair the file when something newer took over. */
    method ContinueMove(m: Move, answer: Answer) returns (task: Option<Task>)
      modifies this
      ensures var (t, u) := ResumeMove(old(View()), m, answer); View() == Renumber(t, old(nextRef) + 2 * REFS_PER_STEP) && task == u
    {
      hide CommitMove, MoveIsCurrent, NextRepair;
      task := None;
      if !answer.Failure? {
        if MoveIsCurrent(View(), m) {
          CommitMoveNow(m);
        } else {
          task := NextRepair(View(), m.context, m.source.documentId, m.loadGen, 0);
        }
      }
      nextRef := nextRef + 2 * REFS_PER_STEP;
    }

    // -------------------------------------------------------------- rollback

    method StartRollback(context: string, snapshot: string) returns (task: Option<Task>)
      modifies this
      ensures var (t, u) := BeginRollback(old(View()), context, snapshot);
              View() == Renumber(t, old(nextRef) + 2 * REFS_PER_STEP) && task == u
    {
      hide ContextOf;
      var c := ContextOf(View(), context);
      var key := KeyOf(context, c.documentId);
      task := None;
      if key !in active {
        var gen := TakeGeneration(key);
        task := Some(RollbackTask(RollbackRun(context, snapshot, c, gen, Lookup(loads, key), Fetching)));
      }
      nextRef := nextRef + 2 * REFS_PER_STEP;
    }

    method CommitRollbackNow(r: RollbackRun, t: Target)
      modifies this`contexts
      ensures View() == CommitRollback(old(View()), r, t)
    {
      hide Project, Push, RollbackIsCurrent, CurrentProjection, TargetProjection;
      if RollbackIsCurrent(View(), r) {
        assert r.context in contexts by { CurrentIsKnown(View(), r); }
        var c := contexts[r.context];
        var before, after := CurrentProjection(r.source), TargetProjection(c, t);
        var e := HistoryEntry(RollbackEntry, before.target, t.content, before.mods, t.mods, Some(before), Some(after));
        c := c.(undo := Arr(nextRef, Push(c.undo.items, e)), redo := Arr(nextRef + 1, []));
        contexts := contexts[r.context := Project(c, after)];
      }
    }

    static lemma CurrentIsKnown(s: Store, r: RollbackRun)
      requires RollbackIsCurrent(s, r)
      ensures r.context in s.contexts
    {
    }

    /** A file on disk is written before the rollback commits, any other commits at once. */
    method WriteBack(r: RollbackRun, t: Target) returns (task: Option<Task>)
      modifies this`contexts
      ensures var (s, u) := WriteOrCommit(old(View()), r, t); View() == s && task == u
    {
      hide RollbackIsCurrent, CommitRollback;
      task := None;
      if RollbackIsCurrent(View(), r) {
        if OnDisk(r.source.documentId) {
          task := Some(RollbackTask(r.(at := Writing(t))));
        } else {
          CommitRollbackNow(r, t);
        }
      }
    }

    /** Resumes a rollback after any of its suspension points. */
    method ContinueRollback(r: RollbackRun, answer: Answer) returns (task: Option<Task>)
      modifies this
      ensures var (s, u) := ResumeRollback(old(View()), r, answer);
              View() == Renumber(s, old(nextRef) + 2 * REFS_PER_STEP) && task == u
    {
      hide RollbackIsCurrent, CommitRollback, WriteOrCommit, NextRepair;
      task := None;
      match r.at {
        case Fetching =>
          if answer.Text? && RollbackIsCurrent(View(), r) {
            task := Some(RollbackTask(r.(at := if r.source.documentId.Some? then Searching(answer.text) else Generating(answer.text))));
          }
        case Searching(content) =>
          if answer.Failure? {
            task := Some(RollbackTask(r.(at := Generating(content))));
          } else if RollbackIsCurrent(View(), r) {
            if answer.Projected? {
              task := Preview(r, content, answer.base, answer.xml);
            } else {
              task := Some(RollbackTask(r.(at := Generating(content))));
            }
          }
        case Generating(content) =>
          if answer.Projected? && RollbackIsCurrent(View(), r) {
            task := Preview(r, content, answer.base, answer.xml);
          }
        case Previewing(content, base, xml) =>
          if answer.Previewed? && RollbackIsCurrent(View(), r) {
            task := WriteBack(r, Target(r.snapshot, content, base, xml, Arr(nextRef + 2, answer.mods)));
          }
        case Writing(t) =>
          if !answer.Failure? {
            if RollbackIsCurrent(View(), r) {
              CommitRollbackNow(r, t);
            } else {
              task := NextRepair(View(), r.context, r.source.documentId, r.loadGen, 0);
            }
          }
      }
      nextRef := nextRef + 2 * REFS_PER_STEP;
    }

    /** A snapshot equal to its base needs no preview. */
    method Preview(r: RollbackRun, content: string, base: string, xml: string) returns (task: Option<Task>)
      modifies this`contexts
      ensures var (s, u) := ProjectOnto(old(View()), r, content, base, xml); View() == s && task == u
    {
      hide WriteOrCommit;
      if content == base {
        task := WriteBack(r, Target(r.snapshot, content, base, xml, Arr(nextRef + 2, [])));
      } else {
        task := Some(RollbackTask(r.(at := Previewing(content, base, xml))));
      }
    }

    // -------------------------------------------------------------- verdicts

    /** Accepting a block keeps the text, pushes a history entry, and moves on after the last verdict. */
    method AcceptModification(context: string, id: string)
      modifies this
      ensures View() == Renumber(EditContext(old(View()), context, Edit.Accept(id)), old(nextRef) + 2 * REFS_PER_STEP)
    {
      hide FinishByAccept, Commit;
      if context in contexts {
        var c := contexts[context];
        var index := FindIndex(c.mods.items, id);
        if index.Some? {
          var i := index.value;
          var ref := nextRef + REFS_PER_STEP;
          var mods := Arr(ref, c.mods.items[i := c.mods.items[i].(status := Applied, contentAtAccept := Some(c.content))]);
          c := PushHistory(c, AcceptEntry, c.content, mods, ref + 1);
          contexts := contexts[context := c];
          contexts := contexts[context := FinishByAccept(contexts[context])];
        } else {
          contexts := contexts[context := c];
        }
      }
      nextRef := nextRef + 2 * REFS_PER_STEP;
    }

    /** Rejecting a block rebuilds the text. `script` leads from the original to the text the file was loaded with. */
    method RejectModification(context: string, id: string, script: seq<MyersRebuild.EditOp>)
      modifies this
      ensures View() == Renumber(EditContext(old(View()), context, Edit.Reject(id, script)), old(nextRef) + 2 * REFS_PER_STEP)
    {
      hide RebuiltContent, MyersRebuild.Rebuilt, Commit;
      if context in contexts {
        var c := contexts[context];
        var index := FindIndex(c.mods.items, id);
        if index.Some? {
          var i := index.value;
          var ref := nextRef + REFS_PER_STEP;
          var mods := Arr(ref, c.mods.items[i := c.mods.items[i].(status := Rejected)]);
          var content := MyersRebuild.RebuildContentByDiff(c.original, script, mods.items);
          c := PushHistory(c, RejectEntry, content, mods, ref + 1);
        }
        contexts := contexts[context := c];
      }
      nextRef := nextRef + 2 * REFS_PER_STEP;
    }

    /** The step becomes undoable; beyond the bound the oldest one is forgotten, and redo is lost. */
    static method PushHistory(c: Context, kind: EntryKind, content: string, mods: Arr<Mod>, ref: nat) returns (d: Context)
      ensures d == Commit(c, kind, content, mods, ref)
    {
      var stack := c.undo.items + [HistoryEntry(kind, c.content, content, c.mods, mods, None, None)];
      if |stack| > MAX_HISTORY_DEPTH {
        stack := stack[1..];
      }
      d := c.(content := content, mods := mods, undo := Arr(ref, stack), redo := Arr(ref + 1, []));
    }

    /** Accepting everything; each block is found again by its id. */
    method AcceptAllPending(context: string)
      modifies this
      ensures View() == Renumber(EditContext(old(View()), context, Edit.AcceptAll), old(nextRef) + 2 * REFS_PER_STEP)
    {
      hide Sync, Apply, FirstPending, AcceptEach;
      var c := ContextOf(View(), context);
      var updated := AcceptPending(c.mods.items);
      var done := c.(mods := Arr(nextRef + REFS_PER_STEP, updated), isLoading := false);
      var entries := Sync(done).entries;
      var pending := FirstPending(entries, c.documentId);
      if pending.Some? {
        contexts := contexts[context := Apply(done.(entries := entries), pending.value)];
      } else {
        contexts := contexts[context := done.(mode := Normal, entries := entries)];
      }
      nextRef := nextRef + 2 * REFS_PER_STEP;
    }

    /** Rejecting everything goes back to the original without a rebuild. */
    method RejectAllPending(context: string)
      modifies this
      ensures View() == Renumber(EditContext(old(View()), context, Edit.RejectAll), old(nextRef) + 2 * REFS_PER_STEP)
    {
      hide Settle, Commit;
      var c := ContextOf(View(), context);
      var ref := nextRef + REFS_PER_STEP;
      c := PushHistory(c, RejectEntry, c.original, Arr(ref, Settle(c.mods.items, Rejected)), ref + 1);
      contexts := contexts[context := c];
      nextRef := nextRef + 2 * REFS_PER_STEP;
    }

    /** The file on screen is kept as an entry, the other one is shown. */
    method SelectEntry(context: string, document: string)
      modifies this
      ensures View() == Renumber(EditContext(old(View()), context, Edit.Select(document)), old(nextRef) + 2 * REFS_PER_STEP)
    {
      hide Sync, Apply, Find;
      if context in contexts {
        var c := contexts[context];
        var target := Find(c.entries, document);
        if target.Some? {
          c := Apply(Sync(c), target.value);
        }
        contexts := contexts[context := c];
      }
      nextRef := nextRef + 2 * REFS_PER_STEP;
    }

    /** Opening the review mode needs a pending block, here or in another file. */
    method ChangeMode(context: string, mode: Mode)
      modifies this
      ensures View() == Renumber(EditContext(old(View()), context, Edit.SetMode(mode)), old(nextRef) + 2 * REFS_PER_STEP)
    {
      hide Apply, FirstPending, HasPending;
      if context in contexts || mode == Normal {
        var c := ContextOf(View(), context);
        if mode == Normal || HasPending(c.mods.items) {
          c := c.(mode := mode);
        } else {
          var other := FirstPending(c.entries, c.activeFileId);
          if other.Some? {
            c := Apply(c.(mode := Diff), other.value);
          }
        }
        contexts := contexts[context := c];
      }
      nextRef := nextRef + 2 * REFS_PER_STEP;
    }

    // -------------------------------------------------------------- repair

    /** After a repair write: done if nothing changed meanwhile, else the next attempt. */
    method ContinueRepair(p: Repair, answer: Answer) returns (task: Option<Task>)
      modifies this
      ensures View() == Renumber(old(View()), old(nextRef) + 2 * REFS_PER_STEP) && task == ResumeRepair(old(View()), p, answer)
    {
      hide CurrentTarget, WasPathDeleted;
      task := None;
      var key := Key(p.context, p.document);
      if !answer.Failure? {
        var generationsHold := Lookup(loads, key) == p.loadGen && Lookup(mutations, key) == p.mutation;
        if !(generationsHold && CurrentTarget(View(), p.context, p.document, p.superseded, p.loadGen) == Some(p.content)) {
          task := NextRepair(View(), p.context, Some(p.document), p.superseded, p.attempt + 1);
        }
      }
      nextRef := nextRef + 2 * REFS_PER_STEP;
    }
  }

  // ---------------------------------------------------------------- the store and what is in flight

  /** The store together with the operations suspended on it: every event of the protocol, played on the store. */
  class DiffRuntime {
    const store: DiffStore
    var tasks: map<nat, Task>
    var nextTask: nat

    function View(): System
      reads this, store
    {
      System(store.View(), tasks, nextTask)
    }

    constructor ()
      ensures View() == Initially() && fresh(store)
    {
      store := new DiffStore();
      tasks, nextTask := map[], 0;
    }

    method Suspend(t: Option<Task>)
      modifies this
      ensures View() == Spawn(old(View()), old(store.View()), t)
    {
      if t.Some? {
        tasks := tasks[nextTask := t.value];
        nextTask := nextTask + 1;
      }
    }

    method Review(context: string, edit: Edit)
      modifies store
      ensures store.View() == Renumber(EditContext(old(store.View()), context, edit), old(store.nextRef) + 2 * REFS_PER_STEP)
    {
      hide EditContext;
      match edit {
        case Accept(id) => store.AcceptModification(context, id);
        case Reject(id, script) => store.RejectModification(context, id, script);
        case AcceptAll => store.AcceptAllPending(context);
        case RejectAll => store.RejectAllPending(context);
        case Select(document) => store.SelectEntry(context, document);
        case SetMode(mode) => store.ChangeMode(context, mode);
      }
    }

    method ContinueTask(t: Task, answer: Answer) returns (next: Option<Task>)
      modifies store
      ensures var (s, u) := ResumeTask(old(store.View()), t, answer);
              store.View() == Renumber(s, old(store.nextRef) + 2 * REFS_PER_STEP) && next == u
    {
      hide ResumeLoad, ResumeMove, ResumeRollback, ResumeRepair;
      match t {
        case LoadTask(l) =>
          var more := store.ContinueLoad(l, answer);
          next := if more.Some? then Some(LoadTask(more.value)) else None;
        case MoveTask(m) => next := store.ContinueMove(m, answer);
        case RollbackTask(r) => next := store.ContinueRollback(r, answer);
        case RepairTask(p) => next := store.ContinueRepair(p, answer);
      }
    }

    /** One event is one step of the protocol. */
    method Perform(e: Event)
      modifies this, store
      ensures View() == Next(old(View()), e)
    {
      hide BeginLoad, BeginMove, BeginRollback, ResumeTask, EditContext, DeletePath;
      match e {
        case StartLoad(a) =>
          var l := store.StartLoad(a);
          Suspend(Some(LoadTask(l)));
        case StartMove(d, context) =>
          var t := store.StartMove(d, context);
          Suspend(t);
        case StartRollback(context, snapshot) =>
          var t := store.StartRollback(context, snapshot);
          Suspend(t);
        case Resume(id, answer) =>
          if id in tasks {
            var t := ContinueTask(tasks[id], answer);
            tasks := if t.Some? then tasks[id := t.value] else tasks - {id};
          } else {
            store.nextRef := store.nextRef + 2 * REFS_PER_STEP;
          }
        case EditEvent(context, edit) => Review(context, edit);
        case DeleteEvent(context, path, isDirectory) => store.DiscardDeleted(context, path, isDirectory);
      }
    }

    /** Playing events one after the other is a run of the protocol, so what holds of every run holds here. */
    method Play(events: seq<Event>)
      modifies this, store
      ensures View() == Run(old(View()), events)
    {
      hide Next;
      var k := 0;
      assert events[0..] == events;
      while k < |events|
        invariant k <= |events|
        invariant Run(View(), events[k..]) == Run(old(View()), events)
      {
        assert events[k..][0] == events[k] && events[k..][1..] == events[k + 1..];
        Perform(events[k]);
        k := k + 1;
      }
    }
  }
}
