/** Rejecting a block waits for the rebuild of the text and then writes back a copy of the context taken before that
wait. Here the two halves stand apart, with any run of the protocol between them. */
module LateReject {
  import opened Modifications
  import opened DiffContext
  import opened DiffProtocol
  import Approval
  import DeletedPaths
  import DiffSafety
  import MyersRebuild
  import Paths
  import RelativePaths
  import Scenarios

  /** A reject that waits for its rebuild, with the context it was started from. */
  datatype WaitingReject = WaitingReject(context: string, id: string, script: seq<MyersRebuild.EditOp>, source: Context)

  /** Nothing starts for a block that is not there. */
  function StartReject(s: Store, context: string, id: string, script: seq<MyersRebuild.EditOp>): (w: Option<WaitingReject>)
    ensures w.Some? ==> Started(w.value)
  {
    if context in s.contexts && IndexOf(s.contexts[context].mods.items, id).Some?
    then Some(WaitingReject(context, id, script, s.contexts[context])) else None
  }

  predicate Started(w: WaitingReject) {
    IndexOf(w.source.mods.items, w.id).Some?
  }

  /** Writes the copy back, whatever the context has become. */
  function FinishReject(s: Store, w: WaitingReject): Store {
    Set(s, w.context, Edited(w.source, Edit.Reject(w.id, w.script), s.nextRef + REFS_PER_STEP))
  }

  /** With nothing in between the two halves are the step of the protocol. */
  lemma UninterruptedRejectIsEdit(s: Store, context: string, id: string, script: seq<MyersRebuild.EditOp>)
    ensures var w := StartReject(s, context, id, script);
            (if w.Some? then FinishReject(s, w.value) else s) == EditContext(s, context, Edit.Reject(id, script))
  {
    hide MyersRebuild.Rebuilt, RebuiltContent;
    if context in s.contexts {
      assert s.contexts[context := s.contexts[context]] == s.contexts;
    }
  }

  // ---------------------------------------------------------------- exactly when a late reject is the sequential one

  /** What another push leaves of a stack. */
  function Kept(stack: seq<HistoryEntry>): seq<HistoryEntry> {
    if |stack| >= MAX_HISTORY_DEPTH then stack[1..] else stack
  }

  lemma PushedSame(a: seq<HistoryEntry>, b: seq<HistoryEntry>, e: HistoryEntry, f: HistoryEntry)
    ensures Push(a, e) == Push(b, f) <==> Kept(a) == Kept(b) && e == f
  {
    assert Push(a, e) == Kept(a) + [e] && Push(b, f) == Kept(b) + [f];
    assert (Kept(a) + [e])[..|Kept(a)|] == Kept(a) && (Kept(b) + [f])[..|Kept(b)|] == Kept(b);
    if Kept(a) + [e] == Kept(b) + [f] {
      assert (Kept(a) + [e])[|Kept(a)|] == e && (Kept(b) + [f])[|Kept(b)|] == f;
    }
  }

  /** The context is still the copy, but for what a reject forgets anyway: the redo stack, and the oldest undo entry
      of a full stack. */
  predicate Unchanged(c: Context, source: Context) {
    c.(undo := source.undo, redo := source.redo) == source && Kept(c.undo.items) == Kept(source.undo.items)
  }

  lemma CommittedSame(c: Context, d: Context, x: string, y: string, a: Arr<Mod>, b: Arr<Mod>, ref: nat)
    ensures Commit(c, RejectEntry, x, a, ref) == Commit(d, RejectEntry, y, b, ref) <==> Unchanged(c, d) && x == y && a == b
  {
    hide Push, Kept;
    PushedSame(c.undo.items, d.undo.items,
               HistoryEntry(RejectEntry, c.content, x, c.mods, a, None, None),
               HistoryEntry(RejectEntry, d.content, y, d.mods, b, None, None));
  }

  /** Main result: a reject that finishes late does what rejecting at that moment would if and only if nothing else of
      its context has changed since it started. */
  lemma LateRejectIsSequential(s: Store, w: WaitingReject)
    requires Started(w) && w.context in s.contexts
    ensures FinishReject(s, w) == EditContext(s, w.context, Edit.Reject(w.id, w.script)) <==>
            Unchanged(s.contexts[w.context], w.source)
  {
    hide MyersRebuild.Rebuilt, RebuiltContent, Commit, Unchanged;
    var c, ref := s.contexts[w.context], s.nextRef + REFS_PER_STEP;
    var e := Edit.Reject(w.id, w.script);
    var late, now := Edited(w.source, e, ref), Edited(c, e, ref);
    assert FinishReject(s, w).contexts[w.context] == late && EditContext(s, w.context, e).contexts[w.context] == now;
    var i := IndexOf(w.source.mods.items, w.id).value;
    var a := Arr(ref, w.source.mods.items[i := w.source.mods.items[i].(status := Rejected)]);
    var x := RebuiltContent(w.source.original, a.items, RejectedByScript(w.source, w.id, w.script));
    assert late == Commit(w.source, RejectEntry, x, a, ref + 1);
    UnchangedMods(c, w.source);
    match IndexOf(c.mods.items, w.id)
    case None =>
      CommitSets(w.source, x, a, ref + 1);
      assert a.items[i].id == w.id && a.items[i] in a.items;
    case Some(j) =>
      var b := Arr(ref, c.mods.items[j := c.mods.items[j].(status := Rejected)]);
      var y := RebuiltContent(c.original, b.items, RejectedByScript(c, w.id, w.script));
      assert now == Commit(c, RejectEntry, y, b, ref + 1);
      CommittedSame(c, w.source, y, x, b, a, ref + 1);
  }

  lemma UnchangedMods(c: Context, source: Context)
    ensures Unchanged(c, source) ==> c.mods == source.mods && c.original == source.original && c.content == source.content
  {
  }

  lemma CommitSets(c: Context, content: string, mods: Arr<Mod>, ref: nat)
    ensures var d := Commit(c, RejectEntry, content, mods, ref);
            d.mods == mods && d.documentId == c.documentId && d.activeFileId == c.activeFileId && d.entries == c.entries
  {
  }

  // ---------------------------------------------------------------- what it does when something has changed

  lemma FinishSets(s: Store, w: WaitingReject)
    requires Started(w)
    ensures var c := FinishReject(s, w).contexts[w.context]; var i := IndexOf(w.source.mods.items, w.id).value;
            && c.documentId == w.source.documentId && c.activeFileId == w.source.activeFileId && c.entries == w.source.entries
            && c.mods.items == w.source.mods.items[i := w.source.mods.items[i].(status := Rejected)]
  {
    hide MyersRebuild.Rebuilt, RebuiltContent, Commit;
    var ref, i := s.nextRef + REFS_PER_STEP, IndexOf(w.source.mods.items, w.id).value;
    var mods := w.source.mods.items[i := w.source.mods.items[i].(status := Rejected)];
    CommitSets(w.source, RebuiltContent(w.source.original, mods, RejectedByScript(w.source, w.id, w.script)), Arr(ref, mods), ref + 1);
  }

  /** However late, the text fits the verdicts it comes with. */
  lemma LateRejectCoherent(b: Approval.Basis, s: Store, w: WaitingReject)
    requires Approval.Coherent(b, w.source)
    ensures Approval.Coherent(b, FinishReject(s, w).contexts[w.context])
  {
    Approval.RejectCoherent(b, w.source, w.id, RejectedByScript(w.source, w.id, w.script), s.nextRef + REFS_PER_STEP);
  }

  /** Of two rejects of one context that overlap only the later one to finish is kept, whatever happens
      between them: every other block has the verdict it had when the two started. */
  lemma OverlappingRejectsKeepOne(y: System, context: string, a: string, b: string, script: seq<MyersRebuild.EditOp>,
                                  script': seq<MyersRebuild.EditOp>, events: seq<Event>)
    requires StartReject(y.store, context, a, script).Some? && StartReject(y.store, context, b, script').Some? && a != b
    ensures var first, second := StartReject(y.store, context, a, script).value, StartReject(y.store, context, b, script').value;
            var z := Run(y.(store := FinishReject(y.store, first)), events);
            var before, c := y.store.contexts[context].mods.items, FinishReject(z.store, second).contexts[context].mods.items;
            && |c| == |before|
            && forall i :: 0 <= i < |c| ==> c[i] == if Some(i) == IndexOf(before, b) then before[i].(status := Rejected) else before[i]
  {
    hide Run;
    var first, second := StartReject(y.store, context, a, script).value, StartReject(y.store, context, b, script').value;
    FinishSets(Run(y.(store := FinishReject(y.store, first)), events).store, second);
  }

  /** Main result: after a deletion nothing under the path comes back along runs that load nothing there, but a reject
      that was waiting when the path was deleted brings it back if and only if its copy had anything under the path. */
  lemma ResurrectedExactly(y: System, path: string, isDirectory: bool, events: seq<Event>, w: WaitingReject)
    requires DiffSafety.Ordered(y) && Started(w)
    requires forall e :: e in events ==> !DeletedPaths.LoadsUnder(e, w.context, path, isDirectory)
    ensures var z := Run(Next(y, DeleteEvent(w.context, path, isDirectory)), events);
            && DeletedPaths.ContextClear(z.store, w.context, path, isDirectory)
            && (DeletedPaths.ContextClear(FinishReject(z.store, w), w.context, path, isDirectory) <==>
                  DeletedPaths.Clear(w.source, path, isDirectory))
  {
    hide Run, Next, DiffSafety.Ordered, DeletedPaths.LoadsUnder, DeletedPaths.ClearEntries, DocumentDeleted;
    DeletedPaths.NoResurrection(y, w.context, path, isDirectory, events);
    FinishSets(Run(Next(y, DeleteEvent(w.context, path, isDirectory)), events).store, w);
  }

  // ---------------------------------------------------------------- two runs from the empty store

  /** A file of two blocks right after it was loaded. */
  function Loaded(): System {
    Run(Initially(), Scenarios.LoadEvents(0, Scenarios.FILE, Ready([Scenarios.FIRST, Scenarios.SECOND], "", None, {})))
  }

  lemma LoadedShows()
    ensures DiffSafety.Ordered(Loaded()) && "c" in Loaded().store.contexts
    ensures var c := Loaded().store.contexts["c"];
            c.documentId == Some("A") && c.mods.items == [Scenarios.FIRST, Scenarios.SECOND]
  {
    hide Run, OpenLoaded, ContextOf;
    var ready := Ready([Scenarios.FIRST, Scenarios.SECOND], "", None, {});
    Scenarios.LoadPlays(Initially(), Scenarios.FILE, ready);
    Scenarios.FirstOpened(Initially(), Scenarios.FILE, ready, Scenarios.FIRST, Scenarios.SECOND);
    assert DiffSafety.Ordered(Initially());
    DiffSafety.RunStaysOrdered(Initially(), Scenarios.LoadEvents(0, Scenarios.FILE, ready));
  }

  /** Both blocks are rejected at once; in the end the first one is pending again. */
  lemma VerdictLostHere(script: seq<MyersRebuild.EditOp>)
    ensures var s := Loaded().store;
            var first, second := StartReject(s, "c", "p", script), StartReject(s, "c", "q", script);
            && first.Some? && second.Some?
            && FinishReject(FinishReject(s, first.value), second.value).contexts["c"].mods.items ==
                 [Scenarios.FIRST, Scenarios.SECOND.(status := Status.Rejected)]
  {
    hide Run, Loaded, FinishReject;
    LoadedShows();
    var y := Loaded();
    assert StartReject(y.store, "c", "p", script).Some? && StartReject(y.store, "c", "q", script).Some?;
    OverlappingRejectsKeepOne(y, "c", "p", "q", script, script, []);
    var first, second := StartReject(y.store, "c", "p", script).value, StartReject(y.store, "c", "q", script).value;
    RunNothing(y.(store := FinishReject(y.store, first)));
  }

  lemma RunNothing(y: System)
    ensures Run(y, []) == y
  {
  }

  /** The file is deleted while one of its blocks is being rejected; in the end it is on screen again. */
  lemma ResurrectedHere(script: seq<MyersRebuild.EditOp>)
    ensures var y := Loaded();
            var w := StartReject(y.store, "c", "p", script);
            var gone := Next(y, DeleteEvent("c", "A", false));
            && w.Some? && DeletedPaths.ContextClear(gone.store, "c", "A", false)
            && FinishReject(gone.store, w.value).contexts["c"].documentId == Some("A")
            && !DeletedPaths.ContextClear(FinishReject(gone.store, w.value), "c", "A", false)
  {
    hide Run, Loaded, Next, FinishReject, DiffSafety.Ordered, Paths.Normalize, DeletedPaths.ClearEntries;
    LoadedShows();
    var y := Loaded();
    var w := StartReject(y.store, "c", "p", script).value;
    ResurrectedExactly(y, "A", false, [], w);
    RunNothing(Next(y, DeleteEvent("c", "A", false)));
    FinishSets(Next(y, DeleteEvent("c", "A", false)).store, w);
    RelativePaths.NormalizeAgain(["A"]);
    assert Paths.IsPathDeleted("A", "A", false);
  }
}
