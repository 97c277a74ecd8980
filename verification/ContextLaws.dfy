/** What the operations on one context do, field by field: to the file on screen, to the stored files, to the review mode. */
module ContextLaws {
  import opened Modifications
  import opened DiffContext
  import opened DiffProtocol
  import Paths

  // ---------------------------------------------------------------- stored files

  function Documents(entries: seq<FileEntry>): (r: seq<string>)
    ensures |r| == |entries| && forall i :: 0 <= i < |r| ==> r[i] == entries[i].documentId
  {
    seq(|entries|, i requires 0 <= i < |entries| => entries[i].documentId)
  }

  lemma DocumentsCons(e: FileEntry, entries: seq<FileEntry>)
    ensures Documents([e] + entries) == [e.documentId] + Documents(entries)
  {
  }

  /** A file that is stored again keeps its place; a new one goes last. */
  lemma {:induction false} PutKeepsPlaces(entries: seq<FileEntry>, e: FileEntry)
    ensures Documents(Put(entries, e)) ==
            if e.documentId in Documents(entries) then Documents(entries) else Documents(entries) + [e.documentId]
    decreases |entries|
  {
    hide Documents;
    if entries == [] {
      NoDocuments();
      DocumentsCons(e, []);
      assert [e] + [] == [e];
    } else {
      var first, rest := entries[0], entries[1..];
      assert entries == [first] + rest;
      DocumentsCons(first, rest);
      DocumentsCons(e, rest);
      if first.documentId != e.documentId {
        PutKeepsPlaces(rest, e);
        DocumentsCons(first, Put(rest, e));
        assert [first.documentId] + (Documents(rest) + [e.documentId]) == [first.documentId] + Documents(rest) + [e.documentId];
      }
    }
  }

  lemma NoDocuments()
    ensures Documents([]) == []
  {
  }

  /** The next file to review is the first one stored that still has a pending block and is not the excepted one. */
  lemma {:induction false} NextIsFirst(entries: seq<FileEntry>, except: Option<string>)
    ensures var next := FirstPending(entries, except);
            next.Some? ==> exists i :: 0 <= i < |entries| && entries[i] == next.value
                             && forall j :: 0 <= j < i ==> Some(entries[j].documentId) == except || !HasPending(entries[j].mods.items)
    decreases |entries|
  {
    if entries == [] {
    } else if Some(entries[0].documentId) != except && HasPending(entries[0].mods.items) {
      assert entries[0] == FirstPending(entries, except).value;
    } else {
      hide HasPending;
      NextIsFirst(entries[1..], except);
      var next := FirstPending(entries, except);
      if next.Some? {
        var i :| 0 <= i < |entries[1..]| && entries[1..][i] == next.value
                 && forall j :: 0 <= j < i ==> Some(entries[1..][j].documentId) == except || !HasPending(entries[1..][j].mods.items);
        assert entries[i + 1] == next.value;
        forall j | 0 <= j < i + 1 ensures Some(entries[j].documentId) == except || !HasPending(entries[j].mods.items) {
          if j > 0 { assert entries[j] == entries[1..][j - 1]; }
        }
      }
    }
  }

  /** A file on screen shows the entry it was opened from, whole, and is the active one. */
  lemma AppliedIsExtracted(c: Context, e: FileEntry)
    ensures Extract(Apply(c, e)) == Some(e) && Apply(c, e).activeFileId == Some(e.documentId)
    ensures Apply(c, e).entries == c.entries && Apply(c, e).mode == c.mode && Apply(c, e).isLoading == c.isLoading
  {
  }

  /** What the screen of a context shows of its file. */
  predicate SameFile(c: Context, d: Context) {
    Extract(c) == Extract(d)
  }

  /** Main result: opening another stored file and coming back shows everything as it was, and so does the other file. */
  lemma ThereAndBack(c: Context, id: string)
    requires c.documentId.Some? && c.documentId != Some(id) && Find(c.entries, id).Some?
    ensures var there := SelectFile(c, id); var back := SelectFile(there, c.documentId.value);
            && Extract(there) == Find(c.entries, id) && there.activeFileId == Some(id)
            && SameFile(back, c) && back.activeFileId == c.documentId && back.mode == c.mode && back.isLoading == c.isLoading
            && Find(back.entries, id) == Find(c.entries, id)
  {
    hide Find, Put;
    var here := c.documentId.value;
    FindAfterPut(c.entries, Extract(c).value, id);
    FindAfterPut(c.entries, Extract(c).value, here);
    var there := SelectFile(c, id);
    assert Find(there.entries, here) == Extract(c) && Find(there.entries, id) == Find(c.entries, id);
    StoredId(c.entries, id);
    FindAfterPut(there.entries, Extract(there).value, here);
    FindAfterPut(there.entries, Extract(there).value, id);
  }

  lemma StoredId(entries: seq<FileEntry>, id: string)
    ensures Find(entries, id).Some? ==> Find(entries, id).value.documentId == id
  {
  }

  // ---------------------------------------------------------------- rollback, undo and redo

  /** Everything a projection shows. */
  predicate ShowsProjection(d: Context, c: Context, p: Projection) {
    && d.mode == p.mode && d.content == p.target && d.original == p.base && d.xml == p.xml && d.mods == p.mods
    && d.snapshot == p.snapshot && d.preApplied == (if p.preApplied.Some? then p.preApplied.value else p.target)
    && d.documentId == c.documentId && d.activeFileId == c.activeFileId && d.isLoading == c.isLoading
    && d.undo == c.undo && d.redo == c.redo
  }

  lemma ProjectionShown(c: Context, p: Projection)
    ensures ShowsProjection(Project(c, p), c, p)
  {
    hide Put;
  }

  lemma RollbackShown(c: Context, t: Target, ref: nat)
    ensures var d := Rollback(c, t, ref); var before := CurrentProjection(c);
            exists e: HistoryEntry, u, r :: d.undo == u && u.items != [] && Last(u.items) == e && d.redo == r && r.items == []
              && e.projectionBefore == Some(before) && e.projectionAfter == Some(TargetProjection(c, t))
              && ShowsProjection(d, c.(undo := u, redo := r), TargetProjection(c, t))
  {
    hide Project, ShowsProjection, TargetProjection;
    var before, after := CurrentProjection(c), TargetProjection(c, t);
    var e := HistoryEntry(RollbackEntry, before.target, t.content, before.mods, t.mods, Some(before), Some(after));
    var u, r := Arr(ref, Push(c.undo.items, e)), Arr(ref + 1, []);
    ProjectionShown(c.(undo := u, redo := r), after);
    ProjectKeeps(c.(undo := u, redo := r), after);
    assert u.items != [] && Last(u.items) == e;
  }

  lemma ProjectKeeps(c: Context, p: Projection)
    ensures Project(c, p).undo == c.undo && Project(c, p).redo == c.redo
  {
    hide Put;
  }

  lemma UndoShown(c: Context, ref: nat)
    requires c.undo.items != [] && Last(c.undo.items).projectionBefore.Some?
    ensures var e, d := Last(c.undo.items), Undo(c, ref);
            && d.redo.items != [] && Last(d.redo.items) == e
            && ShowsProjection(d, c.(undo := d.undo, redo := d.redo), e.projectionBefore.value)
  {
    hide Project, ShowsProjection;
    var e := Last(c.undo.items);
    var moved := c.(undo := Arr(ref, Init(c.undo.items)), redo := Arr(ref + 1, Push(c.redo.items, e)));
    ProjectionShown(moved, e.projectionBefore.value);
    ProjectKeeps(moved, e.projectionBefore.value);
  }

  lemma RedoShown(c: Context, ref: nat)
    requires c.redo.items != [] && Last(c.redo.items).projectionAfter.Some?
    ensures var e, d := Last(c.redo.items), Redo(c, ref);
            ShowsProjection(d, c.(undo := d.undo, redo := d.redo), e.projectionAfter.value)
  {
    hide Project, ShowsProjection;
    var e := Last(c.redo.items);
    var moved := c.(redo := Arr(ref, Init(c.redo.items)), undo := Arr(ref + 1, Push(c.undo.items, e)));
    ProjectionShown(moved, e.projectionAfter.value);
    ProjectKeeps(moved, e.projectionAfter.value);
  }

  /** Main result: a rollback shows the version it went back to, and leaves the review exactly when no block is left; undoing
      it gives back what was shown and the mode, redoing it the version and its mode again. */
  lemma RollbackAndBack(c: Context, t: Target, ref: nat, ref': nat, ref'': nat)
    ensures var d := Rollback(c, t, ref);
            && d.mode == (if t.mods.items == [] then Normal else c.mode)
            && d.content == t.content && d.preApplied == t.content && d.original == t.base && d.xml == t.xml && d.mods == t.mods
            && d.snapshot == Some(t.snapshot) && d.documentId == c.documentId && d.activeFileId == c.activeFileId
            && d.isLoading == c.isLoading && d.redo.items == []
    ensures var u := Undo(Rollback(c, t, ref), ref');
            && u.mode == c.mode && u.content == c.content && u.preApplied == c.preApplied && u.original == c.original
            && u.xml == c.xml && u.mods == c.mods && u.snapshot == c.snapshot && u.documentId == c.documentId
    ensures var d := Rollback(c, t, ref); var r := Redo(Undo(d, ref'), ref'');
            && r.mode == d.mode && r.content == t.content && r.preApplied == t.content && r.original == t.base && r.xml == t.xml
            && r.mods == t.mods && r.snapshot == Some(t.snapshot) && r.documentId == c.documentId
  {
    hide Rollback, Undo, Redo;
    var d := Rollback(c, t, ref);
    RollbackShown(c, t, ref);
    UndoShown(d, ref');
    RedoShown(Undo(d, ref'), ref'');
  }

  /** Whatever a rollback, undo or redo shows is stored under the file as well. */
  lemma ShownIsStored(c: Context, t: Target, ref: nat)
    requires c.documentId.Some?
    ensures var d := Rollback(c, t, ref); Find(d.entries, c.documentId.value) == Extract(d)
    ensures c.undo.items != [] ==> var d := Undo(c, ref); Find(d.entries, c.documentId.value) == Extract(d)
    ensures c.redo.items != [] ==> var d := Redo(c, ref); Find(d.entries, c.documentId.value) == Extract(d)
  {
    hide Find, Put, Push;
    forall e: FileEntry ensures Find(Put(c.entries, e), e.documentId) == Some(e) {
      FindAfterPut(c.entries, e, e.documentId);
    }
  }

  /** Undoing or redoing a verdict keeps the review mode and changes text and verdicts only. */
  lemma VerdictMovesKeepMode(c: Context, ref: nat)
    ensures c.undo.items != [] && Last(c.undo.items).projectionBefore == None ==>
              var d, e := Undo(c, ref), Last(c.undo.items);
              && d.mode == c.mode && d.content == e.contentBefore && d.mods == e.modsBefore
              && d.original == c.original && d.xml == c.xml && d.preApplied == c.preApplied && d.snapshot == c.snapshot
    ensures c.redo.items != [] && Last(c.redo.items).projectionAfter == None ==>
              var d, e := Redo(c, ref), Last(c.redo.items);
              && d.mode == c.mode && d.content == e.contentAfter && d.mods == e.modsAfter
              && d.original == c.original && d.xml == c.xml && d.preApplied == c.preApplied && d.snapshot == c.snapshot
  {
    hide Put;
  }

  // ---------------------------------------------------------------- verdicts

  /** A verdict on a block changes the status of that block and of no other, can be undone, and cannot be redone over. */
  lemma VerdictOnOne(c: Context, id: string, script: string, ref: nat)
    requires IndexOf(c.mods.items, id).Some?
    ensures var i := IndexOf(c.mods.items, id).value; var d := DiffContext.Reject(c, id, script, ref);
            && |d.mods.items| == |c.mods.items| && d.mods.items[i] == c.mods.items[i].(status := Rejected)
            && (forall j :: 0 <= j < |c.mods.items| && j != i ==> d.mods.items[j] == c.mods.items[j])
            && d.undo.items != [] && Last(d.undo.items).contentBefore == c.content && Last(d.undo.items).modsBefore == c.mods
            && d.redo.items == [] && d.mode == c.mode && d.original == c.original
  {
    hide RebuiltContent;
  }

  /** Where accepting leads: while blocks are pending the file stays; after the last one the next file with pending blocks
      opens, in its order, or the review ends. */
  lemma AcceptLeads(c: Context, id: string, ref: nat)
    requires IndexOf(c.mods.items, id).Some?
    ensures var i := IndexOf(c.mods.items, id).value; var d := DiffContext.Accept(c, id, ref);
            var mods := c.mods.items[i := c.mods.items[i].(status := Applied, contentAtAccept := Some(c.content))];
            var next := FirstPending(c.entries, c.documentId);
            if HasPending(mods) then
              d.documentId == c.documentId && d.mode == c.mode && d.mods.items == mods && d.content == c.content
            else if next.Some? then
              d.documentId == Some(next.value.documentId) && d.mode == c.mode && Extract(d) == next
            else d.documentId == c.documentId && d.mode == Normal && d.mods.items == mods && d.content == c.content
  {
    hide HasPending, FirstPending, Push, Put;
    var i := IndexOf(c.mods.items, id).value;
    var mods := c.mods.items[i := c.mods.items[i].(status := Applied, contentAtAccept := Some(c.content))];
    if c.documentId.Some? && Find(c.entries, c.documentId.value).Some? {
      var e := Find(c.entries, c.documentId.value).value.(mods := Arr(ref, mods));
      NextIgnoresShown(c.entries, e);
    }
  }

  /** What is stored of the file on screen does not matter for the next one. */
  lemma {:induction false} NextIgnoresShown(entries: seq<FileEntry>, e: FileEntry)
    ensures FirstPending(Put(entries, e), Some(e.documentId)) == FirstPending(entries, Some(e.documentId))
    decreases |entries|
  {
    hide HasPending;
    if entries != [] {
      NextIgnoresShown(entries[1..], e);
      if entries[0].documentId == e.documentId {
        assert ([e] + entries[1..])[1..] == entries[1..];
      } else {
        assert ([entries[0]] + Put(entries[1..], e))[1..] == Put(entries[1..], e);
      }
    } else {
      assert [e][1..] == [];
    }
  }

  /** Accepting all opens the next file or ends the review, and stores the file with its verdicts and text. */
  lemma AcceptAllLeads(c: Context, ref: nat)
    ensures var d, mods := DiffContext.AcceptAll(c, ref), AcceptEach(c.mods.items, |c.mods.items|);
            var next := FirstPending(c.entries, c.documentId);
            && !d.isLoading
            && (if next.Some? then Extract(d) == next && d.activeFileId == Some(next.value.documentId) && d.mode == c.mode
                else d.documentId == c.documentId && d.mode == Normal && d.mods.items == mods && d.content == c.content)
            && (c.documentId.Some? ==>
                  var e := Find(d.entries, c.documentId.value);
                  e.Some? && e.value.content == c.content && e.value.mods.items == mods
                  && e.value.undo == c.undo && e.value.redo == c.redo && e.value.original == c.original)
  {
    hide HasPending, FirstPending, Put, Find, AcceptEach;
    if c.documentId.Some? {
      var done := c.(mods := Arr(ref, AcceptEach(c.mods.items, |c.mods.items|)), isLoading := false);
      var e := Extract(done).value;
      NextIgnoresShown(c.entries, e);
      FindAfterPut(c.entries, e, c.documentId.value);
    }
  }

  /** Rejecting all goes back to the original with every pending block rejected, as one step that can be undone. */
  lemma RejectAllLeads(c: Context, ref: nat)
    ensures var d := DiffContext.RejectAll(c, ref);
            && d.content == c.original && |d.mods.items| == |c.mods.items|
            && (forall i :: 0 <= i < |c.mods.items| ==>
                  d.mods.items[i] == if c.mods.items[i].status.Pending? then c.mods.items[i].(status := Rejected) else c.mods.items[i])
            && d.undo.items != [] && Last(d.undo.items).contentBefore == c.content && Last(d.undo.items).modsBefore == c.mods
            && d.redo.items == [] && d.mode == c.mode && d.documentId == c.documentId
  {
  }

  /** The review mode opens exactly when there is something pending, here or in a stored file; then on that file. Leaving it is
      always possible. */
  lemma ModeSwitches(c: Context)
    ensures var d := SwitchMode(c, Normal); d == c.(mode := Normal)
    ensures HasPending(c.mods.items) ==> SwitchMode(c, Diff) == c.(mode := Diff)
    ensures !HasPending(c.mods.items) ==>
              var next := FirstPending(c.entries, c.activeFileId); var d := SwitchMode(c, Diff);
              if next.Some? then d.mode == Diff && Extract(d) == next && d.activeFileId == Some(next.value.documentId) && d.entries == c.entries
              else d == c
  {
    hide HasPending, FirstPending;
  }

  // ---------------------------------------------------------------- loading and deleting

  /** A loaded file is on screen and in review, with an empty history, and stored as it is shown but for the identity of its
      lists; the file shown before is stored as it was. */
  lemma LoadShows(c: Context, a: LoadArgs, ready: Answer, other: bool, ref: nat)
    requires ready.Ready?
    ensures var d := OpenLoaded(c, a, ready, other, ref);
            && d.documentId == d.activeFileId == Some(a.document) && d.mode == Diff && d.isLoading == other
            && d.content == (if ready.rebuilt.Some? then ready.rebuilt.value
                             else if a.restoring && a.inference.Some? then a.inference.value
                             else if a.preApplied.Some? then a.preApplied.value else a.content)
            && d.original == a.content && d.mods.items == ready.mods && d.xml == ready.xml && d.undo.items == [] && d.redo.items == []
            && d.preApplied == (if a.preApplied.Some? then a.preApplied.value else "") && d.snapshot == None
            && var e := Find(d.entries, a.document);
            && e.Some? && e.value.content == d.content && e.value.original == d.original && e.value.mods == d.mods && e.value.xml == d.xml
            && e.value.preApplied == d.preApplied && e.value.undo.items == [] && e.value.redo.items == [] && e.value.snapshot == None
    ensures c.documentId.Some? && c.documentId.value != a.document && c.documentId.value !in ready.vanished ==>
              Find(OpenLoaded(c, a, ready, other, ref).entries, c.documentId.value) == Extract(c)
    ensures forall id :: id in ready.vanished && id != a.document ==> Find(OpenLoaded(c, a, ready, other, ref).entries, id) == None
  {
    hide Put, Find, Without, Sync;
    var initial := if ready.rebuilt.Some? then ready.rebuilt.value else InitialContent(a);
    var pre := if a.preApplied.Some? then a.preApplied.value else "";
    var e := FileEntry(a.document, initial, a.content, Arr(ref + 3, ready.mods), ready.xml, pre, Arr(ref + 4, []), Arr(ref + 5, []), None);
    var rest := Without(Sync(c).entries, ready.vanished);
    FindAfterPut(rest, e, a.document);
    if c.documentId.Some? {
      FindAfterPut(rest, e, c.documentId.value);
      FindWithout(Sync(c).entries, ready.vanished, c.documentId.value);
      SyncFinds(c);
    }
    forall id | id in ready.vanished && id != a.document ensures Find(OpenLoaded(c, a, ready, other, ref).entries, id) == None {
      FindAfterPut(rest, e, id);
      FindWithout(Sync(c).entries, ready.vanished, id);
    }
  }

  lemma SyncFinds(c: Context)
    requires c.documentId.Some?
    ensures Find(Sync(c).entries, c.documentId.value) == Extract(c)
  {
    FindAfterPut(c.entries, Extract(c).value, c.documentId.value);
  }

  lemma {:induction false} FindWithout(entries: seq<FileEntry>, gone: set<string>, id: string)
    ensures Find(Without(entries, gone), id) == if id in gone then None else Find(entries, id)
    decreases |entries|
  {
    if entries != [] {
      FindWithout(entries[1..], gone, id);
      var rest := Without(entries[1..], gone);
      assert entries[0].documentId !in gone ==> ([entries[0]] + rest)[1..] == rest;
    }
  }

  /** Main result: deleting the file on screen opens the first of the other files that has pending blocks, with its stored
      state and no snapshot mark; without one the screen is empty and the review over. The other files stay stored. */
  lemma DeletingTheActiveFile(c: Context, path: string, isDirectory: bool, invalidated: bool, other: bool, ref: nat)
    requires DocumentDeleted(c.documentId, path, isDirectory)
    ensures var d := DeleteFrom(c, path, isDirectory, invalidated, other, ref);
            && d.isLoading == other && d.snapshot == None
            && (forall e :: e in d.entries <==> e in Sync(c).entries && !Paths.IsPathDeleted(e.documentId, path, isDirectory))
            && (if exists e :: e in d.entries && HasPending(e.mods.items) then
                  var next := FirstPending(d.entries, None);
                  && next.Some? && d.documentId == d.activeFileId == Some(next.value.documentId) && d.mode == c.mode
                  && Extract(d) == Some(next.value.(snapshot := None))
                else d.documentId == None && d.activeFileId == None && d.mode == Normal && d.content == "" && d.mods.items == []
                     && d.undo.items == [] && d.redo.items == [])
  {
    hide Paths.IsPathDeleted, HasPending, Sync;
    var all := Sync(c).entries;
    var gone := DeletedDocuments(all, path, isDirectory);
    var kept := Without(all, gone);
    forall e | e in all ensures e.documentId in gone <==> Paths.IsPathDeleted(e.documentId, path, isDirectory) {
    }
    assert DeleteFrom(c, path, isDirectory, invalidated, other, ref).entries == kept;
  }
}
