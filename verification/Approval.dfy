/** Approval is confluent: on the matched-range path the file always reads as the rebuild of its
original under the current verdicts, whatever the order of verdicts, undos and redos. */
module Approval {
  import opened Lines
  import opened Modifications
  import opened DiffContext
  import opened MatchRebuild

  datatype Op = Accept(id: string) | Reject(id: string, fallback: string) | AcceptAll | Undo | Redo

  function Do(c: Context, op: Op, ref: nat): Context {
    match op
    case Accept(id) => DiffContext.Accept(c, id, ref)
    case Reject(id, fallback) => DiffContext.Reject(c, id, fallback, ref)
    case AcceptAll => DiffContext.AcceptAll(c, ref)
    case Undo => DiffContext.Undo(c, ref)
    case Redo => DiffContext.Redo(c, ref)
  }

  function Run(c: Context, ops: seq<Op>, ref: nat): Context
    decreases |ops|
  {
    if ops == [] then c else Run(Do(c, ops[0], ref), ops[1..], ref + REFS_PER_STEP)
  }

  /** A single accept is aimed at a block that is not rejected: accepting a rejected block would flip its
      verdict without rebuilding the file, and the viewer offers the button on pending blocks only. Accepting
      everything finds the blocks by their ids, so these have to lead to them. */
  predicate Open(c: Context, op: Op) {
    match op
    case Accept(id) => var i := IndexOf(c.mods.items, id); i.Some? ==> !c.mods.items[i.value].status.Rejected?
    case AcceptAll => PendingReachable(c.mods.items)
    case _ => true
  }

  /** The operation does not open another file; other files may wait for verdicts. */
  predicate Stays(c: Context, op: Op, ref: nat) {
    Do(c, op, ref).documentId == c.documentId
  }

  /** A review of one file: every operation is open to it and none leaves the file. */
  predicate OnFile(c: Context, ops: seq<Op>, ref: nat)
    decreases |ops|
  {
    ops != [] ==>
      Open(c, ops[0]) && Stays(c, ops[0], ref) && OnFile(Do(c, ops[0], ref), ops[1..], ref + REFS_PER_STEP)
  }

  // ---------------------------------------------------------------- the invariant

  /** What never changes while one file is under review: its original text and the blocks themselves. */
  datatype Basis = Basis(file: string, original: string, shapes: seq<Mod>)

  predicate Reads(b: Basis, content: string, mods: seq<Mod>) {
    Shapes(mods) == b.shapes && content == Rebuilt(b.original, mods)
  }

  predicate EntryReads(b: Basis, e: HistoryEntry) {
    && e.projectionBefore == None && e.projectionAfter == None
    && Reads(b, e.contentBefore, e.modsBefore.items)
    && Reads(b, e.contentAfter, e.modsAfter.items)
  }

  predicate StackReads(b: Basis, stack: seq<HistoryEntry>) {
    forall e :: e in stack ==> EntryReads(b, e)
  }

  /** The file on screen reads as the rebuild of its original under the verdicts, now and at every point
      undo or redo can lead to. Nothing is asked of the other files. */
  predicate Coherent(b: Basis, c: Context) {
    && c.documentId == Some(b.file) && c.original == b.original
    && AllPlaced(b.shapes)
    && Reads(b, c.content, c.mods.items)
    && StackReads(b, c.undo.items) && StackReads(b, c.redo.items)
  }

  lemma PlacedByShape(mods: seq<Mod>)
    requires AllPlaced(Shapes(mods))
    ensures AllPlaced(mods)
  {
    forall m | m in mods ensures Placed(m) {
      var i :| 0 <= i < |mods| && mods[i] == m;
      assert Shapes(mods)[i] in Shapes(mods);
    }
  }

  /** A new verdict on one block leaves the blocks what they are. */
  lemma VerdictKeepsShapes(mods: seq<Mod>, i: nat, m: Mod)
    requires i < |mods| && Shape(m) == Shape(mods[i])
    ensures Shapes(mods[i := m]) == Shapes(mods)
  {
  }

  lemma PushReads(b: Basis, stack: seq<HistoryEntry>, e: HistoryEntry)
    requires StackReads(b, stack) && EntryReads(b, e)
    ensures StackReads(b, Push(stack, e))
  {
  }

  lemma CommitCoherent(b: Basis, c: Context, kind: EntryKind, content: string, mods: Arr<Mod>, ref: nat)
    requires Coherent(b, c) && Reads(b, content, mods.items)
    ensures Coherent(b, Commit(c, kind, content, mods, ref))
  {
    PushReads(b, c.undo.items, HistoryEntry(kind, c.content, content, c.mods, mods, None, None));
  }

  lemma FinishCoherent(b: Basis, c: Context)
    requires Coherent(b, c) && FinishByAccept(c).documentId == c.documentId
    ensures Coherent(b, FinishByAccept(c))
  {
    hide Put, Find;
  }

  lemma AcceptCoherent(b: Basis, c: Context, id: string, ref: nat)
    requires Coherent(b, c) && Open(c, Accept(id)) && Stays(c, Accept(id), ref)
    ensures Coherent(b, DiffContext.Accept(c, id, ref))
  {
    var found := IndexOf(c.mods.items, id);
    if found.Some? {
      var i := found.value;
      var m := c.mods.items[i].(status := Applied, contentAtAccept := Some(c.content));
      var mods := c.mods.items[i := m];
      VerdictKeepsShapes(c.mods.items, i, m);
      assert Verdicts(mods) == Verdicts(c.mods.items);
      RebuildSeesOnlyRejections(b.original, mods, c.mods.items);
      CommitCoherent(b, c, AcceptEntry, c.content, Arr(ref, mods), ref + 1);
      FinishCoherent(b, Commit(c, AcceptEntry, c.content, Arr(ref, mods), ref + 1));
    }
  }

  lemma RejectCoherent(b: Basis, c: Context, id: string, fallback: string, ref: nat)
    requires Coherent(b, c)
    ensures Coherent(b, DiffContext.Reject(c, id, fallback, ref))
  {
    var found := IndexOf(c.mods.items, id);
    if found.Some? {
      var i := found.value;
      var m := c.mods.items[i].(status := Rejected);
      var mods := c.mods.items[i := m];
      VerdictKeepsShapes(c.mods.items, i, m);
      PlacedByShape(mods);
      CommitCoherent(b, c, RejectEntry, Rebuilt(b.original, mods), Arr(ref, mods), ref + 1);
    }
  }

  lemma AcceptAllCoherent(b: Basis, c: Context, ref: nat)
    requires Coherent(b, c) && Open(c, AcceptAll) && Stays(c, AcceptAll, ref)
    ensures Coherent(b, DiffContext.AcceptAll(c, ref))
  {
    hide Put, AcceptEach;
    var mods := Settle(c.mods.items, Applied);
    AcceptAllSettles(c.mods.items);
    assert Shapes(mods) == Shapes(c.mods.items);
    assert Verdicts(mods) == Verdicts(c.mods.items);
    RebuildSeesOnlyRejections(b.original, mods, c.mods.items);
  }

  lemma UndoCoherent(b: Basis, c: Context, ref: nat)
    requires Coherent(b, c)
    ensures Coherent(b, DiffContext.Undo(c, ref))
  {
    if c.undo.items != [] {
      PushReads(b, c.redo.items, Last(c.undo.items));
    }
  }

  lemma RedoCoherent(b: Basis, c: Context, ref: nat)
    requires Coherent(b, c)
    ensures Coherent(b, DiffContext.Redo(c, ref))
  {
    if c.redo.items != [] {
      PushReads(b, c.undo.items, Last(c.redo.items));
    }
  }

  /** Main result: along any run of verdicts, undos and redos on one file the content stays the rebuild, whatever
      other files wait for. */
  lemma {:induction false} RunStaysCoherent(b: Basis, c: Context, ops: seq<Op>, ref: nat)
    requires Coherent(b, c) && OnFile(c, ops, ref)
    ensures Coherent(b, Run(c, ops, ref))
    decreases |ops|
  {
    if ops != [] {
      match ops[0] {
        case Accept(id) => AcceptCoherent(b, c, id, ref);
        case Reject(id, fallback) => RejectCoherent(b, c, id, fallback, ref);
        case AcceptAll => AcceptAllCoherent(b, c, ref);
        case Undo => UndoCoherent(b, c, ref);
        case Redo => RedoCoherent(b, c, ref);
      }
      RunStaysCoherent(b, Do(c, ops[0], ref), ops[1..], ref + REFS_PER_STEP);
    }
  }

  /** Confluence: two runs that end with the same blocks rejected end with the same file. */
  lemma ApprovalIsConfluent(b: Basis, c: Context, ops1: seq<Op>, ops2: seq<Op>, ref1: nat, ref2: nat)
    requires Coherent(b, c) && OnFile(c, ops1, ref1) && OnFile(c, ops2, ref2)
    requires Verdicts(Run(c, ops1, ref1).mods.items) == Verdicts(Run(c, ops2, ref2).mods.items)
    ensures Run(c, ops1, ref1).content == Run(c, ops2, ref2).content
  {
    RunStaysCoherent(b, c, ops1, ref1);
    RunStaysCoherent(b, c, ops2, ref2);
    RebuildSeesOnlyRejections(b.original, Run(c, ops1, ref1).mods.items, Run(c, ops2, ref2).mods.items);
  }

  /** Rejecting every block one by one, in any order and with any detours, ends at the text a single
      reject-all restores exactly when the original does not mix line endings. */
  lemma RejectingOneByOneMeetsRejectAll(b: Basis, c: Context, ops: seq<Op>, ref: nat)
    requires Coherent(b, c) && OnFile(c, ops, ref)
    requires forall m :: m in Run(c, ops, ref).mods.items ==> m.status.Rejected?
    ensures Run(c, ops, ref).content == RejectAll(c, ref).content <==> UniformEndings(b.original)
  {
    RunStaysCoherent(b, c, ops, ref);
    RejectingAllRestores(b.original, Run(c, ops, ref).mods.items);
  }

  /** Reject-all itself keeps the file coherent exactly for uniform line endings, provided every block
      that already has a verdict was rejected. */
  lemma RejectAllCoherent(b: Basis, c: Context, ref: nat)
    requires Coherent(b, c)
    requires forall m :: m in c.mods.items ==> m.status.Pending? || m.status.Rejected?
    ensures Coherent(b, RejectAll(c, ref)) <==> UniformEndings(b.original)
  {
    var mods := Settle(c.mods.items, Rejected);
    assert forall m :: m in mods ==> m.status.Rejected?;
    RejectingAllRestores(b.original, mods);
    assert Shapes(mods) == Shapes(c.mods.items);
    if UniformEndings(b.original) {
      CommitCoherent(b, c, RejectEntry, b.original, Arr(ref, mods), ref + 1);
    }
  }

  // ---------------------------------------------------------------- where the code drops a verdict

  /** Opens the other file and comes back. */
  function ReopenAfter(c: Context): Context
    requires c.documentId.Some?
  {
    SelectFile(FinishByAccept(c), c.documentId.value)
  }

  /** When the last verdict of a file is a single accept and another file is next, coming back to the
      first file shows the new verdicts but the content it was last stored with. */
  lemma ReopenedShowsStored(c: Context, stored: FileEntry)
    requires c.documentId.Some? && !HasPending(c.mods.items) && Find(c.entries, c.documentId.value) == Some(stored)
    requires FirstPending(Put(c.entries, stored.(mods := c.mods)), c.documentId).Some?
    ensures ReopenAfter(c).documentId == c.documentId && ReopenAfter(c).mods == c.mods && ReopenAfter(c).content == stored.content
  {
    var file := c.documentId.value;
    var kept := stored.(mods := c.mods);
    var entries := Put(c.entries, kept);
    FindAfterPut(c.entries, kept, file);
    var next := FirstPending(entries, c.documentId).value;
    assert next.documentId != file;
    var switched := FinishByAccept(c);
    assert switched == Apply(c.(entries := entries), next);
    FindAfterPut(switched.entries, Extract(switched).value, file);
  }

  /** The entry kept for the file on screen has its content. */
  predicate Synced(c: Context) {
    && c.documentId.Some?
    && var stored := Find(c.entries, c.documentId.value);
    && stored.Some? && stored.value.content == c.content
  }

  lemma SyncSyncs(c: Context)
    requires c.documentId.Some?
    ensures Synced(Sync(c))
  {
    hide Find, Put;
    FindAfterPut(c.entries, Extract(c).value, c.documentId.value);
  }

  lemma ProjectSyncs(c: Context, p: Projection)
    requires c.documentId.Some?
    ensures Synced(Project(c, p))
  {
    hide Synced, Sync;
    SyncSyncs(c.(content := p.target, original := p.base,
                 preApplied := if p.preApplied.Some? then p.preApplied.value else p.target,
                 xml := p.xml, mods := p.mods, snapshot := p.snapshot, mode := p.mode));
  }

  lemma SelectSyncs(c: Context, id: string)
    requires Find(c.entries, id).Some? && c.documentId != Some(id)
    ensures Synced(SelectFile(c, id))
  {
    hide Find, Put;
    if c.documentId.Some? {
      FindAfterPut(c.entries, Extract(c).value, id);
    }
  }

  /** Selecting the file that is already open takes the screen back to its entry, while the entry gets what was on
      screen: the two agree afterwards exactly when they did before. */
  lemma ReselectingReverts(c: Context, id: string)
    requires c.documentId == Some(id) && Find(c.entries, id).Some?
    ensures var d := SelectFile(c, id); var stored := Find(c.entries, id).value;
            && d.content == stored.content && d.mods == stored.mods && d.undo == stored.undo && d.redo == stored.redo
            && Find(d.entries, id) == Extract(c)
            && (Synced(d) <==> Synced(c))
  {
    hide Find, Put;
    FindAfterPut(c.entries, Extract(c).value, id);
  }

  /** Selecting another file, undoing and redoing bring the entry up to date. */
  lemma SyncPoints(c: Context, id: string, ref: nat)
    ensures Find(c.entries, id).Some? && c.documentId != Some(id) ==> Synced(SelectFile(c, id))
    ensures c.documentId.Some? && c.undo.items != [] ==> Synced(DiffContext.Undo(c, ref))
    ensures c.documentId.Some? && c.redo.items != [] ==> Synced(DiffContext.Redo(c, ref))
  {
    hide Find, Put, Push, Sync, Synced, SelectFile, Project;
    if Find(c.entries, id).Some? && c.documentId != Some(id) {
      SelectSyncs(c, id);
    }
    forall d: Context | d.documentId.Some? ensures Synced(Sync(d)) {
      SyncSyncs(d);
    }
    forall d: Context, p | d.documentId.Some? ensures Synced(Project(d, p)) {
      ProjectSyncs(d, p);
    }
  }

  predicate IsVerdict(op: Op) {
    op.Accept? || op.Reject?
  }

  /** Single verdicts leave the stored content alone. */
  lemma VerdictKeepsStored(c: Context, op: Op, ref: nat, content: string)
    requires IsVerdict(op) && Stays(c, op, ref) && c.documentId.Some?
    requires Find(c.entries, c.documentId.value).Some? && Find(c.entries, c.documentId.value).value.content == content
    ensures var d := Do(c, op, ref);
            Find(d.entries, c.documentId.value).Some? && Find(d.entries, c.documentId.value).value.content == content
  {
    hide Find, Put, RebuiltContent, Push;
    var file := c.documentId.value;
    if op.Accept? && IndexOf(c.mods.items, op.id).Some? {
      var stored := Find(c.entries, file).value;
      forall mods ensures Find(Put(c.entries, stored.(mods := mods)), file) == Some(stored.(mods := mods)) {
        FindAfterPut(c.entries, stored.(mods := mods), file);
      }
    }
  }

  lemma {:induction false} VerdictsKeepStored(c: Context, ops: seq<Op>, ref: nat, content: string)
    requires (forall op :: op in ops ==> IsVerdict(op)) && OnFile(c, ops, ref) && c.documentId.Some?
    requires Find(c.entries, c.documentId.value).Some? && Find(c.entries, c.documentId.value).value.content == content
    ensures var d := Run(c, ops, ref);
            && d.documentId == c.documentId
            && Find(d.entries, c.documentId.value).Some? && Find(d.entries, c.documentId.value).value.content == content
    decreases |ops|
  {
    if ops != [] {
      hide Do, Open, Find;
      VerdictKeepsStored(c, ops[0], ref, content);
      VerdictsKeepStored(Do(c, ops[0], ref), ops[1..], ref + REFS_PER_STEP, content);
    }
  }

  /** Main result: review a file by single verdicts from a point where its entry was up to date, accept the last block
      so that another file opens, and come back. All verdicts are there, but the text fits them if and only if the
      file rebuilds under the verdicts of now as it did under those of that point. */
  lemma FinishingByAcceptKeepsContent(b: Basis, c: Context, ops: seq<Op>, id: string, ref: nat, ref': nat)
    requires Coherent(b, c) && Synced(c) && OnFile(c, ops, ref) && forall op :: op in ops ==> IsVerdict(op)
    requires var d := Run(c, ops, ref); Open(d, Accept(id)) && !Stays(d, Accept(id), ref')
    ensures var d := Run(c, ops, ref);
            var back := SelectFile(DiffContext.Accept(d, id, ref'), b.file);
            && back.documentId == Some(b.file) && Verdicts(back.mods.items) == Verdicts(d.mods.items)
            && (Reads(b, back.content, back.mods.items) <==>
                  Rebuilt(b.original, d.mods.items) == Rebuilt(b.original, c.mods.items))
  {
    hide Find, Put, Rebuilt, Coherent;
    RunStaysCoherent(b, c, ops, ref);
    CoherentReads(b, c);
    VerdictsKeepStored(c, ops, ref, c.content);
    var d := Run(c, ops, ref);
    CoherentReads(b, d);
    var i := IndexOf(d.mods.items, id).value;
    var m := d.mods.items[i].(status := Applied, contentAtAccept := Some(d.content));
    var mods := d.mods.items[i := m];
    VerdictKeepsShapes(d.mods.items, i, m);
    assert Verdicts(mods) == Verdicts(d.mods.items);
    RebuildSeesOnlyRejections(b.original, mods, d.mods.items);
    ReopenedShowsStored(Commit(d, AcceptEntry, d.content, Arr(ref', mods), ref' + 1), Find(d.entries, b.file).value);
  }

  lemma CoherentReads(b: Basis, c: Context)
    requires Coherent(b, c)
    ensures c.documentId == Some(b.file) && Reads(b, c.content, c.mods.items)
  {
  }

  /** So nothing is lost unless a block was rejected since. */
  lemma NoRejectionNothingLost(b: Basis, c: Context, d: Context)
    requires Coherent(b, c) && Coherent(b, d) && Verdicts(c.mods.items) == Verdicts(d.mods.items)
    ensures Rebuilt(b.original, d.mods.items) == Rebuilt(b.original, c.mods.items)
  {
    RebuildSeesOnlyRejections(b.original, c.mods.items, d.mods.items);
  }
}
