/** The review state of one conversation context: the active file's fields at the top level, the
other files as entries, and the operations a user's verdict, undo, redo or rollback commits. */
module DiffContext {
  import opened Modifications
  import MatchRebuild

  /** An array of the program: two arrays are identical only when they are one allocation, so
      each carries the reference it was allocated under. */
  datatype Arr<T> = Arr(ref: nat, items: seq<T>)

  datatype Mode = Normal | Diff

  /** The fields a rollback swaps together. */
  datatype Projection = Projection(
    base: string,
    target: string,
    preApplied: Option<string>,
    xml: string,
    mods: Arr<Mod>,
    snapshot: Option<string>,
    mode: Mode)

  datatype EntryKind = AcceptEntry | RejectEntry | RollbackEntry

  datatype HistoryEntry = HistoryEntry(
    kind: EntryKind,
    contentBefore: string,
    contentAfter: string,
    modsBefore: Arr<Mod>,
    modsAfter: Arr<Mod>,
    projectionBefore: Option<Projection>,
    projectionAfter: Option<Projection>)

  datatype FileEntry = FileEntry(
    documentId: string,
    content: string,
    original: string,
    mods: Arr<Mod>,
    xml: string,
    preApplied: string,
    undo: Arr<HistoryEntry>,
    redo: Arr<HistoryEntry>,
    snapshot: Option<string>)

  /** `entries` keeps the insertion order of the program's map from document ids to entries. */
  datatype Context = Context(
    mode: Mode,
    documentId: Option<string>,
    content: string,
    original: string,
    mods: Arr<Mod>,
    xml: string,
    preApplied: string,
    undo: Arr<HistoryEntry>,
    redo: Arr<HistoryEntry>,
    snapshot: Option<string>,
    isLoading: bool,
    entries: seq<FileEntry>,
    activeFileId: Option<string>)

  const MAX_HISTORY_DEPTH: nat := 50

  /** No step allocates more arrays than this. */
  const REFS_PER_STEP: nat := 8

  function Empty(ref: nat): Context {
    Context(Normal, None, "", "", Arr(ref, []), "", "", Arr(ref + 1, []), Arr(ref + 2, []), None, false, [], None)
  }

  // ---------------------------------------------------------------- file entries

  function Find(entries: seq<FileEntry>, id: string): (r: Option<FileEntry>)
    ensures r.Some? ==> r.value in entries && r.value.documentId == id
    ensures r.None? ==> forall e :: e in entries ==> e.documentId != id
  {
    if entries == [] then None
    else if entries[0].documentId == id then Some(entries[0])
    else Find(entries[1..], id)
  }

  /** Replaces an entry where it stands, or adds it at the end. */
  function Put(entries: seq<FileEntry>, e: FileEntry): (r: seq<FileEntry>)
    ensures e in r
    ensures forall x :: x in r ==> x == e || x in entries
    ensures forall x :: x in entries && x.documentId != e.documentId ==> x in r
  {
    if entries == [] then [e]
    else if entries[0].documentId == e.documentId then [e] + entries[1..]
    else [entries[0]] + Put(entries[1..], e)
  }

  lemma {:induction false} FindAfterPut(entries: seq<FileEntry>, e: FileEntry, id: string)
    ensures Find(Put(entries, e), id) == if id == e.documentId then Some(e) else Find(entries, id)
    decreases |entries|
  {
    if entries != [] {
      FindAfterPut(entries[1..], e, id);
    }
  }

  function Extract(c: Context): Option<FileEntry> {
    if c.documentId == None then None
    else Some(FileEntry(c.documentId.value, c.content, c.original, c.mods, c.xml, c.preApplied, c.undo, c.redo, c.snapshot))
  }

  function Apply(c: Context, e: FileEntry): Context {
    c.(documentId := Some(e.documentId), content := e.content, original := e.original, mods := e.mods, xml := e.xml,
       preApplied := e.preApplied, undo := e.undo, redo := e.redo, activeFileId := Some(e.documentId), snapshot := e.snapshot)
  }

  function Sync(c: Context): Context {
    match Extract(c)
    case None => c
    case Some(e) => c.(entries := Put(c.entries, e))
  }

  function Project(c: Context, p: Projection): Context {
    Sync(c.(content := p.target, original := p.base,
            preApplied := if p.preApplied.Some? then p.preApplied.value else p.target,
            xml := p.xml, mods := p.mods, snapshot := p.snapshot, mode := p.mode))
  }

  predicate HasPending(mods: seq<Mod>) {
    exists m :: m in mods && m.status.Pending?
  }

  /** The first entry, in insertion order, that still waits for a verdict and is not `except`. */
  function FirstPending(entries: seq<FileEntry>, except: Option<string>): (r: Option<FileEntry>)
    ensures r.Some? ==> r.value in entries && HasPending(r.value.mods.items) && Some(r.value.documentId) != except
    ensures r.None? ==> forall e :: e in entries && Some(e.documentId) != except ==> !HasPending(e.mods.items)
  {
    if entries == [] then None
    else if Some(entries[0].documentId) != except && HasPending(entries[0].mods.items) then Some(entries[0])
    else FirstPending(entries[1..], except)
  }

  // ---------------------------------------------------------------- verdicts

  function IndexOf(mods: seq<Mod>, id: string): (r: Option<nat>)
    ensures r.Some? ==> r.value < |mods| && mods[r.value].id == id
    ensures r.None? ==> forall m :: m in mods ==> m.id != id
  {
    if mods == [] then None
    else if mods[0].id == id then Some(0)
    else match IndexOf(mods[1..], id) case None => None case Some(i) => Some(i + 1)
  }

  /** History is cut at the old end. */
  function Push(stack: seq<HistoryEntry>, e: HistoryEntry): seq<HistoryEntry> {
    var longer := stack + [e];
    if |longer| > MAX_HISTORY_DEPTH then longer[1..] else longer
  }

  /** Commits new content and verdicts as one undoable step; redo is lost. */
  function Commit(c: Context, kind: EntryKind, content: string, mods: Arr<Mod>, ref: nat): Context {
    var e := HistoryEntry(kind, c.content, content, c.mods, mods, None, None);
    c.(content := content, mods := mods, undo := Arr(ref, Push(c.undo.items, e)), redo := Arr(ref + 1, []))
  }

  /** After the last verdict the next file with pending blocks is opened, or the review mode ends. The entry
      kept for this file gets the new verdicts but keeps the content it was last stored with. */
  function FinishByAccept(c: Context): Context {
    if HasPending(c.mods.items) then c
    else
      var entries := match c.documentId
        case None => c.entries
        case Some(id) => (match Find(c.entries, id)
          case None => c.entries
          case Some(stored) => Put(c.entries, stored.(mods := c.mods)));
      match FirstPending(entries, c.documentId)
      case Some(next) => Apply(c.(entries := entries), next)
      case None => c.(mode := Normal, entries := entries)
  }

  function Accept(c: Context, id: string, ref: nat): Context {
    match IndexOf(c.mods.items, id)
    case None => c
    case Some(i) =>
      var mods := c.mods.items[i := c.mods.items[i].(status := Applied, contentAtAccept := Some(c.content))];
      FinishByAccept(Commit(c, AcceptEntry, c.content, Arr(ref, mods), ref + 1))
  }

  /** The content a rejection rebuilds: by line ranges when every block was placed, else `fallback`. */
  function RebuiltContent(original: string, mods: seq<Mod>, fallback: string): string {
    if AllPlaced(mods) then MatchRebuild.Rebuilt(original, mods) else fallback
  }

  function Reject(c: Context, id: string, fallback: string, ref: nat): Context {
    match IndexOf(c.mods.items, id)
    case None => c
    case Some(i) =>
      var mods := c.mods.items[i := c.mods.items[i].(status := Rejected)];
      Commit(c, RejectEntry, RebuiltContent(c.original, mods, fallback), Arr(ref, mods), ref + 1)
  }

  function Settle(mods: seq<Mod>, verdict: Status): (r: seq<Mod>)
    ensures |r| == |mods|
    ensures forall i :: 0 <= i < |mods| ==> r[i] == if mods[i].status.Pending? then mods[i].(status := verdict) else mods[i]
  {
    seq(|mods|, i requires 0 <= i < |mods| => if mods[i].status.Pending? then mods[i].(status := verdict) else mods[i])
  }

  /** Accepts the pending ones among the first `n` blocks one by one. Each is looked up again by its id, so the
      verdict goes to the first block with that id. */
  function AcceptEach(mods: seq<Mod>, n: nat): (r: seq<Mod>)
    requires n <= |mods|
    ensures |r| == |mods|
  {
    if n == 0 then mods
    else
      var before, m := AcceptEach(mods, n - 1), mods[n - 1];
      if !m.status.Pending? then before
      else
        match IndexOf(before, m.id)
        case None => before
        case Some(i) => before[i := m.(status := Applied)]
  }

  /** A search by id reaches every pending block: none has the id of a block before it. */
  predicate PendingReachable(mods: seq<Mod>) {
    forall i, j :: 0 <= j < i < |mods| && mods[i].status.Pending? ==> mods[j].id != mods[i].id
  }

  lemma {:induction false} IndexOfFirst(mods: seq<Mod>, id: string)
    ensures var i := IndexOf(mods, id); i.Some? ==> forall j :: 0 <= j < i.value ==> mods[j].id != id
  {
    if mods != [] && mods[0].id != id {
      IndexOfFirst(mods[1..], id);
      assert forall j :: 0 < j < |mods| ==> mods[j] == mods[1..][j - 1];
    }
  }

  /** The blocks at the start of `mods`, in their places, are settled; a block with an id that occurred before is as it
      was. */
  predicate SettledUpTo(mods: seq<Mod>, updated: seq<Mod>, n: nat) {
    && |updated| == |mods|
    && (forall i :: 0 <= i < |mods| ==> updated[i].id == mods[i].id)
    && (forall i, j :: 0 <= j < i < |mods| && mods[j].id == mods[i].id ==> updated[i] == mods[i])
    && (PendingReachable(mods) ==>
          forall i :: 0 <= i < |mods| ==> updated[i] == if i < n && mods[i].status.Pending? then mods[i].(status := Applied) else mods[i])
  }

  lemma SettleNext(mods: seq<Mod>, updated: seq<Mod>, n: nat)
    requires SettledUpTo(mods, updated, n) && n < |mods|
    ensures mods[n].status.Pending? ==>
              var i := IndexOf(updated, mods[n].id);
              i.Some? && SettledUpTo(mods, updated[i.value := mods[n].(status := Applied)], n + 1)
    ensures !mods[n].status.Pending? ==> SettledUpTo(mods, updated, n + 1)
  {
    hide IndexOf;
    IndexOfFirst(updated, mods[n].id);
    assert updated[n].id == mods[n].id;
  }

  lemma {:induction false} AcceptEachSettles(mods: seq<Mod>, n: nat)
    requires n <= |mods|
    ensures SettledUpTo(mods, AcceptEach(mods, n), n)
    decreases n
  {
    if n > 0 {
      AcceptEachSettles(mods, n - 1);
      hide SettledUpTo;
      SettleNext(mods, AcceptEach(mods, n - 1), n - 1);
    }
  }

  /** Exactly the pending blocks are accepted if and only if none of them has the id of a block before it. */
  lemma AcceptAllSettles(mods: seq<Mod>)
    ensures AcceptEach(mods, |mods|) == Settle(mods, Applied) <==> PendingReachable(mods)
  {
    hide AcceptEach;
    AcceptEachSettles(mods, |mods|);
    if !PendingReachable(mods) {
      var i, j :| 0 <= j < i < |mods| && mods[i].status.Pending? && mods[j].id == mods[i].id;
      assert AcceptEach(mods, |mods|)[i] == mods[i] && Settle(mods, Applied)[i].status == Applied;
    }
  }

  /** Of two pending blocks with one id the second stays pending. */
  lemma SharedIdStaysPending()
    ensures var first := Mod("m", Replace, Some("x"), true, 1, 1, Pending, None);
            var second := Mod("m", Replace, Some("y"), true, 2, 2, Pending, None);
            var r := AcceptEach([first, second], 2);
            r[0] == second.(status := Applied) && r[1] == second
  {
    var first := Mod("m", Replace, Some("x"), true, 1, 1, Pending, None);
    var second := Mod("m", Replace, Some("y"), true, 2, 2, Pending, None);
    var mods := [first, second];
    assert AcceptEach(mods, 0) == mods;
    assert AcceptEach(mods, 1) == [first.(status := Applied), second];
  }

  /** Accepts every pending block; no history entry is pushed. */
  function AcceptAll(c: Context, ref: nat): Context {
    var mods := Arr(ref, AcceptEach(c.mods.items, |c.mods.items|));
    var done := c.(mods := mods, isLoading := false);
    var entries := Sync(done).entries;
    match FirstPending(entries, c.documentId)
    case Some(next) => Apply(done.(entries := entries), next)
    case None => done.(mode := Normal, entries := entries)
  }

  function RejectAll(c: Context, ref: nat): Context {
    Commit(c, RejectEntry, c.original, Arr(ref, Settle(c.mods.items, Rejected)), ref + 1)
  }

  // ---------------------------------------------------------------- undo, redo, rollback

  function Last(stack: seq<HistoryEntry>): HistoryEntry
    requires stack != []
  {
    stack[|stack| - 1]
  }

  function Init(stack: seq<HistoryEntry>): seq<HistoryEntry>
    requires stack != []
  {
    stack[..|stack| - 1]
  }

  function Undo(c: Context, ref: nat): Context {
    if c.undo.items == [] then c
    else
      var e := Last(c.undo.items);
      var moved := c.(undo := Arr(ref, Init(c.undo.items)), redo := Arr(ref + 1, Push(c.redo.items, e)));
      match e.projectionBefore
      case Some(p) => Project(moved, p)
      case None => Sync(moved.(content := e.contentBefore, mods := e.modsBefore))
  }

  function Redo(c: Context, ref: nat): Context {
    if c.redo.items == [] then c
    else
      var e := Last(c.redo.items);
      var moved := c.(redo := Arr(ref, Init(c.redo.items)), undo := Arr(ref + 1, Push(c.undo.items, e)));
      match e.projectionAfter
      case Some(p) => Project(moved, p)
      case None => Sync(moved.(content := e.contentAfter, mods := e.modsAfter))
  }

  /** What a rollback found out before it commits: the snapshot's text and the blocks that lead to it. */
  datatype Target = Target(snapshot: string, content: string, base: string, xml: string, mods: Arr<Mod>)

  function CurrentProjection(c: Context): Projection {
    Projection(c.original, c.content, Some(c.preApplied), c.xml, c.mods, c.snapshot, c.mode)
  }

  function TargetProjection(c: Context, t: Target): Projection {
    Projection(t.base, t.content, Some(t.content), t.xml, t.mods, Some(t.snapshot), if t.mods.items == [] then Normal else c.mode)
  }

  /** A rollback whose history entry records `before` as the state it left. */
  function RollbackFrom(c: Context, before: Projection, t: Target, ref: nat): Context {
    var after := TargetProjection(c, t);
    var e := HistoryEntry(RollbackEntry, before.target, t.content, before.mods, t.mods, Some(before), Some(after));
    Project(c.(undo := Arr(ref, Push(c.undo.items, e)), redo := Arr(ref + 1, [])), after)
  }

  function Rollback(c: Context, t: Target, ref: nat): Context {
    RollbackFrom(c, CurrentProjection(c), t, ref)
  }

  function SelectFile(c: Context, id: string): Context {
    match Find(c.entries, id)
    case None => c
    case Some(target) => Apply(Sync(c), target)
  }
}
