/** The undo and redo stacks: they never outgrow their bound together, their entries chain, and
undoing then redoing any number of steps is the identity on what the user sees. */
module History {
  import opened Modifications
  import opened DiffContext

  /** Everything a history entry can restore; the review mode is not part of it. */
  datatype Look = Look(base: string, content: string, preApplied: string, xml: string, mods: Arr<Mod>, snapshot: Option<string>)

  function LookOf(c: Context): Look {
    Look(c.original, c.content, c.preApplied, c.xml, c.mods, c.snapshot)
  }

  function Shown(p: Projection): Look {
    Look(p.base, p.target, if p.preApplied.Some? then p.preApplied.value else p.target, p.xml, p.mods, p.snapshot)
  }

  function Before(e: HistoryEntry, l: Look): Look {
    match e.projectionBefore
    case Some(p) => Shown(p)
    case None => l.(content := e.contentBefore, mods := e.modsBefore)
  }

  function After(e: HistoryEntry, l: Look): Look {
    match e.projectionAfter
    case Some(p) => Shown(p)
    case None => l.(content := e.contentAfter, mods := e.modsAfter)
  }

  /** An entry whose plain fields agree with its projections and that carries both or none. */
  predicate WellFormed(e: HistoryEntry) {
    && (e.projectionBefore.Some? <==> e.projectionAfter.Some?)
    && (e.projectionBefore.Some? ==> e.projectionBefore.value.target == e.contentBefore && e.projectionBefore.value.mods == e.modsBefore)
    && (e.projectionAfter.Some? ==> e.projectionAfter.value.target == e.contentAfter && e.projectionAfter.value.mods == e.modsAfter)
  }

  /** Undoing from `l` finds, entry by entry, exactly the look each entry left behind. */
  predicate UndoChain(l: Look, stack: seq<HistoryEntry>)
    decreases |stack|
  {
    stack != [] ==>
      var e := Last(stack);
      WellFormed(e) && After(e, l) == l && UndoChain(Before(e, l), Init(stack))
  }

  predicate RedoChain(l: Look, stack: seq<HistoryEntry>)
    decreases |stack|
  {
    stack != [] ==>
      var e := Last(stack);
      WellFormed(e) && Before(e, l) == l && RedoChain(After(e, l), Init(stack))
  }

  predicate Sound(c: Context) {
    && |c.undo.items| + |c.redo.items| <= 50
    && UndoChain(LookOf(c), c.undo.items)
    && RedoChain(LookOf(c), c.redo.items)
  }

  // ---------------------------------------------------------------- operations within one file

  datatype Op = Accept(id: string) | Reject(id: string, fallback: string) | RejectAll | Rollback(target: Target) | Undo | Redo

  function Do(c: Context, op: Op, ref: nat): Context {
    match op
    case Accept(id) => DiffContext.Accept(c, id, ref)
    case Reject(id, fallback) => DiffContext.Reject(c, id, fallback, ref)
    case RejectAll => DiffContext.RejectAll(c, ref)
    case Rollback(t) => DiffContext.Rollback(c, t, ref)
    case Undo => DiffContext.Undo(c, ref)
    case Redo => DiffContext.Redo(c, ref)
  }

  function Run(c: Context, ops: seq<Op>, ref: nat): Context
    decreases |ops|
  {
    if ops == [] then c else Run(Do(c, ops[0], ref), ops[1..], ref + REFS_PER_STEP)
  }

  /** No operation of the run opens another file. */
  predicate StaysOnFile(c: Context, ops: seq<Op>, ref: nat)
    decreases |ops|
  {
    ops != [] ==>
      && Do(c, ops[0], ref).documentId == c.documentId
      && StaysOnFile(Do(c, ops[0], ref), ops[1..], ref + REFS_PER_STEP)
  }

  // ---------------------------------------------------------------- every operation keeps it

  lemma {:induction false} UndoChainDropsOldest(l: Look, stack: seq<HistoryEntry>)
    requires UndoChain(l, stack) && stack != []
    ensures UndoChain(l, stack[1..])
    decreases |stack|
  {
    if |stack| > 1 {
      UndoChainDropsOldest(Before(Last(stack), l), Init(stack));
      assert Init(stack)[1..] == Init(stack[1..]);
    }
  }

  /** The newest fifty steps are kept, the new one on top; only the oldest of a full stack is forgotten. */
  lemma PushKeepsFifty(stack: seq<HistoryEntry>, e: HistoryEntry)
    requires |stack| <= 50
    ensures Push(stack, e) == if |stack| < 50 then stack + [e] else stack[1..] + [e]
  {
    if |stack| == 50 { assert (stack + [e])[1..] == stack[1..] + [e]; }
  }

  /** A new step on top of a sound history. */
  lemma CommitSound(c: Context, d: Context, e: HistoryEntry)
    requires Sound(c) && WellFormed(e)
    requires Before(e, LookOf(d)) == LookOf(c) && After(e, LookOf(d)) == LookOf(d)
    requires d.undo.items == Push(c.undo.items, e) && d.redo.items == []
    ensures Sound(d)
  {
    var longer := c.undo.items + [e];
    assert Init(longer) == c.undo.items;
    assert UndoChain(LookOf(d), longer);
    UndoChainDropsOldest(LookOf(d), longer);
  }

  lemma VerdictSound(c: Context, kind: EntryKind, content: string, mods: Arr<Mod>, ref: nat)
    requires Sound(c)
    ensures Sound(Commit(c, kind, content, mods, ref))
  {
    CommitSound(c, Commit(c, kind, content, mods, ref), HistoryEntry(kind, c.content, content, c.mods, mods, None, None));
  }

  /** Opening another file shows as a change of document: the file that was left is never the next one. */
  lemma FinishStaysSound(c: Context)
    requires Sound(c) && FinishByAccept(c).documentId == c.documentId
    ensures Sound(FinishByAccept(c))
  {
  }

  lemma RollbackSound(c: Context, t: Target, ref: nat)
    requires Sound(c)
    ensures Sound(DiffContext.Rollback(c, t, ref))
  {
    var before := CurrentProjection(c);
    var after := TargetProjection(c, t);
    var e := HistoryEntry(RollbackEntry, before.target, t.content, before.mods, t.mods, Some(before), Some(after));
    CommitSound(c, DiffContext.Rollback(c, t, ref), e);
  }

  /** Undo moves one entry across and shows what that entry recorded as its start; the bound on both
      stacks together means the other stack is never cut. */
  lemma UndoSound(c: Context, ref: nat)
    requires Sound(c) && c.undo.items != []
    ensures var d := DiffContext.Undo(c, ref);
            && Sound(d)
            && LookOf(d) == Before(Last(c.undo.items), LookOf(c))
            && d.undo.items == Init(c.undo.items)
            && d.redo.items == c.redo.items + [Last(c.undo.items)]
  {
    var e := Last(c.undo.items);
    hide Put;
    var d := DiffContext.Undo(c, ref);
    assert Push(c.redo.items, e) == c.redo.items + [e];
    assert Init(c.redo.items + [e]) == c.redo.items;
    assert After(e, LookOf(d)) == LookOf(c);
  }

  lemma RedoSound(c: Context, ref: nat)
    requires Sound(c) && c.redo.items != []
    ensures var d := DiffContext.Redo(c, ref);
            && Sound(d)
            && LookOf(d) == After(Last(c.redo.items), LookOf(c))
            && d.redo.items == Init(c.redo.items)
            && d.undo.items == c.undo.items + [Last(c.redo.items)]
  {
    var e := Last(c.redo.items);
    hide Put;
    var d := DiffContext.Redo(c, ref);
    assert Push(c.undo.items, e) == c.undo.items + [e];
    assert Init(c.undo.items + [e]) == c.undo.items;
    assert Before(e, LookOf(d)) == LookOf(c);
  }

  lemma OpSound(c: Context, op: Op, ref: nat)
    requires Sound(c) && Do(c, op, ref).documentId == c.documentId
    ensures Sound(Do(c, op, ref))
  {
    match op
    case Accept(id) =>
      var found := IndexOf(c.mods.items, id);
      if found.Some? {
        var mods := c.mods.items[found.value := c.mods.items[found.value].(status := Applied, contentAtAccept := Some(c.content))];
        VerdictSound(c, AcceptEntry, c.content, Arr(ref, mods), ref + 1);
        FinishStaysSound(Commit(c, AcceptEntry, c.content, Arr(ref, mods), ref + 1));
      }
    case Reject(id, fallback) =>
      var found := IndexOf(c.mods.items, id);
      if found.Some? {
        var mods := c.mods.items[found.value := c.mods.items[found.value].(status := Rejected)];
        VerdictSound(c, RejectEntry, RebuiltContent(c.original, mods, fallback), Arr(ref, mods), ref + 1);
      }
    case RejectAll => VerdictSound(c, RejectEntry, c.original, Arr(ref, Settle(c.mods.items, Rejected)), ref + 1);
    case Rollback(t) => RollbackSound(c, t, ref);
    case Undo => if c.undo.items != [] { UndoSound(c, ref); }
    case Redo => if c.redo.items != [] { RedoSound(c, ref); }
  }

  /** Accepting all blocks is no step of the history: no entry leads to its verdicts, so the stacks still chain exactly when
      there are no entries at all. */
  lemma AcceptAllSoundExactly(c: Context, ref: nat)
    requires Sound(c) && ref != c.mods.ref && DiffContext.AcceptAll(c, ref).documentId == c.documentId
    ensures Sound(DiffContext.AcceptAll(c, ref)) <==> c.undo.items == [] && c.redo.items == []
  {
    hide Put, AcceptEach;
    var d := DiffContext.AcceptAll(c, ref);
    assert d.mods.ref == ref && d.undo == c.undo && d.redo == c.redo;
    if c.undo.items != [] {
      assert LookOf(c).mods == After(Last(c.undo.items), LookOf(c)).mods;
      assert After(Last(c.undo.items), LookOf(d)).mods == LookOf(c).mods;
    }
    if c.redo.items != [] {
      assert Before(Last(c.redo.items), LookOf(c)).mods == LookOf(c).mods;
      assert Before(Last(c.redo.items), LookOf(d)).mods == LookOf(c).mods;
    }
  }

  /** Main result: in every run on one file the two stacks together stay within the bound and chain. */
  lemma {:induction false} RunStaysSound(c: Context, ops: seq<Op>, ref: nat)
    requires Sound(c) && StaysOnFile(c, ops, ref)
    ensures Sound(Run(c, ops, ref))
    decreases |ops|
  {
    if ops != [] {
      OpSound(c, ops[0], ref);
      RunStaysSound(Do(c, ops[0], ref), ops[1..], ref + REFS_PER_STEP);
    }
  }

  /** The chain, read off the stack: each entry starts where the one below it ended, and the newest
      ends at what is shown now. */
  lemma {:induction false} EntriesChain(l: Look, stack: seq<HistoryEntry>)
    requires UndoChain(l, stack)
    ensures stack != [] ==> Last(stack).contentAfter == l.content && Last(stack).modsAfter == l.mods
    ensures forall i :: 0 <= i < |stack| - 1 ==>
              stack[i].contentAfter == stack[i + 1].contentBefore && stack[i].modsAfter == stack[i + 1].modsBefore
    decreases |stack|
  {
    if stack != [] {
      EntriesChain(Before(Last(stack), l), Init(stack));
      forall i | 0 <= i < |stack| - 1
        ensures stack[i].contentAfter == stack[i + 1].contentBefore && stack[i].modsAfter == stack[i + 1].modsBefore
      {
        if i < |stack| - 2 {
          assert Init(stack)[i] == stack[i] && Init(stack)[i + 1] == stack[i + 1];
        } else {
          assert Last(Init(stack)) == stack[i];
        }
      }
    }
  }

  // ---------------------------------------------------------------- k undos, then k redos

  function Undos(c: Context, k: nat, ref: nat): Context
    decreases k
  {
    if k == 0 then c else Undos(DiffContext.Undo(c, ref), k - 1, ref + REFS_PER_STEP)
  }

  function Redos(c: Context, k: nat, ref: nat): Context
    decreases k
  {
    if k == 0 then c else DiffContext.Redo(Redos(c, k - 1, ref + REFS_PER_STEP), ref)
  }

  /** The same screen and the same history; only array identities and the review mode may differ. */
  predicate Same(c: Context, d: Context) {
    LookOf(c) == LookOf(d) && c.undo.items == d.undo.items && c.redo.items == d.redo.items
  }

  /** Redo takes back what undo did, also from a state that only looks like the undone one. */
  lemma RedoAfterUndo(c: Context, r: Context, ref: nat, ref': nat)
    requires Sound(c) && c.undo.items != []
    requires Same(r, DiffContext.Undo(c, ref))
    ensures Same(DiffContext.Redo(r, ref'), c)
  {
    UndoSound(c, ref);
    var e := Last(c.undo.items);
    assert Init(c.redo.items + [e]) == c.redo.items;
    assert Init(c.undo.items) + [e] == c.undo.items;
    RedoSound(r, ref');
  }

  /** Main result: k undos followed by k redos give back the content, the blocks, the bases and both stacks. */
  lemma {:induction false} UndosThenRedos(c: Context, k: nat, ref: nat, ref': nat)
    requires Sound(c) && k <= |c.undo.items|
    ensures Same(Redos(Undos(c, k, ref), k, ref'), c)
    decreases k
  {
    hide DiffContext.Undo, DiffContext.Redo, Same, Sound, Undos, Redos;
    if k == 0 {
      NoMoves(c, ref, ref');
    } else {
      UndoSound(c, ref);
      var d := DiffContext.Undo(c, ref);
      UndosThenRedos(d, k - 1, ref + REFS_PER_STEP, ref' + REFS_PER_STEP);
      OneMore(c, k, ref, ref');
      RedoAfterUndo(c, Redos(Undos(c, k, ref), k - 1, ref' + REFS_PER_STEP), ref, ref');
    }
  }

  lemma NoMoves(c: Context, ref: nat, ref': nat)
    ensures Undos(c, 0, ref) == c && Redos(c, 0, ref') == c && Same(c, c)
  {
  }

  lemma OneMore(c: Context, k: nat, ref: nat, ref': nat)
    requires k > 0
    ensures Undos(c, k, ref) == Undos(DiffContext.Undo(c, ref), k - 1, ref + REFS_PER_STEP)
    ensures var u := Undos(c, k, ref); Redos(u, k, ref') == DiffContext.Redo(Redos(u, k - 1, ref' + REFS_PER_STEP), ref')
  {
    hide DiffContext.Undo, DiffContext.Redo;
  }
}
