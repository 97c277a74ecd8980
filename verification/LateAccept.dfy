/** Accepting the last block of a file completes it only after the file was written and its records were updated. Here the
two halves stand apart; the second one works on whatever its context shows by then. */
module LateAccept {
  import opened Modifications
  import opened DiffContext
  import opened DiffProtocol
  import Scenarios

  /** An accept that waits to complete its file, with the blocks of that file. */
  datatype WaitingAccept = WaitingAccept(context: string, mods: Arr<Mod>)

  /** The verdict itself; the completion follows only when no block is left pending. */
  function StartAccept(s: Store, context: string, id: string): (Store, Option<WaitingAccept>) {
    if context !in s.contexts || IndexOf(s.contexts[context].mods.items, id) == None then (s, None)
    else
      var c, ref := s.contexts[context], s.nextRef + REFS_PER_STEP;
      var i := IndexOf(c.mods.items, id).value;
      var mods := Arr(ref, c.mods.items[i := c.mods.items[i].(status := Applied, contentAtAccept := Some(c.content))]);
      (Set(s, context, Commit(c, AcceptEntry, c.content, mods, ref + 1)),
       if HasPending(mods.items) then None else Some(WaitingAccept(context, mods)))
  }

  /** Stores the blocks under the file shown now, and opens the next file with pending blocks or ends the review. */
  function Completed(c: Context, mods: Arr<Mod>): Context {
    var stored := if c.documentId.Some? then Find(c.entries, c.documentId.value) else None;
    var entries := if stored.Some? then Put(c.entries, stored.value.(mods := mods)) else c.entries;
    match FirstPending(entries, c.documentId)
    case Some(next) => Apply(c.(entries := entries), next)
    case None => c.(mode := Normal, entries := entries, mods := mods)
  }

  function FinishAccept(s: Store, w: WaitingAccept): Store {
    Set(s, w.context, Completed(ContextOf(s, w.context), w.mods))
  }

  /** With nothing in between the two halves are the step of the protocol. */
  lemma UninterruptedAcceptIsEdit(s: Store, context: string, id: string)
    ensures var (t, w) := StartAccept(s, context, id);
            (if w.Some? then FinishAccept(t, w.value) else t) == EditContext(s, context, Edit.Accept(id))
  {
    hide Put, FirstPending, HasPending, Push;
    if context in s.contexts {
      assert s.contexts[context := s.contexts[context]] == s.contexts;
    }
  }

  /** Main result: completing late does what completing the file shown now would if and only if the blocks are those shown
      now, or nothing is pending there, the file has no entry, and another one is next. */
  lemma LateAcceptExactly(c: Context, mods: Arr<Mod>)
    requires !HasPending(mods.items)
    ensures Completed(c, mods) == FinishByAccept(c) <==>
            || mods == c.mods
            || (!HasPending(c.mods.items) && (c.documentId == None || Find(c.entries, c.documentId.value) == None)
                && FirstPending(c.entries, c.documentId).Some?)
  {
    hide Put, Find, FirstPending, HasPending;
    var stored := if c.documentId.Some? then Find(c.entries, c.documentId.value) else None;
    if stored.Some? {
      FindAfterPut(c.entries, stored.value.(mods := mods), c.documentId.value);
      FindAfterPut(c.entries, stored.value.(mods := c.mods), c.documentId.value);
    }
  }

  /** Whichever file with an entry is open by then, its entry gets the blocks of the accepted one. */
  lemma StoredUnderShown(c: Context, mods: Arr<Mod>)
    requires c.documentId.Some? && Find(c.entries, c.documentId.value).Some?
    ensures var e := Find(Completed(c, mods).entries, c.documentId.value);
            e == Some(Find(c.entries, c.documentId.value).value.(mods := mods))
  {
    hide Put, Find, FirstPending;
    FindAfterPut(c.entries, Find(c.entries, c.documentId.value).value.(mods := mods), c.documentId.value);
  }

  // ---------------------------------------------------------------- a run from the empty store

  const FIRST_FILE := Ready([Scenarios.FIRST], "", None, {})
  const OTHER_FILE := Ready([Scenarios.SECOND], "", None, {})

  /** A file of one block right after it was loaded. */
  function Loaded(): System {
    Run(Initially(), Scenarios.LoadEvents(0, Scenarios.FILE, FIRST_FILE))
  }

  /** Its block was accepted, and before that completes another file is loaded. */
  function OtherLoaded(): System {
    Run(Loaded().(store := StartAccept(Loaded().store, "c", "p").0), Scenarios.LoadEvents(1, Scenarios.OTHER, OTHER_FILE))
  }

  predicate OneEntry(c: Context, m: Mod) {
    && c.documentId == Some("A") && c.mods.items == [m]
    && |c.entries| == 1 && c.entries[0].documentId == "A"
  }

  lemma LoadedShows()
    ensures Scenarios.Calm(Loaded()) && Loaded().nextTask == 1 && "c" in Loaded().store.contexts
    ensures OneEntry(Loaded().store.contexts["c"], Scenarios.FIRST)
  {
    hide Run, Scenarios.Calm;
    assert Scenarios.Calm(Initially()) by { CalmAtFirst(); }
    Scenarios.LoadPlays(Initially(), Scenarios.FILE, FIRST_FILE);
  }

  lemma CalmAtFirst()
    ensures Scenarios.Calm(Initially())
  {
  }

  /** The other file opens beside the accepted one. */
  lemma OpensBeside(c: Context, m: Mod, ref: nat)
    requires OneEntry(c, m) && !m.status.Pending?
    ensures var d := OpenLoaded(c, Scenarios.OTHER, OTHER_FILE, false, ref);
            && d.documentId == Some("B") && Find(d.entries, "B").Some?
            && forall x: FileEntry :: x.documentId == "B" ==> FirstPending(Put(d.entries, x), Some("B")) == None
  {
    hide FirstPending, HasPending;
    var a := Extract(c).value;
    assert c.entries == [c.entries[0]];
    assert Put(c.entries, a) == [a] by { assert [a] + c.entries[1..] == [a]; }
    assert Without([a], {}) == [a] by { assert [a][1..] == []; }
    var b := FileEntry("B", "", "", Arr(ref + 3, [Scenarios.SECOND]), "", "", Arr(ref + 4, []), Arr(ref + 5, []), None);
    assert OpenLoaded(c, Scenarios.OTHER, OTHER_FILE, false, ref).entries == [a, b] by { assert [a][1..] == [] && Put([], b) == [b]; }
    forall x: FileEntry | x.documentId == "B" ensures FirstPending(Put([a, b], x), Some("B")) == None {
      NothingNext(a, b, x, m);
    }
  }

  lemma NothingNext(a: FileEntry, b: FileEntry, x: FileEntry, m: Mod)
    requires a.documentId == "A" && a.mods.items == [m] && !m.status.Pending? && b.documentId == x.documentId == "B"
    ensures FirstPending(Put([a, b], x), Some("B")) == None
  {
    assert [a, b][1..] == [b] && Put([b], x) == [x] && Put([a, b], x) == [a, x];
    assert [a, x][1..] == [x] && [x][1..] == [];
    assert !HasPending(a.mods.items);
  }

  /** Main result: completing the accepted file takes the other one's place: it is on screen with the accepted blocks for its
      own, which waited for a verdict, and the review is over. */
  lemma OtherFileOverwrittenHere()
    ensures var w := StartAccept(Loaded().store, "c", "p").1; var s := OtherLoaded().store;
            && w.Some? && "c" in s.contexts && s.contexts["c"].documentId == Some("B") && s.contexts["c"].mods.items == [Scenarios.SECOND]
            && var c := FinishAccept(s, w.value).contexts["c"];
            && c.documentId == Some("B") && c.mode == Normal
            && c.mods == w.value.mods && c.mods.items == [Scenarios.FIRST.(status := Applied, contentAtAccept := Some("x\ny"))]
            && Find(c.entries, "B").Some? && Find(c.entries, "B").value.mods == c.mods
  {
    hide Run, Loaded, OpenLoaded, Find, Put, FirstPending, Scenarios.Calm;
    LoadedShows();
    LoadedContent();
    var y := Loaded();
    var (t, w) := StartAccept(y.store, "c", "p");
    var accepted := Scenarios.FIRST.(status := Applied, contentAtAccept := Some("x\ny"));
    assert [Scenarios.FIRST][0 := accepted] == [accepted];
    assert w.Some? && w.value.mods.items == [accepted];
    var y' := y.(store := t);
    CalmStays(y, t);
    Scenarios.LoadPlays(y', Scenarios.OTHER, OTHER_FILE);
    var c := t.contexts["c"].(isLoading := true);
    OpensBeside(c, accepted, y'.store.nextRef + 4 * REFS_PER_STEP);
    var d := OtherLoaded().store.contexts["c"];
    assert d == OpenLoaded(c, Scenarios.OTHER, OTHER_FILE, false, y'.store.nextRef + 4 * REFS_PER_STEP);
    assert d.mods.items == [Scenarios.SECOND] by { OpensWith(c, y'.store.nextRef + 4 * REFS_PER_STEP); }
    StoredUnderShown(d, w.value.mods);
  }

  lemma OpensWith(c: Context, ref: nat)
    ensures OpenLoaded(c, Scenarios.OTHER, OTHER_FILE, false, ref).mods.items == [Scenarios.SECOND]
  {
    hide Put, Without, Sync;
  }

  lemma LoadedContent()
    ensures "c" in Loaded().store.contexts && Loaded().store.contexts["c"].content == "x\ny"
  {
    hide Run, Scenarios.Calm, Put, Without;
    CalmAtFirst();
    Scenarios.LoadPlays(Initially(), Scenarios.FILE, FIRST_FILE);
  }

  lemma CalmStays(y: System, s: Store)
    requires Scenarios.Calm(y) && s.markers == y.store.markers && s.active == y.store.active
    ensures Scenarios.Calm(y.(store := s))
  {
  }
}
