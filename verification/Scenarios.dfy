/** Runs of the whole protocol, from the empty store, that end where the code is not exact: a rejection lost from the
screen, a history entry that records a review mode the file had already left, and two texts for one verdict. */
module Scenarios {
  import opened Modifications
  import opened DiffContext
  import opened DiffProtocol
  import Approval
  import MatchRebuild
  import MyersRebuild
  import Lines

  lemma {:induction false} RunAppend(y: System, a: seq<Event>, b: seq<Event>)
    ensures Run(y, a + b) == Run(Run(y, a), b)
    decreases |a|
  {
    if a == [] {
      assert a + b == b;
    } else {
      hide Next;
      assert (a + b)[1..] == a[1..] + b;
      RunAppend(Next(y, a[0]), a[1..], b);
    }
  }

  // ---------------------------------------------------------------- loading a file

  /** Nothing is loading, deleted or waiting under a number still to be given out. */
  predicate Calm(y: System) {
    y.store.markers == [] && y.store.active == map[] && forall id :: id in y.tasks ==> id < y.nextTask
  }

  function LoadEvents(id: nat, a: LoadArgs, ready: Answer): seq<Event> {
    [StartLoad(a), Resume(id, Continue), Resume(id, ready)]
  }

  /** A file that is not on disk, loaded for the first time. */
  predicate Plain(a: LoadArgs, ready: Answer) {
    ready.Ready? && ':' !in a.document && !a.restoring
  }

  function Opened(y: System, a: LoadArgs, ready: Answer): Context
    requires ready.Ready?
  {
    OpenLoaded(ContextOf(y.store, a.context).(isLoading := true), a, ready, false, y.store.nextRef + 4 * REFS_PER_STEP)
  }

  lemma Started(y: System, a: LoadArgs)
    requires Calm(y)
    ensures var z := Next(y, StartLoad(a)); var key := Key(a.context, a.document);
            && z.tasks == y.tasks[y.nextTask := LoadTask(Load(a, Count(y.store.loads, key) + 1, Yielded))] && z.nextTask == y.nextTask + 1
            && z.store.active == map[key := Count(y.store.loads, key) + 1] && z.store.markers == []
            && IsLatestLoad(z.store, key, Count(y.store.loads, key) + 1)
            && z.store.contexts == y.store.contexts[a.context := ContextOf(y.store, a.context).(isLoading := true)]
            && z.store.nextRef == y.store.nextRef + 2 * REFS_PER_STEP
  {
    hide ContextOf, InitialContent;
  }

  lemma Yields(y: System, id: nat, l: Load)
    requires id in y.tasks && y.tasks[id] == LoadTask(l) && l.at == Yielded && IsLatestLoad(y.store, LoadKey(l), l.gen)
    requires y.store.markers == [] && ':' !in l.args.document && !l.args.restoring
    ensures var z := Next(y, Resume(id, Continue));
            && z.tasks == y.tasks[id := LoadTask(l.(at := Working))] && z.nextTask == y.nextTask
            && z.store == Renumber(y.store, y.store.nextRef + 2 * REFS_PER_STEP)
  {
  }

  lemma Commits(y: System, id: nat, l: Load, ready: Answer)
    requires id in y.tasks && y.tasks[id] == LoadTask(l) && l.at == Working && IsLatestLoad(y.store, LoadKey(l), l.gen)
    requires ready.Ready? && y.store.active == map[LoadKey(l) := l.gen] && l.args.context in y.store.contexts
    ensures var z := Next(y, Resume(id, ready));
            && z.tasks == y.tasks - {id} && z.nextTask == y.nextTask && z.store.markers == y.store.markers && z.store.active == map[]
            && z.store.contexts == y.store.contexts[l.args.context :=
                 OpenLoaded(y.store.contexts[l.args.context], l.args, ready, false, y.store.nextRef)]
            && z.store.nextRef == y.store.nextRef + 2 * REFS_PER_STEP
  {
    hide OpenLoaded;
    assert !OtherLoadRegistered(y.store, LoadKey(l), l.gen);
  }

  lemma LoadPlays(y: System, a: LoadArgs, ready: Answer)
    requires Calm(y) && Plain(a, ready)
    ensures var z := Run(y, LoadEvents(y.nextTask, a, ready));
            && Calm(z) && z.tasks == y.tasks && z.nextTask == y.nextTask + 1
            && z.store.contexts == y.store.contexts[a.context := Opened(y, a, ready)]
  {
    hide Next, OpenLoaded, ContextOf, IsLatestLoad;
    var id, events := y.nextTask, LoadEvents(y.nextTask, a, ready);
    var l := Load(a, Count(y.store.loads, Key(a.context, a.document)) + 1, Yielded);
    Started(y, a);
    var y1 := Next(y, events[0]);
    Yields(y1, id, l);
    var y2 := Next(y1, events[1]);
    LatestIgnoresNumber(y1.store, y2.store, LoadKey(l), l.gen);
    Commits(y2, id, l.(at := Working), ready);
    var y3 := Next(y2, events[2]);
    assert events[1..] == [Resume(id, Continue), Resume(id, ready)] && events[1..][1..] == [Resume(id, ready)];
    assert Run(y2, [Resume(id, ready)]) == y3;
    assert Run(y1, events[1..]) == y3;
    assert y3.tasks == y.tasks;
  }

  lemma LatestIgnoresNumber(s: Store, t: Store, key: Key, gen: nat)
    requires t.loads == s.loads
    ensures IsLatestLoad(s, key, gen) <==> IsLatestLoad(t, key, gen)
  {
  }

  lemma EditPlays(y: System, context: string, e: Edit)
    requires context in y.store.contexts
    ensures var z := Next(y, EditEvent(context, e));
            && z.tasks == y.tasks && z.nextTask == y.nextTask && z.store.markers == y.store.markers && z.store.active == y.store.active
            && z.store.contexts == y.store.contexts[context := Edited(y.store.contexts[context], e, y.store.nextRef + REFS_PER_STEP)]
  {
    hide Edited;
  }

  // ---------------------------------------------------------------- a rejection lost from the screen

  lemma {:induction false} WithoutNothing(entries: seq<FileEntry>)
    ensures Without(entries, {}) == entries
  {
    if entries != [] {
      WithoutNothing(entries[1..]);
      assert entries == [entries[0]] + entries[1..];
    }
  }

  /** Two blocks of one file, both waiting. */
  predicate TwoPending(ready: Answer, p: Mod, q: Mod) {
    && ready.Ready? && ready.mods == [p, q] && ready.vanished == {} && ready.rebuilt == None
    && p.id != q.id && p.status.Pending? && q.status.Pending?
  }

  /** The entry of the first file after the second one was opened. */
  lemma OpeningKeepsEntry(c: Context, a: LoadArgs, ready: Answer, ref: nat, id: string)
    requires ready.Ready? && ready.vanished == {} && c.documentId == Some(id) && a.document != id
    ensures var d := OpenLoaded(c, a, ready, false, ref);
            && Find(d.entries, id) == Extract(c) && d.documentId == Some(a.document) && d.mods.items == ready.mods
  {
    hide Find, Put, Without;
    WithoutNothing(Sync(c).entries);
    FindAfterPut(c.entries, Extract(c).value, id);
    var initial := if ready.rebuilt.Some? then ready.rebuilt.value else InitialContent(a);
    var pre := if a.preApplied.Some? then a.preApplied.value else "";
    var e := FileEntry(a.document, initial, a.content, Arr(ref + 3, ready.mods), ready.xml, pre, Arr(ref + 4, []), Arr(ref + 5, []), None);
    FindAfterPut(Sync(c).entries, e, id);
  }

  /** Selecting the first file again shows its entry and keeps the second one as an entry with its blocks. */
  lemma SelectingBack(c: Context, id: string, stored: FileEntry)
    requires Find(c.entries, id) == Some(stored) && c.documentId.Some? && c.documentId != Some(id)
    ensures var d := SelectFile(c, id);
            && Extract(d) == Some(stored) && Find(d.entries, id) == Some(stored)
            && Find(d.entries, c.documentId.value) == Extract(c)
  {
    hide Find, Put;
    FindAfterPut(c.entries, Extract(c).value, id);
    FindAfterPut(c.entries, Extract(c).value, c.documentId.value);
    StoredUnderId(c.entries, id);
  }

  lemma StoredUnderId(entries: seq<FileEntry>, id: string)
    ensures Find(entries, id).Some? ==> Find(entries, id).value.documentId == id
  {
  }

  lemma PendingIsNext(entries: seq<FileEntry>, id: string, except: string)
    requires id != except && Find(entries, id).Some? && HasPending(Find(entries, id).value.mods.items)
    ensures FirstPending(entries, Some(except)).Some?
  {
    hide HasPending;
    assert Find(entries, id).value in entries;
  }

  lemma RejectFirst(c: Context, p: Mod, q: Mod, script: seq<MyersRebuild.EditOp>, ref: nat)
    requires c.mods.items == [p, q]
    ensures var d := Edited(c, Edit.Reject(p.id, script), ref);
            && d.mods.items == [p.(status := Rejected), q]
            && d.documentId == c.documentId && d.original == c.original && d.entries == c.entries
  {
    hide RejectedByScript, RebuiltContent, Push;
    assert IndexOf([p, q], p.id) == Some(0);
  }

  lemma AcceptSecond(c: Context, p: Mod, q: Mod, ref: nat)
    requires c.mods.items == [p, q] && p.id != q.id && !p.status.Pending?
    ensures exists d :: Edited(c, Edit.Accept(q.id), ref) == FinishByAccept(d)
              && d.documentId == c.documentId && d.original == c.original && d.entries == c.entries
              && d.mods.items == [p, q.(status := Applied, contentAtAccept := Some(c.content))] && !HasPending(d.mods.items)
  {
    hide FinishByAccept, Push;
    SecondFound(p, q);
    var mods := [p, q.(status := Applied, contentAtAccept := Some(c.content))];
    NothingPending(mods);
    var d := Commit(c, AcceptEntry, c.content, Arr(ref, mods), ref + 1);
    assert [p, q][1 := mods[1]] == mods;
    assert Edited(c, Edit.Accept(q.id), ref) == FinishByAccept(d);
  }

  /** Rejecting one block, accepting the other and coming back: the verdicts are there, the text is the old one. */
  lemma LastVerdictsLost(c: Context, p: Mod, q: Mod, script: seq<MyersRebuild.EditOp>, other: string, ref: nat, ref': nat)
    requires c.documentId.Some? && c.documentId != Some(other) && c.mods.items == [p, q]
    requires p.id != q.id && p.status.Pending? && q.status.Pending?
    requires Find(c.entries, c.documentId.value) == Extract(c)
    requires Find(c.entries, other).Some? && HasPending(Find(c.entries, other).value.mods.items)
    ensures var d := Edited(Edited(c, Edit.Reject(p.id, script), ref), Edit.Accept(q.id), ref');
            var back := SelectFile(d, c.documentId.value);
            && back.documentId == c.documentId && back.original == c.original && back.content == c.content
            && |back.mods.items| == 2 && back.mods.items[0] == p.(status := Rejected)
            && Shape(back.mods.items[1]) == Shape(q) && back.mods.items[1].status == Applied
  {
    hide Edited, Find, Put, FirstPending, HasPending, FinishByAccept, SelectFile;
    RejectFirst(c, p, q, script, ref);
    var c1 := Edited(c, Edit.Reject(p.id, script), ref);
    AcceptSecond(c1, p.(status := Rejected), q, ref');
    var d :| Edited(c1, Edit.Accept(q.id), ref') == FinishByAccept(d)
      && d.documentId == c.documentId && d.original == c.original && d.entries == c.entries
      && d.mods.items == [p.(status := Rejected), q.(status := Applied, contentAtAccept := Some(c1.content))] && !HasPending(d.mods.items);
    var stored := Extract(c).value;
    FindAfterPut(c.entries, stored.(mods := d.mods), other);
    PendingIsNext(Put(c.entries, stored.(mods := d.mods)), other, c.documentId.value);
    Reopened(d, stored);
  }

  lemma SecondFound(p: Mod, q: Mod)
    requires p.id != q.id
    ensures IndexOf([p, q], q.id) == Some(1)
  {
    assert [p, q][1..] == [q];
  }

  lemma NothingPending(mods: seq<Mod>)
    requires |mods| == 2 && !mods[0].status.Pending? && !mods[1].status.Pending?
    ensures !HasPending(mods)
  {
  }

  lemma Reopened(c: Context, stored: FileEntry)
    requires c.documentId.Some? && !HasPending(c.mods.items) && Find(c.entries, c.documentId.value) == Some(stored)
    requires FirstPending(Put(c.entries, stored.(mods := c.mods)), c.documentId).Some?
    ensures var d := SelectFile(FinishByAccept(c), c.documentId.value);
            && d.documentId == c.documentId && d.mods == c.mods && d.content == stored.content && d.original == stored.original
  {
    hide Find, Put, FirstPending, HasPending;
    var file := c.documentId.value;
    var entries := Put(c.entries, stored.(mods := c.mods));
    StoredUnderId(c.entries, file);
    FindAfterPut(c.entries, stored.(mods := c.mods), file);
    var next := FirstPending(entries, c.documentId).value;
    var switched := FinishByAccept(c);
    assert switched == Apply(c.(entries := entries), next);
    FindAfterPut(switched.entries, Extract(switched).value, file);
  }

  function ReviewEvents(context: string, document: string, p: Mod, q: Mod, script: seq<MyersRebuild.EditOp>): seq<Event> {
    [EditEvent(context, Select(document)), EditEvent(context, Edit.Reject(p.id, script)),
     EditEvent(context, Edit.Accept(q.id)), EditEvent(context, Select(document))]
  }

  lemma ReviewPlays(y: System, context: string, document: string, p: Mod, q: Mod, script: seq<MyersRebuild.EditOp>)
    requires context in y.store.contexts
    ensures var z := Run(y, ReviewEvents(context, document, p, q, script));
            exists ref, ref' :: context in z.store.contexts && z.store.contexts[context] ==
              SelectFile(Edited(Edited(SelectFile(y.store.contexts[context], document), Edit.Reject(p.id, script), ref), Edit.Accept(q.id), ref'),
                         document)
  {
    hide Next, Edited, SelectFile;
    var events := ReviewEvents(context, document, p, q, script);
    EditPlays(y, context, events[0].edit);
    var y1 := Next(y, events[0]);
    EditPlays(y1, context, events[1].edit);
    var y2 := Next(y1, events[1]);
    EditPlays(y2, context, events[2].edit);
    var y3 := Next(y2, events[2]);
    EditPlays(y3, context, events[3].edit);
    var y4 := Next(y3, events[3]);
    FourSteps(y, events);
    forall c: Context, ref: nat ensures Edited(c, Select(document), ref) == SelectFile(c, document) {
      SelectIsEdit(c, document, ref);
    }
    assert y4.store.contexts[context] ==
      SelectFile(Edited(Edited(SelectFile(y.store.contexts[context], document), Edit.Reject(p.id, script), y1.store.nextRef + REFS_PER_STEP),
                        Edit.Accept(q.id), y2.store.nextRef + REFS_PER_STEP), document);
  }

  lemma SelectIsEdit(c: Context, document: string, ref: nat)
    ensures Edited(c, Select(document), ref) == SelectFile(c, document)
  {
    hide SelectFile;
  }

  lemma FourSteps(y: System, events: seq<Event>)
    requires |events| == 4
    ensures Run(y, events) == Next(Next(Next(Next(y, events[0]), events[1]), events[2]), events[3])
  {
    hide Next;
    assert events[1..][1..] == events[2..] && events[2..][1..] == events[3..] && events[3..][1..] == [];
    var y1 := Next(y, events[0]);
    var y2 := Next(y1, events[1]);
    var y3 := Next(y2, events[2]);
    assert Run(y3, events[3..]) == Next(y3, events[3]);
    assert Run(y2, events[2..]) == Run(y3, events[3..]);
    assert Run(y1, events[1..]) == Run(y2, events[2..]);
  }

  /** Main result: load a file with two blocks, load another one, go back, reject the first block, accept the second,
      go back again: the file shows both verdicts and the text it had before them. */
  lemma RejectionLost(a: LoadArgs, ready: Answer, p: Mod, q: Mod, b: LoadArgs, readyB: Answer, script: seq<MyersRebuild.EditOp>)
    requires Plain(a, ready) && TwoPending(ready, p, q)
    requires Plain(b, readyB) && readyB.vanished == {} && HasPending(readyB.mods)
    requires a.context == b.context && a.document != b.document
    ensures var events := LoadEvents(0, a, ready) + LoadEvents(1, b, readyB) + ReviewEvents(a.context, a.document, p, q, script);
            var z := Run(Initially(), events);
            && a.context in z.store.contexts
            && var c := z.store.contexts[a.context];
            && c.documentId == Some(a.document) && c.original == a.content && c.content == InitialContent(a)
            && |c.mods.items| == 2 && c.mods.items[0] == p.(status := Rejected)
            && Shape(c.mods.items[1]) == Shape(q) && c.mods.items[1].status == Applied
  {
    hide Run, Next, OpenLoaded, Edited, SelectFile, Find, HasPending, ContextOf;
    var y0 := Initially();
    LoadPlays(y0, a, ready);
    var y1 := Run(y0, LoadEvents(0, a, ready));
    LoadPlays(y1, b, readyB);
    var y2 := Run(y1, LoadEvents(1, b, readyB));
    RunAppend(y0, LoadEvents(0, a, ready), LoadEvents(1, b, readyB));
    RunAppend(y0, LoadEvents(0, a, ready) + LoadEvents(1, b, readyB), ReviewEvents(a.context, a.document, p, q, script));
    ReviewPlays(y2, a.context, a.document, p, q, script);
    var c1 := Opened(y0, a, ready);
    KnownContext(y1.store, b.context);
    FirstOpened(y0, a, ready, p, q);
    var loading := c1.(isLoading := true);
    OpeningKeepsEntry(loading, b, readyB, y1.store.nextRef + 4 * REFS_PER_STEP, a.document);
    var c2 := Opened(y1, b, readyB);
    assert y2.store.contexts[a.context] == c2;
    SelectingBack(c2, a.document, Extract(loading).value);
    var c3 := SelectFile(c2, a.document);
    forall ref, ref' ensures var d := SelectFile(Edited(Edited(c3, Edit.Reject(p.id, script), ref), Edit.Accept(q.id), ref'), a.document);
                             && d.documentId == Some(a.document) && d.original == a.content && d.content == InitialContent(a)
                             && |d.mods.items| == 2 && d.mods.items[0] == p.(status := Rejected)
                             && Shape(d.mods.items[1]) == Shape(q) && d.mods.items[1].status == Applied
    {
      LastVerdictsLost(c3, p, q, script, b.document, ref, ref');
    }
  }

  lemma KnownContext(s: Store, context: string)
    ensures context in s.contexts ==> ContextOf(s, context) == s.contexts[context]
  {
  }

  lemma FirstOpened(y: System, a: LoadArgs, ready: Answer, p: Mod, q: Mod)
    requires TwoPending(ready, p, q)
    ensures var c := Opened(y, a, ready);
            c.documentId == Some(a.document) && c.original == a.content && c.content == InitialContent(a) && c.mods.items == [p, q]
  {
    hide Put, Without, Sync, ContextOf;
  }

  /** With a two-line file that text is not the one the verdicts stand for. */
  lemma LostRejectionShows()
    ensures var p := Mod("p", Replace, Some("x"), true, 1, 1, Status.Rejected, None);
            var q := Mod("q", Replace, Some("y"), true, 2, 2, Applied, None);
            MatchRebuild.Rebuilt("a\nb", [p, q]) == "a\ny" && MatchRebuild.Rebuilt("a\nb", [p.(status := Pending), q.(status := Pending)]) == "x\ny"
  {
    var p := Mod("p", Replace, Some("x"), true, 1, 1, Status.Rejected, None);
    var q := Mod("q", Replace, Some("y"), true, 2, 2, Applied, None);
    hide MatchRebuild.RebuiltLines, Lines.Split, Lines.HasCrlf, Lines.Join;
    TwoLines();
    TwoBlocks(p, q);
    TwoBlocks(p.(status := Pending), q.(status := Pending));
    SplitOne('x');
    SplitOne('y');
    JoinTwo("a", "y");
    JoinTwo("x", "y");
    EndsWithLf();
    assert Replacement(p) == ["x"] && Replacement(q) == ["y"];
    assert ["a"] + ["y"] == ["a", "y"] && ["x"] + ["y"] == ["x", "y"];
    assert "a" + "\n" + "y" == "a\ny" && "x" + "\n" + "y" == "x\ny";
  }

  lemma JoinTwo(a: string, b: string)
    ensures Lines.Join([a, b], "\n") == a + "\n" + b
  {
    assert [a, b][1..] == [b];
  }

  lemma EndsWithLf()
    ensures Lines.Ending("a\nb") == "\n"
  {
    assert !Lines.HasCrlf("a\nb");
  }

  lemma TwoLines()
    ensures Lines.Split("a\nb") == ["a", "b"]
  {
    assert "a\nb"[1..] == "\nb" && "\nb"[1..] == "b";
    SplitOne('b');
    assert Lines.Split("\nb") == [""] + Lines.Split("b") == ["", "b"];
    assert ["", "b"][1..] == ["b"] && ['a'] + "" == "a";
  }

  lemma SplitOne(c: char)
    requires c != '\n' && c != '\r'
    ensures Lines.Split([c]) == [[c]]
  {
    assert Lines.Split("") == [""] && [c][1..] == "" && [c] + "" == [c] && [""][1..] == [];
  }

  lemma TwoBlocks(p: Mod, q: Mod)
    requires Placed(p) && Placed(q) && p.startLine == p.endLine == 1 && q.startLine == q.endLine == 2 && !q.status.Rejected?
    ensures MatchRebuild.RebuiltLines(["a", "b"], [p, q]) == (if p.status.Rejected? then ["a"] else Replacement(p)) + Replacement(q)
  {
    hide Replacement;
    InTheirOrder(p, q);
    var lines, first := ["a", "b"], if p.status.Rejected? then ["a"] else Replacement(p);
    var p1 := MatchRebuild.Step(lines, MatchRebuild.Pass(0, []), p);
    assert p1 == MatchRebuild.Pass(1, first) by { assert lines[0..0] == [] && lines[0..1] == ["a"] && [] + first == first; }
    var p2 := MatchRebuild.Step(lines, p1, q);
    assert p2 == MatchRebuild.Pass(2, first + Replacement(q)) by { assert lines[1..1] == [] && first + [] == first; }
    assert MatchRebuild.Steps(lines, p1, [q]) == p2 by { assert [q][1..] == []; }
    assert MatchRebuild.Steps(lines, MatchRebuild.Pass(0, []), [p, q]) == p2 by { assert [p, q][1..] == [q]; }
    assert lines[2..2] == [] && first + Replacement(q) + [] == first + Replacement(q);
  }

  lemma InTheirOrder(p: Mod, q: Mod)
    requires Placed(p) && Placed(q) && p.startLine < q.startLine
    ensures MatchRebuild.InOrder([p, q]) == [p, q]
  {
    assert [p, q][1..] == [q] && [q][1..] == [];
    assert MatchRebuild.PlacedOnly([q]) == [q] && MatchRebuild.PlacedOnly([p, q]) == [p, q];
    assert MatchRebuild.SortByStart([q]) == [q];
  }

  const FILE := LoadArgs("c", "A", "a\nb", "", Some("x\ny"), false, None)
  const OTHER := LoadArgs("c", "B", "", "", None, false, None)
  const FIRST := Mod("p", Replace, Some("x"), true, 1, 1, Pending, None)
  const SECOND := Mod("q", Replace, Some("y"), true, 2, 2, Pending, None)

  /** The run with this file: it ends with a text that is not the rebuild under the verdicts it shows. */
  lemma RejectionLostHere(script: seq<MyersRebuild.EditOp>)
    ensures var events := LoadEvents(0, FILE, Ready([FIRST, SECOND], "", None, {})) + LoadEvents(1, OTHER, Ready([FIRST], "", None, {}))
                          + ReviewEvents("c", "A", FIRST, SECOND, script);
            var z := Run(Initially(), events);
            && "c" in z.store.contexts
            && var c := z.store.contexts["c"];
            c.content == "x\ny" && c.original == "a\nb" && MatchRebuild.Rebuilt(c.original, c.mods.items) == "a\ny"
  {
    hide Run, MatchRebuild.Rebuilt;
    var ready, readyB := Ready([FIRST, SECOND], "", None, {}), Ready([FIRST], "", None, {});
    assert FIRST in readyB.mods;
    RejectionLost(FILE, ready, FIRST, SECOND, OTHER, readyB, script);
    var events := LoadEvents(0, FILE, ready) + LoadEvents(1, OTHER, readyB) + ReviewEvents("c", "A", FIRST, SECOND, script);
    var mods := Run(Initially(), events).store.contexts["c"].mods.items;
    LostRejectionShows();
    MatchRebuild.RebuildSeesOnlyRejections("a\nb", mods, [FIRST.(status := Status.Rejected), SECOND.(status := Applied)]);
  }

  // ---------------------------------------------------------------- a history entry of the wrong mode

  function RollbackEvents(id: nat, context: string, snapshot: string, text: string, xml: string): seq<Event> {
    [StartRollback(context, snapshot), EditEvent(context, SetMode(Normal)), Resume(id, Text(text)), Resume(id, Projected(text, xml))]
  }

  /** Main result: start a rollback of a file under review, leave the review mode, let the rollback commit. The file was
      left in normal mode, yet the entry says it was left in review mode. */
  lemma ModeOutlived(y: System, context: string, snapshot: string, text: string, xml: string)
    requires Calm(y) && context in y.store.contexts
    requires var c := y.store.contexts[context]; c.mode == Diff && c.documentId.Some? && !OnDisk(c.documentId)
    ensures var events := RollbackEvents(y.nextTask, context, snapshot, text, xml);
            var before, z := Run(y, events[..3]), Run(y, events);
            && context in before.store.contexts && before.store.contexts[context].mode == Normal
            && context in z.store.contexts && z.store.contexts[context].content == text
            && z.store.contexts[context].undo.items != []
            && var e := Last(z.store.contexts[context].undo.items);
            && e.kind == RollbackEntry && e.projectionBefore.Some? && e.projectionBefore.value.mode == Diff
  {
    hide Next, CommitRollback, RollbackFrom;
    var events := RollbackEvents(y.nextTask, context, snapshot, text, xml);
    FourSteps(y, events);
    ThreeSteps(y, events[..3]);
    assert events[..3][0] == events[0] && events[..3][1] == events[1] && events[..3][2] == events[2];
    var y1, y2 := Next(y, events[0]), Next(Next(y, events[0]), events[1]);
    RollbackStarts(y, context, snapshot);
    EditPlays(y1, context, SetMode(Normal));
    var c := y.store.contexts[context];
    LeavingReview(c, y1.store.nextRef + REFS_PER_STEP);
    var r := RollbackRun(context, snapshot, c, y1.store.mutations[KeyOf(context, c.documentId)], Lookup(y.store.loads, KeyOf(context, c.documentId)), Fetching);
    MutationsUntouched(y1, context);
    Fetched(y2, y.nextTask, r, text);
    var y3 := Next(y2, events[2]);
    CommitsAtOnce(y3, y.nextTask, r.(at := Searching(text)), text, xml);
  }

  /** Such a run from the empty store. */
  lemma ModeOutlivedHere(snapshot: string, text: string, xml: string)
    ensures var load, back := LoadEvents(0, FILE, Ready([FIRST, SECOND], "", None, {})), RollbackEvents(1, "c", snapshot, text, xml);
            var before, z := Run(Initially(), load + back[..3]), Run(Initially(), load + back);
            && "c" in before.store.contexts && before.store.contexts["c"].mode == Normal
            && "c" in z.store.contexts && z.store.contexts["c"].undo.items != []
            && var e := Last(z.store.contexts["c"].undo.items); e.projectionBefore.Some? && e.projectionBefore.value.mode == Diff
  {
    hide Run, Put, Without, Sync;
    var ready := Ready([FIRST, SECOND], "", None, {});
    var load, back := LoadEvents(0, FILE, ready), RollbackEvents(1, "c", snapshot, text, xml);
    LoadPlays(Initially(), FILE, ready);
    RunAppend(Initially(), load, back[..3]);
    RunAppend(Initially(), load, back);
    ModeOutlived(Run(Initially(), load), "c", snapshot, text, xml);
  }

  lemma ThreeSteps(y: System, events: seq<Event>)
    requires |events| == 3
    ensures Run(y, events) == Next(Next(Next(y, events[0]), events[1]), events[2])
  {
    hide Next;
    assert events[1..][1..] == events[2..] && events[2..][1..] == [];
    var y1 := Next(y, events[0]);
    var y2 := Next(y1, events[1]);
    assert Run(y2, events[2..]) == Next(y2, events[2]);
    assert Run(y1, events[1..]) == Run(y2, events[2..]);
  }

  lemma RollbackStarts(y: System, context: string, snapshot: string)
    requires Calm(y) && context in y.store.contexts
    ensures var z := Next(y, StartRollback(context, snapshot)); var c := y.store.contexts[context]; var key := KeyOf(context, c.documentId);
            && z.store.contexts == y.store.contexts && z.store.loads == y.store.loads && z.store.active == map[]
            && key in z.store.mutations
            && z.tasks == y.tasks[y.nextTask := RollbackTask(RollbackRun(context, snapshot, c, z.store.mutations[key], Lookup(y.store.loads, key), Fetching))]
  {
  }

  lemma LeavingReview(c: Context, ref: nat)
    ensures Edited(c, SetMode(Normal), ref) == c.(mode := Normal)
  {
  }

  lemma MutationsUntouched(y: System, context: string)
    requires context in y.store.contexts
    ensures var z := Next(y, EditEvent(context, SetMode(Normal)));
            z.store.mutations == y.store.mutations && z.store.loads == y.store.loads && z.store.active == y.store.active
  {
    hide Edited;
  }

  /** Only the mode differs from where the rollback started. */
  predicate OnlyModeChanged(y: System, id: nat, r: RollbackRun) {
    && id in y.tasks && y.tasks[id] == RollbackTask(r) && r.source.documentId.Some? && !OnDisk(r.source.documentId)
    && GenerationsHold(y.store, RollbackKey(r), r.gen, r.loadGen)
    && r.context in y.store.contexts && y.store.contexts[r.context] == r.source.(mode := Normal)
  }

  lemma Fetched(y: System, id: nat, r: RollbackRun, text: string)
    requires OnlyModeChanged(y, id, r) && r.at == Fetching
    ensures var z := Next(y, Resume(id, Text(text)));
            OnlyModeChanged(z, id, r.(at := Searching(text))) && z.store.contexts == y.store.contexts
  {
  }

  lemma CommitsAtOnce(y: System, id: nat, r: RollbackRun, text: string, xml: string)
    requires OnlyModeChanged(y, id, r) && r.at == Searching(text)
    ensures var z := Next(y, Resume(id, Projected(text, xml)));
            && r.context in z.store.contexts && z.store.contexts[r.context].content == text
            && z.store.contexts[r.context].undo.items != []
            && var e := Last(z.store.contexts[r.context].undo.items);
            && e.kind == RollbackEntry && e.projectionBefore == Some(CurrentProjection(r.source))
  {
    hide RollbackFrom;
    var t := Target(r.snapshot, text, text, xml, Arr(y.store.nextRef + 2, []));
    EntryPushed(y.store.contexts[r.context], CurrentProjection(r.source), t, y.store.nextRef);
  }

  lemma EntryPushed(c: Context, before: Projection, t: Target, ref: nat)
    ensures var d := RollbackFrom(c, before, t, ref);
            && d.content == t.content && d.undo.items != []
            && Last(d.undo.items).kind == RollbackEntry && Last(d.undo.items).projectionBefore == Some(before)
  {
    hide Put;
  }

  // ---------------------------------------------------------------- mixed line endings

  const MIXED := "a\r\nb\nc"

  /** A file with mixed line endings, just loaded with its one block applied. */
  function MixedFile(): Context {
    var a := LoadArgs("c", "A", MIXED, "", Some(MatchRebuild.Rebuilt(MIXED, [FIRST])), false, None);
    OpenLoaded(Empty(0), a, Ready([FIRST], "", None, {}), false, 3)
  }

  /** Rejecting its block and rejecting all blocks give different texts. */
  lemma MixedEndingsShow(fallback: string)
    ensures Approval.Run(MixedFile(), [Approval.Reject("p", fallback)], 20).content == "a\r\nb\r\nc"
    ensures DiffContext.RejectAll(MixedFile(), 20).content == "a\r\nb\nc"
  {
    hide MatchRebuild.Rebuilt, Without, Put, Lines.Split, Lines.Join, Lines.Ending;
    var c, rejected := MixedFile(), FIRST.(status := Status.Rejected);
    assert c.mods.items == [FIRST] && c.original == MIXED && IndexOf([FIRST], "p") == Some(0);
    assert [FIRST][0 := rejected] == [rejected] && Placed(rejected);
    var d := Approval.Do(c, Approval.Reject("p", fallback), 20);
    assert d.content == MatchRebuild.Rebuilt(MIXED, [rejected]);
    assert Approval.Run(c, [Approval.Reject("p", fallback)], 20) == d;
    RejectedText(rejected);
  }

  lemma RejectedText(m: Mod)
    requires m.status.Rejected?
    ensures MatchRebuild.Rebuilt(MIXED, [m]) == "a\r\nb\r\nc"
  {
    hide MatchRebuild.RebuiltLines, Lines.Split, Lines.Join, Lines.Ending;
    MatchRebuild.RejectingAllRestores(MIXED, [m]);
    Lines.MixedEndingsChange();
  }
}
