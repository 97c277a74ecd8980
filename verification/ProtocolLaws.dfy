/** What the stretches of the diff store do, told from the registers and fields they compare: when an undo, redo or rollback
goes on, which content a repair serves, how a load starts and goes on, and what whole operations come to. */
module ProtocolLaws {
  import opened Modifications
  import opened DiffContext
  import opened DiffProtocol
  import Linearization
  import Paths

  // ---------------------------------------------------------------- markers of deleted paths

  predicate Distinct(markers: seq<Marker>) {
    forall i, j :: 0 <= i < j < |markers| ==> markers[i] != markers[j]
  }

  lemma {:induction false} UnmarkIs(markers: seq<Marker>, m: Marker)
    requires Distinct(markers)
    ensures var r := Unmark(markers, m);
            && Distinct(r) && |r| == |markers| - (if m in markers then 1 else 0)
            && (forall x :: x in r <==> x in markers && x != m)
            && (m !in markers ==> r == markers)
    decreases |markers|
  {
    if markers != [] {
      assert markers == [markers[0]] + markers[1..];
      UnmarkIs(markers[1..], m);
      assert markers[0] !in markers[1..];
    }
  }

  /** The newest 256 deletions are remembered, each once and the last one last; a path deleted again is only moved to the end. */
  lemma MarkersKept(markers: seq<Marker>, m: Marker)
    requires Distinct(markers) && |markers| <= 256
    ensures var r := Mark(markers, m);
            && Distinct(r) && 0 < |r| <= 256 && r[|r| - 1] == m
            && (m in markers || |markers| < 256 ==> forall x :: x in r <==> x == m || x in markers)
            && (m !in markers && |markers| == 256 ==> r == markers[1..] + [m])
  {
    UnmarkIs(markers, m);
    if markers != [] { assert (markers + [m])[1..] == markers[1..] + [m]; }
  }

  // ---------------------------------------------------------------- undo and redo

  /** Nothing the guard of an undo or redo looks at has changed: the generations of the file, no load registered, and on screen
      the same file with the same text and the same stacks. */
  predicate NothingTouched(s: Store, m: Move) {
    && var key := KeyOf(m.context, m.source.documentId);
    && key in s.mutations && s.mutations[key] == m.gen && Lookup(s.loads, key) == m.loadGen && key !in s.active
    && m.context in s.contexts
    && var c := s.contexts[m.context];
    && c.documentId == m.source.documentId && c.content == m.source.content && c.undo == m.source.undo && c.redo == m.source.redo
  }

  /** An undo or redo whose write landed performs the step if and only if nothing it looks at was touched. */
  lemma MoveCommitsExactly(s: Store, m: Move, answer: Answer)
    ensures var t := ResumeMove(s, m, answer).0;
            if !answer.Failure? && NothingTouched(s, m) then
              var c := s.contexts[m.context];
              t == Set(s, m.context, if m.direction == Backward then Undo(c, s.nextRef) else Redo(c, s.nextRef))
            else t == s
  {
    hide Undo, Redo;
    Linearization.MoveIsLinearizable(s, m, answer);
  }

  /** Starting one: refused without an entry to go to or while the file loads; else the next generation of the file is taken,
      and the write waits if the file is on disk. */
  lemma MoveStartsWhen(s: Store, d: Direction, context: string)
    requires context in s.contexts
    ensures var c := s.contexts[context]; var key := KeyOf(context, c.documentId);
            var stack := if d == Backward then c.undo.items else c.redo.items;
            var (t, u) := BeginMove(s, d, context);
            if stack == [] || key in s.active then t == s && u == None
            else
              && t.mutations == s.mutations[key := (if key in s.mutations then s.mutations[key] else 0) + 1]
              && t.loads == s.loads && t.active == s.active && t.targets == s.targets && t.markers == s.markers
              && (u.Some? <==> c.documentId.Some? && ':' in c.documentId.value)
              && (u.Some? ==> u == Some(MoveTask(Move(d, context, c, t.mutations[key], Lookup(s.loads, key)))) && t.contexts == s.contexts)
              && (u == None ==> t.contexts == s.contexts[context := if d == Backward then Undo(c, s.nextRef) else Redo(c, s.nextRef)])
  {
    hide Undo, Redo, CommitMove;
    var c := s.contexts[context];
    if !OnDisk(c.documentId) {
      Linearization.UnsavedMoveIsSequential(s, d, context);
      hide BeginMove;
      StartTakesGeneration(s, d, context);
    }
  }

  lemma StartTakesGeneration(s: Store, d: Direction, context: string)
    requires context in s.contexts && !OnDisk(s.contexts[context].documentId)
    ensures var c := s.contexts[context]; var key := KeyOf(context, c.documentId);
            var stack := if d == Backward then c.undo.items else c.redo.items;
            var (t, u) := BeginMove(s, d, context);
            && u == None
            && if stack == [] || key in s.active then t == s
               else t == s.(mutations := s.mutations[key := (if key in s.mutations then s.mutations[key] else 0) + 1], contexts := t.contexts)
  {
    hide Moved, MoveIsCurrent;
  }

  // ---------------------------------------------------------------- rollback

  predicate NothingTouchedSince(s: Store, r: RollbackRun) {
    && var key := KeyOf(r.context, r.source.documentId);
    && key in s.mutations && s.mutations[key] == r.gen && Lookup(s.loads, key) == r.loadGen && key !in s.active
    && r.context in s.contexts
    && var c := s.contexts[r.context];
    && c.documentId == r.source.documentId && c.activeFileId == r.source.activeFileId && c.content == r.source.content
    && c.original == r.source.original && c.xml == r.source.xml && c.mods == r.source.mods
  }

  /** A rollback goes on, and in the end commits, only while nothing it looks at was touched: not the generations, not the file
      on screen, its text, base, script or blocks. */
  lemma TouchedRollbackStops(s: Store, r: RollbackRun, answer: Answer)
    requires !NothingTouchedSince(s, r)
    ensures var (t, u) := ResumeRollback(s, r, answer);
            && t == s
            && (u.Some? ==> u.value.RepairTask? || (r.at.Searching? && answer.Failure?))
  {
    hide CurrentTarget, WasPathDeleted, RollbackFrom;
    assert !RollbackIsCurrent(s, r);
  }

  /** Every stage of a rollback that nothing touched: the text of the version, its base from a record or else generated, its
      blocks unless it is its base, the write unless the file is not on disk. */
  lemma RollbackStages(s: Store, r: RollbackRun, answer: Answer)
    requires NothingTouchedSince(s, r)
    ensures r.at.Fetching? && answer.Text? && r.source.documentId.Some? ==>
              ResumeRollback(s, r, answer) == (s, Some(RollbackTask(r.(at := Searching(answer.text)))))
    ensures r.at.Fetching? && answer.Text? && r.source.documentId == None ==>
              ResumeRollback(s, r, answer) == (s, Some(RollbackTask(r.(at := Generating(answer.text)))))
    ensures r.at.Searching? && !answer.Projected? ==>
              ResumeRollback(s, r, answer) == (s, Some(RollbackTask(r.(at := Generating(r.at.content)))))
    ensures (r.at.Searching? || r.at.Generating?) && answer.Projected? && r.at.content != answer.base ==>
              ResumeRollback(s, r, answer) == (s, Some(RollbackTask(r.(at := Previewing(r.at.content, answer.base, answer.xml)))))
    ensures (r.at.Searching? || r.at.Generating?) && answer.Projected? && r.at.content == answer.base ==>
              ResumeRollback(s, r, answer) ==
                WrittenOr(s, r, Target(r.snapshot, r.at.content, answer.base, answer.xml, Arr(s.nextRef + 2, [])))
    ensures r.at.Previewing? && answer.Previewed? ==>
              ResumeRollback(s, r, answer) ==
                WrittenOr(s, r, Target(r.snapshot, r.at.content, r.at.base, r.at.xml, Arr(s.nextRef + 2, answer.mods)))
    ensures r.at.Writing? && !answer.Failure? ==> ResumeRollback(s, r, answer) == (Committed(s, r, r.at.target), None)
    ensures r.at.Writing? && answer.Failure? ==> ResumeRollback(s, r, answer) == (s, None)
  {
    hide NextRepair, RollbackFrom, CurrentProjection;
    assert RollbackIsCurrent(s, r);
  }

  function Committed(s: Store, r: RollbackRun, t: Target): Store
    requires r.context in s.contexts
  {
    Set(s, r.context, RollbackFrom(s.contexts[r.context], CurrentProjection(r.source), t, s.nextRef))
  }

  function WrittenOr(s: Store, r: RollbackRun, t: Target): (Store, Option<Task>)
    requires r.context in s.contexts
  {
    if r.source.documentId.Some? && ':' in r.source.documentId.value then (s, Some(RollbackTask(r.(at := Writing(t)))))
    else (Committed(s, r, t), None)
  }

  // ---------------------------------------------------------------- the content to repair to

  /** The latest load of the file comes first, if it is registered and not the superseded one; then the file on screen; then the
      stored file. */
  lemma TargetOrder(s: Store, context: string, document: string, superseded: Option<nat>, gen: nat)
    ensures var key := Key(context, document);
            && key in s.targets && s.targets[key].generation == gen && Lookup(s.active, key) == Some(gen) && superseded != Some(gen) ==>
              CurrentTarget(s, context, document, superseded, Some(gen)) == Some(s.targets[key].content)
    ensures superseded == Some(gen) || Key(context, document) !in s.active || s.active[Key(context, document)] != gen
            || Key(context, document) !in s.targets || s.targets[Key(context, document)].generation != gen ==>
              CurrentTarget(s, context, document, superseded, Some(gen)) == Kept(s, context, document)
    ensures CurrentTarget(s, context, document, superseded, None) == Kept(s, context, document)
  {
  }

  /** What a context holds of a file. */
  function Kept(s: Store, context: string, document: string): Option<string> {
    if context !in s.contexts then None
    else
      var c := s.contexts[context];
      if c.documentId == Some(document) then Some(c.content)
      else if Find(c.entries, document).Some? then Some(Find(c.entries, document).value.content) else None
  }

  // ---------------------------------------------------------------- loads

  /** A load starts with the next generation of its file, registered, its text as the target to repair to; the context only
      shows as loading. */
  lemma LoadStarts(s: Store, a: LoadArgs)
    ensures var (t, l) := BeginLoad(s, a); var key := Key(a.context, a.document);
            var text := if a.restoring && a.inference.Some? then a.inference.value else if a.preApplied.Some? then a.preApplied.value else a.content;
            && l == Load(a, (if key in s.loads then s.loads[key] else 0) + 1, Yielded)
            && t.loads == s.loads[key := l.gen] && t.active == s.active[key := l.gen]
            && t.targets == s.targets[key := LoadTarget(l.gen, text)] && t.mutations == s.mutations && t.markers == s.markers
            && (a.context in s.contexts ==> t.contexts == s.contexts[a.context := s.contexts[a.context].(isLoading := true)])
  {
  }

  /** After yielding, a load that was overtaken is gone; one of a file that was deleted before gives up if it restores, and reads
      the file otherwise; any other goes to the comparison with the disk exactly when its file is on disk, it does not restore,
      and nothing was applied beforehand. */
  lemma LoadGoesOn(s: Store, l: Load, answer: Answer)
    requires l.at == Yielded
    ensures var key, a := LoadKey(l), l.args; var (t, u) := ResumeLoad(s, l, answer);
            if Lookup(s.loads, key) != Some(l.gen) then u == None && t.contexts == s.contexts
            else if exists m :: m in s.markers && m.context == a.context && Paths.IsPathDeleted(a.document, m.path, m.isDirectory) then
              if a.restoring then u == None && Lookup(t.active, key) != Some(l.gen) else t == s && u == Some(l.(at := ReadingDeleted))
            else
              && t == s
              && u == Some(l.(at := if !a.restoring && ':' in a.document && (a.preApplied == None || a.preApplied == Some("") || a.preApplied == Some(a.content))
                                    then ComparingDisk else Working))
  {
    hide Paths.IsPathDeleted;
  }

  /** A load of a file that was deleted before goes on only if the file can be read and has the text applied beforehand, if one was;
      it changes nothing then, and otherwise gives up. */
  lemma DeletedFileGoesOn(s: Store, l: Load, answer: Answer)
    requires l.at == ReadingDeleted
    ensures var (t, u) := ResumeLoad(s, l, answer);
            if answer.Text? && (l.args.preApplied == None || l.args.preApplied == Some(answer.text)) then t == s && u.Some? && u.value.at in {ComparingDisk, Working}
            else u == None && Lookup(t.active, LoadKey(l)) != Some(l.gen)
  {
    hide LoadRegistered;
  }

  /** When the file on disk has another length than the text given, its text becomes the base, is applied beforehand in place of
      the given one, and is the target to repair to; else nothing changes. */
  lemma DiskDecidesTheBase(s: Store, l: Load, answer: Answer)
    requires l.at == ComparingDisk
    ensures var (t, u) := ResumeLoad(s, l, answer); var a, key := l.args, LoadKey(l);
            if answer.Text? && |answer.text| != |a.content| then
              && u.Some? && u.value.at == Working && u.value.gen == l.gen && u.value.args.content == answer.text
              && u.value.args.preApplied == (if a.preApplied == Some(a.content) then Some(answer.text) else a.preApplied)
              && u.value.args.(content := a.content, preApplied := a.preApplied) == a
              && t == s.(targets := if Lookup(s.loads, key) == Some(l.gen) && Lookup(s.active, key) == Some(l.gen)
                                    then s.targets[key := LoadTarget(l.gen, answer.text)] else s.targets)
            else t == s && u == Some(l.(at := Working))
  {
  }

  /** At work, a load goes on, possibly with a new target, until it is ready or fails; only while it is the latest does it show
      anything, and in the end it is no longer registered and its target is gone. */
  lemma WorkEnds(s: Store, l: Load, answer: Answer)
    requires l.at == Working
    ensures var (t, u) := ResumeLoad(s, l, answer); var key := LoadKey(l);
            && (Lookup(s.loads, key) == Some(l.gen) && !answer.Failure? && !answer.Ready? ==> u == Some(l) && t.contexts == s.contexts && t.active == s.active)
            && (Lookup(s.loads, key) == Some(l.gen) && answer.Republish? && Lookup(s.active, key) == Some(l.gen) ==>
                  t.targets == s.targets[key := LoadTarget(l.gen, answer.content)])
            && (Lookup(s.loads, key) != Some(l.gen) || answer.Failure? || answer.Ready? ==>
                  u == None && Lookup(t.active, key) != Some(l.gen) && (key in t.targets ==> t.targets[key].generation != l.gen))
            && (Lookup(s.loads, key) != Some(l.gen) ==> t.contexts == s.contexts)
            && (Lookup(s.loads, key) == Some(l.gen) && answer.Ready? ==>
                  l.args.context in t.contexts && t.contexts[l.args.context].documentId == Some(l.args.document) && t.contexts[l.args.context].mods.items == answer.mods)
  {
    hide OtherLoadRegistered, Put, Without, Sync, InitialContent;
  }

  // ---------------------------------------------------------------- verdicts, selection and mode

  /** An operation on a context changes that context only. In a context nobody has used, a single verdict, a selection and opening
      the review do nothing; leaving the review, accepting all and rejecting all make it an empty one. */
  lemma EditsTouch(s: Store, context: string, e: Edit)
    ensures var t := EditContext(s, context, e);
            && t == s.(contexts := t.contexts)
            && (forall c :: c in s.contexts && c != context ==> c in t.contexts && t.contexts[c] == s.contexts[c])
            && (forall c :: c in t.contexts ==> c in s.contexts || c == context)
    ensures context !in s.contexts ==>
              var t := EditContext(s, context, e);
              match e
              case Accept(_) => t == s
              case Reject(_, _) => t == s
              case Select(_) => t == s
              case SetMode(mode) => if mode == Diff then t == s else context in t.contexts && t.contexts[context].documentId == None && t.contexts[context].mode == Normal
              case AcceptAll => context in t.contexts && t.contexts[context].documentId == None && t.contexts[context].mode == Normal
              case RejectAll => context in t.contexts && t.contexts[context].documentId == None && t.contexts[context].content == ""
  {
    hide DiffContext.Accept, DiffContext.Reject, SelectFile, Settle;
  }

  // ---------------------------------------------------------------- deleting a path

  lemma DeletionMovesLoads(s: Store, context: string, path: string, isDirectory: bool)
    ensures var t := DeletePath(s, context, path, isDirectory);
            && t.loads.Keys == s.loads.Keys
            && (forall k :: k in s.loads ==> t.loads[k] == s.loads[k] + if KeyDeleted(k, context, path, isDirectory) then 1 else 0)
  {
    hide DeleteFrom, Mark, Paths.Normalize, KeyDeleted;
  }

  /** A deletion moves the load generation of every file under the path on by one, in its context only, and touches no other
      context, no registered load and no generation of an undo, redo or rollback. */
  lemma DeletionTouches(s: Store, context: string, path: string, isDirectory: bool)
    ensures var t := DeletePath(s, context, path, isDirectory);
            && t.loads.Keys == s.loads.Keys
            && (forall k :: k in s.loads ==>
                  t.loads[k] == s.loads[k] + if k.context == context && Paths.IsPathDeleted(k.document, path, isDirectory) then 1 else 0)
            && t.active == s.active && t.targets == s.targets && t.mutations == s.mutations && t.contexts.Keys == s.contexts.Keys
            && (forall c :: c in s.contexts && c != context ==> t.contexts[c] == s.contexts[c])
            && t.markers == Mark(s.markers, Marker(context, Paths.Normalize(path), isDirectory))
  {
    hide Paths.IsPathDeleted;
    DeletionMovesLoads(s, context, path, isDirectory);
    DeletionLeaves(s, context, path, isDirectory);
    hide DeletePath;
  }

  lemma DeletionLeaves(s: Store, context: string, path: string, isDirectory: bool)
    ensures var t := DeletePath(s, context, path, isDirectory);
            && t.active == s.active && t.targets == s.targets && t.mutations == s.mutations && t.contexts.Keys == s.contexts.Keys
            && (forall c :: c in s.contexts && c != context ==> t.contexts[c] == s.contexts[c])
            && t.markers == Mark(s.markers, Marker(context, Paths.Normalize(path), isDirectory))
  {
    hide DeleteFrom, Mark, Paths.Normalize, KeyDeleted;
  }
}
