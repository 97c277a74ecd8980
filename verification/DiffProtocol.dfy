/** The diff store as a protocol. Loads, undos, redos and rollbacks are asynchronous: each runs to its
next suspension point, then anything else may run. Every function here is one such stretch over the
shared store; what an operation remembers across a suspension travels in its task value.

Generation counters decide which of several overlapping operations may still commit. */
module DiffProtocol {
  import opened Modifications
  import opened DiffContext
  import MyersRebuild
  import Paths

  // ---------------------------------------------------------------- the shared store

  /** Counters are kept per context and file. */
  datatype Key = Key(context: string, document: string)

  datatype Marker = Marker(context: string, path: string, isDirectory: bool)

  datatype LoadTarget = LoadTarget(generation: nat, content: string)

  datatype Store = Store(
    contexts: map<string, Context>,
    loads: map<Key, nat>,
    active: map<Key, nat>,
    targets: map<Key, LoadTarget>,
    mutations: map<Key, nat>,
    markers: seq<Marker>,
    nextRef: nat)

  const MAX_DELETED_PATH_MARKERS: nat := 256

  const MAX_REPAIR_ATTEMPTS: nat := 3

  function Lookup<K, V>(m: map<K, V>, k: K): Option<V> {
    if k in m then Some(m[k]) else None
  }

  function Count(m: map<Key, nat>, k: Key): nat {
    if k in m then m[k] else 0
  }

  function ContextOf(s: Store, context: string): Context {
    if context in s.contexts then s.contexts[context] else Empty(s.nextRef)
  }

  function Set(s: Store, context: string, c: Context): Store {
    s.(contexts := s.contexts[context := c])
  }

  /** Documents with a colon are files on disk; only those are written. */
  predicate OnDisk(document: Option<string>) {
    document.Some? && ':' in document.value
  }

  function KeyOf(context: string, document: Option<string>): Key {
    Key(context, if document.Some? then document.value else "")
  }

  predicate LoadRegistered(s: Store, context: string) {
    exists k :: k in s.active && k.context == context
  }

  predicate OtherLoadRegistered(s: Store, key: Key, gen: nat) {
    exists k :: k in s.active && k.context == key.context && !(k == key && s.active[k] == gen)
  }

  predicate WasPathDeleted(markers: seq<Marker>, context: string, document: string) {
    exists m :: m in markers && m.context == context && Paths.IsPathDeleted(document, m.path, m.isDirectory)
  }

  // ---------------------------------------------------------------- loading modifications

  datatype LoadArgs = LoadArgs(
    context: string,
    document: string,
    content: string,
    xml: string,
    preApplied: Option<string>,
    restoring: bool,
    inference: Option<string>)

  /** Where a load is suspended: after yielding once, while reading a file that was deleted before, while
      comparing its base with the disk, or in one of the later waits (preview, fallback preview, snapshots,
      record, rebuild, probing for vanished files), which all resume alike. */
  datatype LoadPoint = Yielded | ReadingDeleted | ComparingDisk | Working

  datatype Load = Load(args: LoadArgs, gen: nat, at: LoadPoint)

  /** What a suspended operation is resumed with. */
  datatype Answer =
    | Continue
    | Failure
    | Text(text: string)
    | Republish(content: string)
    | Ready(mods: seq<Mod>, xml: string, rebuilt: Option<string>, vanished: set<string>)
    | Projected(base: string, xml: string)
    | Previewed(mods: seq<Mod>)

  function LoadKey(l: Load): Key {
    Key(l.args.context, l.args.document)
  }

  function InitialContent(a: LoadArgs): string {
    if a.restoring && a.inference.Some? then a.inference.value
    else if a.preApplied.Some? then a.preApplied.value
    else a.content
  }

  predicate IsLatestLoad(s: Store, key: Key, gen: nat) {
    Lookup(s.loads, key) == Some(gen)
  }

  function Publish(s: Store, key: Key, gen: nat, content: string): Store {
    if IsLatestLoad(s, key, gen) && Lookup(s.active, key) == Some(gen)
    then s.(targets := s.targets[key := LoadTarget(gen, content)])
    else s
  }

  /** What every load does on its way out. */
  function Deregister(s: Store, key: Key, gen: nat): Store {
    s.(active := if Lookup(s.active, key) == Some(gen) then s.active - {key} else s.active,
       targets := if key in s.targets && s.targets[key].generation == gen then s.targets - {key} else s.targets)
  }

  function BeginLoad(s: Store, a: LoadArgs): (Store, Load) {
    var key := Key(a.context, a.document);
    var gen := Count(s.loads, key) + 1;
    var registered := s.(loads := s.loads[key := gen], active := s.active[key := gen]);
    var published := Publish(registered, key, gen, InitialContent(a));
    (Set(published, a.context, ContextOf(s, a.context).(isLoading := true)), Load(a, gen, Yielded))
  }

  /** A load of a deleted path gives up and only settles the loading flag. */
  function CancelLoad(s: Store, l: Load): Store {
    var out := Deregister(s, LoadKey(l), l.gen);
    if l.args.context !in s.contexts then out
    else Set(out, l.args.context, s.contexts[l.args.context].(isLoading := LoadRegistered(out, l.args.context)))
  }

  /** A failing load reports its error only while it is the latest. */
  function FailLoad(s: Store, l: Load): Store {
    var key := LoadKey(l);
    var told := if IsLatestLoad(s, key, l.gen)
                then Set(s, key.context, ContextOf(s, key.context).(isLoading := OtherLoadRegistered(s, key, l.gen)))
                else s;
    Deregister(told, key, l.gen)
  }

  function Without(entries: seq<FileEntry>, gone: set<string>): (r: seq<FileEntry>)
    ensures forall e :: e in r <==> e in entries && e.documentId !in gone
  {
    if entries == [] then []
    else if entries[0].documentId in gone then Without(entries[1..], gone)
    else [entries[0]] + Without(entries[1..], gone)
  }

  /** The loaded file becomes the active one; the file shown before is kept as an entry. */
  function OpenLoaded(c: Context, a: LoadArgs, ready: Answer, other: bool, ref: nat): Context
    requires ready.Ready?
  {
    var initial := if ready.rebuilt.Some? then ready.rebuilt.value else InitialContent(a);
    var mods := Arr(ref + 3, ready.mods);
    var pre := if a.preApplied.Some? then a.preApplied.value else "";
    var e := FileEntry(a.document, initial, a.content, mods, ready.xml, pre, Arr(ref + 4, []), Arr(ref + 5, []), None);
    c.(mode := Diff, documentId := Some(a.document), content := initial, original := a.content, mods := mods, xml := ready.xml,
       isLoading := other, undo := Arr(ref + 6, []), redo := Arr(ref + 7, []), preApplied := pre,
       entries := Put(Without(Sync(c).entries, ready.vanished), e), activeFileId := Some(a.document), snapshot := None)
  }

  function CommitLoad(s: Store, l: Load, ready: Answer): Store
    requires ready.Ready?
  {
    var key := LoadKey(l);
    var c := OpenLoaded(ContextOf(s, key.context), l.args, ready, OtherLoadRegistered(s, key, l.gen), s.nextRef);
    Deregister(Set(s, key.context, c), key, l.gen)
  }

  /** On to the disk comparison or straight to the preview. */
  function AfterDeletionCheck(l: Load): Load {
    var a := l.args;
    if !a.restoring && ':' in a.document && (a.preApplied == None || a.preApplied == Some("") || a.preApplied == Some(a.content))
    then l.(at := ComparingDisk)
    else l.(at := Working)
  }

  function ResumeLoad(s: Store, l: Load, answer: Answer): (Store, Option<Load>) {
    var key := LoadKey(l);
    match l.at
    case Yielded =>
      if !IsLatestLoad(s, key, l.gen) then (Deregister(s, key, l.gen), None)
      else if !WasPathDeleted(s.markers, key.context, key.document) then (s, Some(AfterDeletionCheck(l)))
      else if l.args.restoring then (CancelLoad(s, l), None)
      else (s, Some(l.(at := ReadingDeleted)))
    case ReadingDeleted =>
      if answer.Text? && (l.args.preApplied == None || l.args.preApplied == Some(answer.text))
      then (s, Some(AfterDeletionCheck(l)))
      else (CancelLoad(s, l), None)
    case ComparingDisk =>
      if answer.Text? && |answer.text| != |l.args.content| then
        var pre := if l.args.preApplied == Some(l.args.content) then Some(answer.text) else l.args.preApplied;
        (Publish(s, key, l.gen, answer.text), Some(l.(args := l.args.(content := answer.text, preApplied := pre), at := Working)))
      else (s, Some(l.(at := Working)))
    case Working =>
      if answer.Failure? then (FailLoad(s, l), None)
      else
        var t := if answer.Republish? then Publish(s, key, l.gen, answer.content) else s;
        if !IsLatestLoad(t, key, l.gen) then (Deregister(t, key, l.gen), None)
        else if answer.Ready? then (CommitLoad(t, l, answer), None)
        else (t, Some(l))
  }

  // ---------------------------------------------------------------- undo and redo

  datatype Direction = Backward | Forward

  /** An undo or redo that waits for its file write: the context it was started from and the generations then. */
  datatype Move = Move(direction: Direction, context: string, source: Context, gen: nat, loadGen: Option<nat>)

  function MoveKey(m: Move): Key {
    KeyOf(m.context, m.source.documentId)
  }

  function StackOf(c: Context, d: Direction): seq<HistoryEntry> {
    if d == Backward then c.undo.items else c.redo.items
  }

  predicate GenerationsHold(s: Store, key: Key, gen: nat, loadGen: Option<nat>) {
    Lookup(s.mutations, key) == Some(gen) && Lookup(s.loads, key) == loadGen && key !in s.active
  }

  predicate MoveIsCurrent(s: Store, m: Move) {
    && GenerationsHold(s, MoveKey(m), m.gen, m.loadGen)
    && m.context in s.contexts
    && var c := s.contexts[m.context];
    && c.documentId == m.source.documentId && c.content == m.source.content
    && c.undo == m.source.undo && c.redo == m.source.redo
  }

  /** The stacks are the ones computed at the start; the rest comes from the context as it is now. */
  function Moved(c: Context, m: Move, ref: nat): Context
    requires StackOf(m.source, m.direction) != []
  {
    if m.direction == Backward then
      var e := Last(m.source.undo.items);
      var moved := c.(undo := Arr(ref, Init(m.source.undo.items)), redo := Arr(ref + 1, Push(m.source.redo.items, e)));
      if e.projectionBefore.Some? then Project(moved, e.projectionBefore.value)
      else Sync(moved.(content := e.contentBefore, mods := e.modsBefore))
    else
      var e := Last(m.source.redo.items);
      var moved := c.(redo := Arr(ref, Init(m.source.redo.items)), undo := Arr(ref + 1, Push(m.source.undo.items, e)));
      if e.projectionAfter.Some? then Project(moved, e.projectionAfter.value)
      else Sync(moved.(content := e.contentAfter, mods := e.modsAfter))
  }

  function CommitMove(s: Store, m: Move): Store {
    if MoveIsCurrent(s, m) && StackOf(m.source, m.direction) != [] then
      Set(s, m.context, Moved(s.contexts[m.context], m, s.nextRef))
    else s
  }

  /** Refused when there is nothing to move or the file is loading. A file on disk is written first. */
  function BeginMove(s: Store, d: Direction, context: string): (Store, Option<Task>) {
    var c := ContextOf(s, context);
    var key := KeyOf(context, c.documentId);
    if StackOf(c, d) == [] || key in s.active then (s, None)
    else
      var gen := Count(s.mutations, key) + 1;
      var started := s.(mutations := s.mutations[key := gen]);
      var m := Move(d, context, c, gen, Lookup(s.loads, key));
      if OnDisk(c.documentId) then (started, Some(MoveTask(m))) else (CommitMove(started, m), None)
  }

  function ResumeMove(s: Store, m: Move, answer: Answer): (Store, Option<Task>) {
    if answer.Failure? then (s, None)
    else if MoveIsCurrent(s, m) then (CommitMove(s, m), None)
    else (s, NextRepair(s, m.context, m.source.documentId, m.loadGen, 0))
  }

  // ---------------------------------------------------------------- rollback

  datatype RollbackPoint =
    | Fetching
    | Searching(content: string)
    | Generating(content: string)
    | Previewing(content: string, base: string, xml: string)
    | Writing(target: Target)

  datatype RollbackRun = RollbackRun(context: string, snapshot: string, source: Context, gen: nat, loadGen: Option<nat>, at: RollbackPoint)

  function RollbackKey(r: RollbackRun): Key {
    KeyOf(r.context, r.source.documentId)
  }

  predicate RollbackIsCurrent(s: Store, r: RollbackRun) {
    && GenerationsHold(s, RollbackKey(r), r.gen, r.loadGen)
    && r.context in s.contexts
    && var c := s.contexts[r.context];
    && c.documentId == r.source.documentId && c.activeFileId == r.source.activeFileId && c.content == r.source.content
    && c.original == r.source.original && c.xml == r.source.xml && c.mods == r.source.mods
  }

  function BeginRollback(s: Store, context: string, snapshot: string): (Store, Option<Task>) {
    var c := ContextOf(s, context);
    var key := KeyOf(context, c.documentId);
    if key in s.active then (s, None)
    else
      var gen := Count(s.mutations, key) + 1;
      (s.(mutations := s.mutations[key := gen]),
       Some(RollbackTask(RollbackRun(context, snapshot, c, gen, Lookup(s.loads, key), Fetching))))
  }

  /** The entry pushed records the state the rollback was started from. */
  function CommitRollback(s: Store, r: RollbackRun, t: Target): Store {
    if RollbackIsCurrent(s, r)
    then Set(s, r.context, RollbackFrom(s.contexts[r.context], CurrentProjection(r.source), t, s.nextRef))
    else s
  }

  function WriteOrCommit(s: Store, r: RollbackRun, t: Target): (Store, Option<Task>) {
    if !RollbackIsCurrent(s, r) then (s, None)
    else if OnDisk(r.source.documentId) then (s, Some(RollbackTask(r.(at := Writing(t)))))
    else (CommitRollback(s, r, t), None)
  }

  /** A snapshot equal to its base has no blocks; any other is previewed. */
  function ProjectOnto(s: Store, r: RollbackRun, content: string, base: string, xml: string): (Store, Option<Task>) {
    if content == base then WriteOrCommit(s, r, Target(r.snapshot, content, base, xml, Arr(s.nextRef + 2, [])))
    else (s, Some(RollbackTask(r.(at := Previewing(content, base, xml)))))
  }

  function ResumeRollback(s: Store, r: RollbackRun, answer: Answer): (Store, Option<Task>) {
    match r.at
    case Fetching =>
      if !answer.Text? || !RollbackIsCurrent(s, r) then (s, None)
      else if r.source.documentId.Some? then (s, Some(RollbackTask(r.(at := Searching(answer.text)))))
      else (s, Some(RollbackTask(r.(at := Generating(answer.text)))))
    case Searching(content) =>
      if answer.Failure? then (s, Some(RollbackTask(r.(at := Generating(content)))))
      else if !RollbackIsCurrent(s, r) then (s, None)
      else if answer.Projected? then ProjectOnto(s, r, content, answer.base, answer.xml)
      else (s, Some(RollbackTask(r.(at := Generating(content)))))
    case Generating(content) =>
      if !answer.Projected? || !RollbackIsCurrent(s, r) then (s, None)
      else ProjectOnto(s, r, content, answer.base, answer.xml)
    case Previewing(content, base, xml) =>
      if !answer.Previewed? || !RollbackIsCurrent(s, r) then (s, None)
      else WriteOrCommit(s, r, Target(r.snapshot, content, base, xml, Arr(s.nextRef + 2, answer.mods)))
    case Writing(t) =>
      if answer.Failure? then (s, None)
      else if RollbackIsCurrent(s, r) then (CommitRollback(s, r, t), None)
      else (s, NextRepair(s, r.context, r.source.documentId, r.loadGen, 0))
  }

  // ---------------------------------------------------------------- repairing a superseded write

  /** One attempt of the repair: what it observed and the content it is writing. */
  datatype Repair = Repair(context: string, document: string, superseded: Option<nat>, attempt: nat,
                           loadGen: Option<nat>, mutation: Option<nat>, content: string)

  /** The content the file should hold: the one the registered latest load aims at, else the one on screen
      or kept as an entry. */
  function CurrentTarget(s: Store, context: string, document: string, superseded: Option<nat>, observed: Option<nat>): Option<string> {
    var key := Key(context, document);
    if key in s.targets && Lookup(s.active, key) == observed && Some(s.targets[key].generation) == observed && observed != superseded then
      Some(s.targets[key].content)
    else if context !in s.contexts then None
    else if s.contexts[context].documentId == Some(document) then Some(s.contexts[context].content)
    else
      var e := Find(s.contexts[context].entries, document);
      if e.Some? then Some(e.value.content) else None
  }

  /** Observes the generations and the target and starts a write, unless the path is gone, nothing is to be
      written, or the attempts are used up. */
  function NextRepair(s: Store, context: string, document: Option<string>, superseded: Option<nat>, attempt: nat): Option<Task> {
    if document == None || attempt >= MAX_REPAIR_ATTEMPTS || WasPathDeleted(s.markers, context, document.value) then None
    else
      var key := Key(context, document.value);
      var observed := Lookup(s.loads, key);
      var target := CurrentTarget(s, context, document.value, superseded, observed);
      if target == None then None
      else Some(RepairTask(Repair(context, document.value, superseded, attempt, observed, Lookup(s.mutations, key), target.value)))
  }

  /** What the attempt wrote is still what the file should hold, and no generation moved meanwhile. */
  predicate RepairHolds(s: Store, p: Repair) {
    var key := Key(p.context, p.document);
    && Lookup(s.loads, key) == p.loadGen && Lookup(s.mutations, key) == p.mutation
    && CurrentTarget(s, p.context, p.document, p.superseded, p.loadGen) == Some(p.content)
  }

  function ResumeRepair(s: Store, p: Repair, answer: Answer): Option<Task> {
    if answer.Failure? || RepairHolds(s, p) then None
    else NextRepair(s, p.context, Some(p.document), p.superseded, p.attempt + 1)
  }

  // ---------------------------------------------------------------- deleting a path

  /** The newest marker goes last; the oldest one is dropped beyond the bound. */
  function Mark(markers: seq<Marker>, m: Marker): seq<Marker> {
    var longer := Unmark(markers, m) + [m];
    if |longer| > MAX_DELETED_PATH_MARKERS then longer[1..] else longer
  }

  function Unmark(markers: seq<Marker>, m: Marker): seq<Marker> {
    if markers == [] then [] else if markers[0] == m then markers[1..] else [markers[0]] + Unmark(markers[1..], m)
  }

  predicate KeyDeleted(k: Key, context: string, path: string, isDirectory: bool) {
    k.context == context && Paths.IsPathDeleted(k.document, path, isDirectory)
  }

  predicate DocumentDeleted(document: Option<string>, path: string, isDirectory: bool) {
    document.Some? && Paths.IsPathDeleted(document.value, path, isDirectory)
  }

  function DeletedDocuments(entries: seq<FileEntry>, path: string, isDirectory: bool): set<string> {
    set e | e in entries && Paths.IsPathDeleted(e.documentId, path, isDirectory) :: e.documentId
  }

  function DeleteFrom(c: Context, path: string, isDirectory: bool, invalidated: bool, other: bool, ref: nat): Context {
    var all := Sync(c).entries;
    var gone := DeletedDocuments(all, path, isDirectory);
    var kept := Without(all, gone);
    var activeDeleted := DocumentDeleted(c.documentId, path, isDirectory) || DocumentDeleted(c.activeFileId, path, isDirectory);
    if gone == {} && !activeDeleted then
      if invalidated then c.(isLoading := other) else c
    else if !activeDeleted then
      c.(entries := kept, isLoading := if invalidated then other else c.isLoading)
    else
      match FirstPending(kept, None)
      case Some(next) => Apply(c.(entries := kept), next).(snapshot := None, isLoading := other)
      case None => Empty(ref).(entries := kept, isLoading := other)
  }

  function DeletePath(s: Store, context: string, path: string, isDirectory: bool): Store {
    var loads := map k | k in s.loads :: if KeyDeleted(k, context, path, isDirectory) then s.loads[k] + 1 else s.loads[k];
    var invalidated := exists k :: k in s.loads && k in s.active && KeyDeleted(k, context, path, isDirectory);
    var other := exists k :: k in s.active && k.context == context && !KeyDeleted(k, context, path, isDirectory);
    var marked := s.(loads := loads, markers := Mark(s.markers, Marker(context, Paths.Normalize(path), isDirectory)));
    if context !in s.contexts then marked
    else Set(marked, context, DeleteFrom(s.contexts[context], path, isDirectory, invalidated, other, s.nextRef))
  }

  // ---------------------------------------------------------------- the whole system

  datatype Task = LoadTask(load: Load) | MoveTask(move: Move) | RollbackTask(run: RollbackRun) | RepairTask(repair: Repair)

  datatype Edit =
    | Accept(id: string)
    | Reject(id: string, script: seq<MyersRebuild.EditOp>)
    | AcceptAll
    | RejectAll
    | Select(document: string)
    | SetMode(mode: Mode)

  /** What the edit-script path yields when a block is rejected. `script` leads from the original to the text the
      file was loaded with. */
  function RejectedByScript(c: Context, id: string, script: seq<MyersRebuild.EditOp>): string {
    match IndexOf(c.mods.items, id)
    case None => c.content
    case Some(i) => MyersRebuild.Rebuilt(c.original, script, c.mods.items[i := c.mods.items[i].(status := Rejected)])
  }

  function Edited(c: Context, e: Edit, ref: nat): Context {
    match e
    case Accept(id) => DiffContext.Accept(c, id, ref)
    case Reject(id, script) => DiffContext.Reject(c, id, RejectedByScript(c, id, script), ref)
    case AcceptAll => DiffContext.AcceptAll(c, ref)
    case RejectAll => DiffContext.RejectAll(c, ref)
    case Select(document) => SelectFile(c, document)
    case SetMode(mode) => SwitchMode(c, mode)
  }

  /** The review mode opens only while some block is pending, on the first file that has one. */
  function SwitchMode(c: Context, mode: Mode): Context {
    if mode == Normal || HasPending(c.mods.items) then c.(mode := mode)
    else
      match FirstPending(c.entries, c.activeFileId)
      case None => c
      case Some(next) => Apply(c.(mode := Diff), next)
  }

  /** A context nobody loaded has no blocks and no files to act on. */
  function EditContext(s: Store, context: string, e: Edit): Store {
    if context !in s.contexts && (e.Accept? || e.Reject? || e.Select? || e == SetMode(Diff)) then s
    else Set(s, context, Edited(ContextOf(s, context), e, s.nextRef + REFS_PER_STEP))
  }

  function ResumeTask(s: Store, t: Task, answer: Answer): (Store, Option<Task>) {
    match t
    case LoadTask(l) =>
      var (s', l') := ResumeLoad(s, l, answer);
      (s', if l'.Some? then Some(LoadTask(l'.value)) else None)
    case MoveTask(m) => ResumeMove(s, m, answer)
    case RollbackTask(r) => ResumeRollback(s, r, answer)
    case RepairTask(p) => (s, ResumeRepair(s, p, answer))
  }

  /** The store and the suspended operations, each under its own number. */
  datatype System = System(store: Store, tasks: map<nat, Task>, nextTask: nat)

  /** Nothing loaded and nothing in flight. */
  function Initially(): System {
    System(Store(map[], map[], map[], map[], map[], [], 0), map[], 0)
  }

  datatype Event =
    | StartLoad(args: LoadArgs)
    | StartMove(direction: Direction, context: string)
    | StartRollback(context: string, snapshot: string)
    | Resume(id: nat, answer: Answer)
    | EditEvent(context: string, edit: Edit)
    | DeleteEvent(context: string, path: string, isDirectory: bool)

  function Spawn(y: System, s: Store, t: Option<Task>): System {
    if t.Some? then System(s, y.tasks[y.nextTask := t.value], y.nextTask + 1) else y.(store := s)
  }

  function Stretch(y: System, e: Event): System {
    match e
    case StartLoad(a) => var (s, l) := BeginLoad(y.store, a); Spawn(y, s, Some(LoadTask(l)))
    case StartMove(d, context) => var (s, t) := BeginMove(y.store, d, context); Spawn(y, s, t)
    case StartRollback(context, snapshot) => var (s, t) := BeginRollback(y.store, context, snapshot); Spawn(y, s, t)
    case Resume(id, answer) =>
      if id !in y.tasks then y
      else
        var (s, t) := ResumeTask(y.store, y.tasks[id], answer);
        System(s, if t.Some? then y.tasks[id := t.value] else y.tasks - {id}, y.nextTask)
    case EditEvent(context, edit) => y.(store := EditContext(y.store, context, edit))
    case DeleteEvent(context, path, isDirectory) => y.(store := DeletePath(y.store, context, path, isDirectory))
  }

  function Renumber(s: Store, ref: nat): Store {
    s.(nextRef := ref)
  }

  /** One stretch; the arrays it allocates are new. */
  function Next(y: System, e: Event): System {
    var z := Stretch(y, e);
    z.(store := Renumber(z.store, y.store.nextRef + 2 * REFS_PER_STEP))
  }

  function Run(y: System, events: seq<Event>): System
    decreases |events|
  {
    if events == [] then y else Run(Next(y, events[0]), events[1..])
  }
}
