/** The human-in-the-loop rendezvous: a running sub-agent waits for the user, the user resumes it with an optional
message, in either order; abort and cleanup may come between. */
module HitlRendezvous {
  import opened Modifications

  /** The message of one resume; resumes are numbered in the order they are made. */
  datatype Note = Note(serial: nat, text: Option<string>)

  /** The promise of one wait. */
  datatype Outcome = Waiting | Delivered(note: Note) | Aborted

  datatype Wait = Wait(context: string, outcome: Outcome)

  datatype Hitl = Hitl(
    paused: set<string>,
    preResolved: set<string>,
    resolvers: map<string, nat>,
    stored: map<string, Note>,
    waits: map<nat, Wait>,
    nextWait: nat,
    nextSerial: nat)

  function Initially(): Hitl {
    Hitl({}, {}, map[], map[], map[], 0, 0)
  }

  /** An empty message never replaces a stored one that says something. */
  function Keep(before: Option<Note>, note: Note): Note {
    if before.Some? && before.value.text.Some? && note.text == None then before.value else note
  }

  function Stored(h: Hitl, context: string): Option<Note> {
    if context in h.stored then Some(h.stored[context]) else None
  }

  function Resumed(h: Hitl, context: string, text: Option<string>): Hitl {
    var note := Note(h.nextSerial, text);
    var g := h.(paused := h.paused - {context}, nextSerial := h.nextSerial + 1);
    if context in h.resolvers then
      var w := h.resolvers[context];
      g.(resolvers := h.resolvers - {context}, waits := h.waits[w := Wait(context, Delivered(note))])
    else
      g.(stored := h.stored[context := Keep(Stored(h, context), note)], preResolved := h.preResolved + {context})
  }

  function Waited(h: Hitl, context: string, aborted: bool): Hitl {
    var g := h.(nextWait := h.nextWait + 1);
    if aborted then
      g.(paused := h.paused - {context}, waits := h.waits[h.nextWait := Wait(context, Aborted)])
    else if context in h.stored then
      g.(stored := h.stored - {context}, preResolved := h.preResolved - {context},
         waits := h.waits[h.nextWait := Wait(context, Delivered(h.stored[context]))])
    else
      g.(resolvers := h.resolvers[context := h.nextWait], waits := h.waits[h.nextWait := Wait(context, Waiting)])
  }

  function CleanedUp(h: Hitl, context: string): Hitl {
    h.(paused := h.paused - {context}, preResolved := h.preResolved - {context},
       resolvers := h.resolvers - {context}, stored := h.stored - {context})
  }

  predicate Listening(h: Hitl, w: nat) {
    w in h.waits && h.waits[w].outcome.Waiting?
  }

  /** The abort signal of a wait fires; a settled wait no longer listens. */
  function SignalAborted(h: Hitl, w: nat): Hitl {
    if Listening(h, w) then
      CleanedUp(h, h.waits[w].context).(waits := h.waits[w := h.waits[w].(outcome := Aborted)])
    else h
  }

  datatype Event =
    | Pause(context: string)
    | Resume(context: string, text: Option<string>)
    | WaitForResume(context: string, aborted: bool)
    | Abort(wait: nat)
    | Cleanup(context: string)

  function Step(h: Hitl, e: Event): Hitl {
    match e
    case Pause(context) => h.(paused := h.paused + {context})
    case Resume(context, text) => Resumed(h, context, text)
    case WaitForResume(context, aborted) => Waited(h, context, aborted)
    case Abort(w) => SignalAborted(h, w)
    case Cleanup(context) => CleanedUp(h, context)
  }

  function After(events: seq<Event>): Hitl
    decreases |events|
  {
    if events == [] then Initially() else Step(After(events[..|events| - 1]), events[|events| - 1])
  }

  // ---------------------------------------------------------------- in every run

  /** The visible marks mirror the stored messages, a context never holds a waiter and a message at once, and every
      resolver belongs to a wait that is still unsettled. */
  predicate Sound(h: Hitl) {
    && h.preResolved == h.stored.Keys
    && h.stored.Keys !! h.resolvers.Keys
    && (forall c :: c in h.resolvers ==> h.resolvers[c] in h.waits && h.waits[h.resolvers[c]] == Wait(c, Waiting))
    && (forall w :: w in h.waits ==> w < h.nextWait)
  }

  lemma StaysSound(h: Hitl, e: Event)
    requires Sound(h)
    ensures Sound(Step(h, e))
  {
  }

  /** Main result: the invariant holds in every run. */
  lemma {:induction false} AlwaysSound(events: seq<Event>)
    ensures Sound(After(events))
    decreases |events|
  {
    if events != [] {
      hide Sound, Step;
      AlwaysSound(events[..|events| - 1]);
      StaysSound(After(events[..|events| - 1]), events[|events| - 1]);
    } else {
      assert Sound(Initially());
    }
  }

  predicate IsPaused(h: Hitl, context: string) {
    context in h.paused || context in h.preResolved
  }

  /** What the user sees as paused: asked to pause, or resumed with a message nobody has picked up yet. */
  lemma PausedMeans(events: seq<Event>, context: string)
    ensures IsPaused(After(events), context) <==> context in After(events).paused || Stored(After(events), context).Some?
  {
    AlwaysSound(events);
  }

  /** The context was asked to pause, and nothing has answered since: no resume, no wait that was aborted at its start, no abort of a
      wait of the context, no cleanup. */
  predicate AskedSince(events: seq<Event>, context: string)
    decreases |events|
  {
    events != [] &&
      var before := events[..|events| - 1];
      match events[|events| - 1]
      case Pause(c) => c == context || AskedSince(before, context)
      case Resume(c, _) => c != context && AskedSince(before, context)
      case WaitForResume(c, aborted) => !(c == context && aborted) && AskedSince(before, context)
      case Abort(w) => !(Listening(After(before), w) && After(before).waits[w].context == context) && AskedSince(before, context)
      case Cleanup(c) => c != context && AskedSince(before, context)
  }

  /** A context stays asked to pause until something answers. */
  lemma {:induction false} PauseLasts(events: seq<Event>, context: string)
    ensures context in After(events).paused <==> AskedSince(events, context)
    decreases |events|
  {
    if events != [] {
      hide After;
      PauseLasts(events[..|events| - 1], context);
      assert After(events) == Step(After(events[..|events| - 1]), events[|events| - 1]) by { LastStep(events); }
    } else {
      assert After(events) == Initially() by { NoStep(); }
    }
  }

  lemma LastStep(events: seq<Event>)
    requires events != []
    ensures After(events) == Step(After(events[..|events| - 1]), events[|events| - 1])
  {
  }

  lemma NoStep()
    ensures After([]) == Initially()
  {
  }

  // ---------------------------------------------------------------- no resume is lost

  /** The resumes of a context that no wait, abort or cleanup has used up. */
  function Unused(events: seq<Event>, context: string): seq<Option<string>>
    decreases |events|
  {
    if events == [] then []
    else
      var before := events[..|events| - 1];
      var h := After(before);
      match events[|events| - 1]
      case Resume(c, text) =>
        if c != context then Unused(before, context) else if c in h.resolvers then [] else Unused(before, context) + [text]
      case WaitForResume(c, aborted) => if c == context && !aborted then [] else Unused(before, context)
      case Abort(w) => if Listening(h, w) && h.waits[w].context == context then [] else Unused(before, context)
      case Cleanup(c) => if c == context then [] else Unused(before, context)
      case Pause(_) => Unused(before, context)
  }

  /** The last message that says something, if any does. */
  function LastMessage(texts: seq<Option<string>>): Option<string> {
    if texts == [] then None
    else if texts[|texts| - 1].Some? then texts[|texts| - 1]
    else LastMessage(texts[..|texts| - 1])
  }

  lemma LastMessageOf(texts: seq<Option<string>>, text: Option<string>)
    ensures LastMessage(texts + [text]) == if text.Some? then text else LastMessage(texts)
  {
    assert (texts + [text])[..|texts|] == texts;
  }

  predicate StoresLast(h: Hitl, context: string, texts: seq<Option<string>>) {
    if texts == [] then Stored(h, context) == None
    else Stored(h, context).Some? && Stored(h, context).value.text == LastMessage(texts)
  }

  lemma ResumeStores(h: Hitl, context: string, text: Option<string>, texts: seq<Option<string>>)
    requires Sound(h) && StoresLast(h, context, texts)
    ensures StoresLast(Resumed(h, context, text), context, if context in h.resolvers then [] else texts + [text])
  {
    LastMessageOf(texts, text);
  }

  /** An event that leaves the context alone. */
  lemma OtherEvent(h: Hitl, e: Event, context: string, texts: seq<Option<string>>)
    requires StoresLast(h, context, texts)
    requires match e
             case Pause(_) => true
             case Resume(c, _) => c != context
             case WaitForResume(c, aborted) => c != context || aborted
             case Abort(w) => !Listening(h, w) || h.waits[w].context != context
             case Cleanup(c) => c != context
    ensures StoresLast(Step(h, e), context, texts)
  {
  }

  /** Main result: what is stored for a context is the last meaningful message among the unused resumes, and
      something is stored exactly when there is one. */
  lemma {:induction false} StoredIsLastMessage(events: seq<Event>, context: string)
    ensures StoresLast(After(events), context, Unused(events, context))
    decreases |events|
  {
    if events != [] {
      hide StoresLast;
      var before, e := events[..|events| - 1], events[|events| - 1];
      var h := After(before);
      AlwaysSound(before);
      StoredIsLastMessage(before, context);
      if e.Resume? && e.context == context {
        ResumeStores(h, context, e.text, Unused(before, context));
      } else if Unused(events, context) == Unused(before, context) && Stored(Step(h, e), context) == Stored(h, context) {
        SameStored(h, Step(h, e), context, Unused(before, context));
      } else if UsesUp(h, e, context) {
        UsedUp(h, e, context);
      } else {
        OtherEvent(h, e, context, Unused(before, context));
      }
    }
  }

  predicate UsesUp(h: Hitl, e: Event, context: string) {
    match e
    case WaitForResume(c, aborted) => c == context && !aborted
    case Abort(w) => Listening(h, w) && h.waits[w].context == context
    case Cleanup(c) => c == context
    case _ => false
  }

  lemma UsedUp(h: Hitl, e: Event, context: string)
    requires UsesUp(h, e, context)
    ensures StoresLast(Step(h, e), context, [])
  {
  }

  lemma SameStored(h: Hitl, g: Hitl, context: string, texts: seq<Option<string>>)
    requires StoresLast(h, context, texts) && Stored(g, context) == Stored(h, context)
    ensures StoresLast(g, context, texts)
  {
  }

  /** Main result: a resume before the wait is never lost. The next wait that is not aborted returns at once
      with the last meaningful message, and it suspends exactly when there is no unused resume. */
  lemma WaitReceivesLastMessage(events: seq<Event>, context: string)
    ensures var w := After(events).nextWait;
            var g := Step(After(events), WaitForResume(context, false));
            && w in g.waits && g.waits[w].context == context
            && (if Unused(events, context) == [] then g.waits[w].outcome.Waiting?
                else g.waits[w].outcome.Delivered? && g.waits[w].outcome.note.text == LastMessage(Unused(events, context)))
  {
    StoredIsLastMessage(events, context);
  }

  // ---------------------------------------------------------------- at most once

  /** Once settled, a wait keeps its outcome. */
  lemma {:induction false} SettledOnce(events: seq<Event>, n: nat, w: nat)
    requires n <= |events| && w in After(events[..n]).waits && !Listening(After(events[..n]), w)
    ensures w in After(events).waits && After(events).waits[w] == After(events[..n]).waits[w]
    decreases |events|
  {
    if n == |events| {
      assert events[..n] == events;
    } else {
      var before := events[..|events| - 1];
      assert before[..n] == events[..n];
      SettledOnce(before, n, w);
      AlwaysSound(before);
      SettledStays(After(before), events[|events| - 1], w);
    }
  }

  lemma SettledStays(h: Hitl, e: Event, w: nat)
    requires Sound(h) && w in h.waits
    ensures !Listening(h, w) ==> w in Step(h, e).waits && Step(h, e).waits[w] == h.waits[w]
  {
  }

  predicate Received(h: Hitl, w: nat, serial: nat) {
    w in h.waits && h.waits[w].outcome.Delivered? && h.waits[w].outcome.note.serial == serial
  }

  /** No message is delivered to two waits, and a stored one was delivered to none and is stored once. */
  ghost predicate NoteOnce(h: Hitl) {
    && (forall v, w, n :: Received(h, v, n) && Received(h, w, n) ==> v == w)
    && (forall c, w :: c in h.stored ==> !Received(h, w, h.stored[c].serial))
    && (forall c, d :: c in h.stored && d in h.stored && h.stored[c].serial == h.stored[d].serial ==> c == d)
  }

  predicate Old(h: Hitl) {
    && (forall w :: w in h.waits && h.waits[w].outcome.Delivered? ==> h.waits[w].outcome.note.serial < h.nextSerial)
    && (forall c :: c in h.stored ==> h.stored[c].serial < h.nextSerial)
  }

  lemma NoteStaysOnce(h: Hitl, e: Event)
    requires Sound(h) && Old(h) && NoteOnce(h)
    ensures Old(Step(h, e)) && NoteOnce(Step(h, e))
  {
    if e.Resume? {
      if e.context in h.resolvers { ResumeDelivers(h, e.context, e.text); } else { ResumeKeeps(h, e.context, e.text); }
    } else if e.WaitForResume? && !e.aborted && e.context in h.stored {
      WaitDelivers(h, e.context);
    } else {
      var g := Step(h, e);
      forall w: nat, n: nat | Received(g, w, n) ensures Received(h, w, n) {
      }
      NothingNew(h, g);
    }
  }

  lemma NothingNew(h: Hitl, g: Hitl)
    requires NoteOnce(h)
    requires forall w, n :: Received(g, w, n) ==> Received(h, w, n)
    requires forall c :: c in g.stored ==> c in h.stored && h.stored[c] == g.stored[c]
    ensures NoteOnce(g)
  {
  }

  lemma ResumeDelivers(h: Hitl, context: string, text: Option<string>)
    requires Old(h) && NoteOnce(h) && context in h.resolvers
    ensures NoteOnce(Resumed(h, context, text))
  {
    var g := Resumed(h, context, text);
    forall w: nat, n: nat | Received(g, w, n) ensures if w == h.resolvers[context] then n == h.nextSerial else Received(h, w, n) && n < h.nextSerial {
    }
  }

  lemma ResumeKeeps(h: Hitl, context: string, text: Option<string>)
    requires Old(h) && NoteOnce(h) && context !in h.resolvers
    ensures NoteOnce(Resumed(h, context, text))
  {
    var g := Resumed(h, context, text);
    forall w: nat, n: nat | Received(g, w, n) ensures Received(h, w, n) && n < h.nextSerial {
    }
  }

  lemma WaitDelivers(h: Hitl, context: string)
    requires Sound(h) && NoteOnce(h) && context in h.stored
    ensures NoteOnce(Waited(h, context, false))
  {
    var g := Waited(h, context, false);
    forall w: nat, n: nat | Received(g, w, n) ensures if w == h.nextWait then n == h.stored[context].serial else Received(h, w, n) {
    }
  }

  /** Main result: in every run each resume reaches at most one wait. */
  lemma {:induction false} DeliveredAtMostOnce(events: seq<Event>)
    ensures Old(After(events)) && NoteOnce(After(events))
    decreases |events|
  {
    if events != [] {
      hide Sound, Old, NoteOnce, Step;
      AlwaysSound(events[..|events| - 1]);
      DeliveredAtMostOnce(events[..|events| - 1]);
      NoteStaysOnce(After(events[..|events| - 1]), events[|events| - 1]);
    } else {
      assert Old(Initially()) && NoteOnce(Initially());
    }
  }

  // ---------------------------------------------------------------- lost waiters

  predicate Registered(h: Hitl, w: nat) {
    Listening(h, w) && h.waits[w].context in h.resolvers && h.resolvers[h.waits[w].context] == w
  }

  /** A registered wait stops being reachable by a resume without being settled exactly when its context is cleaned
      up under it, a second wait of the context suspends, or another wait of the context is aborted. */
  lemma WaiterIsStrandedWhen(h: Hitl, e: Event, w: nat)
    requires Sound(h) && Registered(h, w)
    ensures Listening(Step(h, e), w) && !Registered(Step(h, e), w) <==>
            match e
            case Cleanup(c) => c == h.waits[w].context
            case WaitForResume(c, aborted) => c == h.waits[w].context && !aborted
            case Abort(v) => v != w && Listening(h, v) && h.waits[v].context == h.waits[w].context
            case _ => false
  {
  }

  ghost predicate NobodyWaits(h: Hitl, context: string) {
    forall w :: Listening(h, w) ==> h.waits[w].context != context
  }

  /** At most one wait is outstanding per context, and a context is cleaned up when none is. */
  ghost predicate OneAtATime(h: Hitl, e: Event) {
    match e
    case WaitForResume(c, aborted) => aborted || NobodyWaits(h, c)
    case Cleanup(c) => NobodyWaits(h, c)
    case _ => true
  }

  ghost predicate AllOneAtATime(events: seq<Event>)
    decreases |events|
  {
    events == [] || (AllOneAtATime(events[..|events| - 1]) && OneAtATime(After(events[..|events| - 1]), events[|events| - 1]))
  }

  ghost predicate AllRegistered(h: Hitl) {
    forall w :: Listening(h, w) ==> Registered(h, w)
  }

  lemma StaysRegistered(h: Hitl, e: Event)
    requires Sound(h) && AllRegistered(h) && OneAtATime(h, e)
    ensures AllRegistered(Step(h, e))
  {
    var g := Step(h, e);
    forall w | Listening(g, w) ensures Registered(g, w) {
      if w in h.waits {
        SettledStays(h, e, w);
        assert Registered(h, w);
        WaiterIsStrandedWhen(h, e, w);
      }
    }
  }

  /** Main result: with one wait at a time per context, every suspended wait is woken by the next resume of its
      context, with that very message. */
  lemma {:induction false} NoWaiterIsStranded(events: seq<Event>)
    requires AllOneAtATime(events)
    ensures AllRegistered(After(events))
    decreases |events|
  {
    if events != [] {
      hide Sound, AllRegistered, OneAtATime, Step;
      AlwaysSound(events[..|events| - 1]);
      NoWaiterIsStranded(events[..|events| - 1]);
      StaysRegistered(After(events[..|events| - 1]), events[|events| - 1]);
    } else {
      assert AllRegistered(Initially());
    }
  }

  lemma ResumeWakes(events: seq<Event>, w: nat, text: Option<string>)
    requires AllOneAtATime(events) && Listening(After(events), w)
    ensures var h := After(events);
            Step(h, Resume(h.waits[w].context, text)).waits[w].outcome == Delivered(Note(h.nextSerial, text))
  {
    NoWaiterIsStranded(events);
    assert Registered(After(events), w);
  }

  // ---------------------------------------------------------------- the store

  class HitlStore {
    var pausedContexts: set<string>
    var preResolvedContexts: set<string>
    var resolversMap: map<string, nat>
    var preResolvedMap: map<string, Note>
    var waits: map<nat, Wait>
    var nextWait: nat
    var nextSerial: nat

    function View(): Hitl
      reads this
    {
      Hitl(pausedContexts, preResolvedContexts, resolversMap, preResolvedMap, waits, nextWait, nextSerial)
    }

    ghost predicate Valid()
      reads this
    {
      Sound(View())
    }

    constructor ()
      ensures Valid() && View() == Initially()
    {
      pausedContexts, preResolvedContexts, resolversMap, preResolvedMap := {}, {}, map[], map[];
      waits, nextWait, nextSerial := map[], 0, 0;
    }

    method RequestPause(context: string)
      requires Valid()
      modifies this
      ensures Valid() && View() == Step(old(View()), Pause(context))
    {
      pausedContexts := pausedContexts + {context};
    }

    method ResumeWith(context: string, text: Option<string>)
      requires Valid()
      modifies this
      ensures Valid() && View() == Step(old(View()), Resume(context, text))
    {
      StaysSound(View(), Resume(context, text));
      var note := Note(nextSerial, text);
      nextSerial := nextSerial + 1;
      pausedContexts := pausedContexts - {context};
      if context in resolversMap {
        var waiter := resolversMap[context];
        resolversMap := resolversMap - {context};
        waits := waits[waiter := Wait(context, Delivered(note))];
      } else {
        if context !in preResolvedMap || text.Some? || preResolvedMap[context].text == None {
          preResolvedMap := preResolvedMap[context := note];
        }
        preResolvedContexts := preResolvedContexts + {context};
      }
    }

    method StartWait(context: string, aborted: bool) returns (wait: nat)
      requires Valid()
      modifies this
      ensures Valid() && View() == Step(old(View()), WaitForResume(context, aborted)) && wait == old(nextWait)
    {
      StaysSound(View(), WaitForResume(context, aborted));
      wait := nextWait;
      nextWait := nextWait + 1;
      if aborted {
        pausedContexts := pausedContexts - {context};
        waits := waits[wait := Wait(context, Aborted)];
        return;
      }
      if context in preResolvedMap {
        var note := preResolvedMap[context];
        preResolvedMap := preResolvedMap - {context};
        preResolvedContexts := preResolvedContexts - {context};
        waits := waits[wait := Wait(context, Delivered(note))];
        return;
      }
      resolversMap := resolversMap[context := wait];
      waits := waits[wait := Wait(context, Waiting)];
    }

    method CleanupContext(context: string)
      requires Valid()
      modifies this
      ensures Valid() && View() == Step(old(View()), Cleanup(context))
    {
      StaysSound(View(), Cleanup(context));
      pausedContexts := pausedContexts - {context};
      preResolvedContexts := preResolvedContexts - {context};
      if context in resolversMap {
        resolversMap := resolversMap - {context};
      }
      if context in preResolvedMap {
        preResolvedMap := preResolvedMap - {context};
      }
    }

    /** The listener of an unsettled wait; a settled one has none. */
    method OnAbort(wait: nat)
      requires Valid()
      modifies this
      ensures Valid() && View() == Step(old(View()), Abort(wait))
    {
      StaysSound(View(), Abort(wait));
      if wait in waits && waits[wait].outcome.Waiting? {
        var context := waits[wait].context;
        resolversMap := resolversMap - {context};
        CleanupContext(context);
        waits := waits[wait := Wait(context, Aborted)];
      }
    }
  }
}
