/** Which run of a conversation may publish. A stopped run keeps executing while a newer one starts; every call
it still makes carries its run id, and the store compares that id with the owner of the sending state, of the
streaming state, and with the latest run. */
module ChatRuns {
  import opened Modifications

  // ---------------------------------------------------------------- one context's part of the store

  datatype Bubble = Bubble(content: string, reasoning: Option<string>, isStreaming: bool, agentName: Option<string>)

  /** What the store holds for one context; `C` is the type of abort controllers. */
  datatype Slot<C> = Slot(
    sending: bool,
    sendingRun: Option<string>,
    latest: Option<string>,
    bubble: Option<Bubble>,
    streamingRun: Option<string>,
    abort: Option<C>,
    session: Option<string>)

  /** An untagged call always passes; a tagged one passes for the owner only. */
  predicate Passes(owner: Option<string>, run: Option<string>) {
    run == None || owner == run
  }

  predicate Refuses<C>(s: Slot<C>, run: Option<string>) {
    run.Some? && s.sending && s.sendingRun != run
  }

  function StartSending<C>(s: Slot<C>, run: Option<string>): Slot<C> {
    if Refuses(s, run) then s else s.(sending := true, sendingRun := run, latest := run)
  }

  function FinishSending<C>(s: Slot<C>, run: Option<string>): Slot<C> {
    if Passes(s.sendingRun, run) then s.(sending := false, sendingRun := None) else s
  }

  /** A new owner starts without the abort controller and session of the previous one. */
  function StartStreaming<C>(s: Slot<C>, agentName: Option<string>, run: Option<string>): Slot<C> {
    if !Passes(s.sendingRun, run) then s
    else
      var takesOver := run.Some? && s.streamingRun != run;
      s.(bubble := Some(Bubble("", Some(""), true, agentName)), streamingRun := run,
         abort := if takesOver then None else s.abort,
         session := if takesOver then None else s.session)
  }

  datatype Write<C> =
    | AppendContent(chunk: string)
    | AppendReasoning(chunk: string)
    | SetContent(content: string)
    | SetAbort(controller: C)
    | SetSession(session: string)

  function Blank(reasoning: Option<string>): Bubble {
    Bubble("", reasoning, true, None)
  }

  function Written<C>(s: Slot<C>, w: Write<C>): Slot<C> {
    match w
    case AppendContent(chunk) =>
      var b := if s.bubble.Some? then s.bubble.value else Blank(None);
      s.(bubble := Some(b.(content := b.content + chunk, isStreaming := true)))
    case AppendReasoning(chunk) =>
      var b := if s.bubble.Some? then s.bubble.value else Blank(Some(""));
      var soFar := if b.reasoning.Some? then b.reasoning.value else "";
      s.(bubble := Some(b.(reasoning := Some(soFar + chunk), isStreaming := true)))
    case SetContent(content) =>
      var b := if s.bubble.Some? then s.bubble.value else Blank(None);
      s.(bubble := Some(b.(content := content, isStreaming := true)))
    case SetAbort(controller) => s.(abort := Some(controller))
    case SetSession(session) => s.(session := Some(session))
  }

  function WriteBy<C>(s: Slot<C>, w: Write<C>, run: Option<string>): Slot<C> {
    if Passes(s.streamingRun, run) then Written(s, w) else s
  }

  function FinishStreaming<C>(s: Slot<C>, run: Option<string>): Slot<C> {
    if !Passes(s.streamingRun, run) then s
    else
      s.(bubble := if s.bubble.Some? then Some(Bubble("", Some(""), false, s.bubble.value.agentName)) else None,
         streamingRun := None, abort := None, session := None)
  }

  /** Unlike finishing, stopping keeps the text written so far. */
  function StopStreaming<C>(s: Slot<C>, run: Option<string>): Slot<C> {
    if !Passes(s.streamingRun, run) then s
    else
      s.(bubble := if s.bubble.Some? then Some(s.bubble.value.(isStreaming := false)) else None,
         streamingRun := None, abort := None, session := None)
  }

  // ---------------------------------------------------------------- what the hooks do with it

  /** One synchronous stretch of a hook. A chat run ends its stream first and its sending state last; a planning
      run, and the button that stops one, give up both in one stretch. The chat stop button is not tagged. */
  datatype Step<C> =
    | Begin(run: string)
    | OpenStream(run: string, agentName: Option<string>)
    | Emit(run: string, write: Write<C>)
    | EndStream(run: string)
    | EndSending(run: string)
    | EndPlanning(run: string)
    | StopPlanning(run: string)
    | StopButton

  function Do<C>(s: Slot<C>, step: Step<C>): Slot<C> {
    match step
    case Begin(run) => StartSending(s, Some(run))
    case OpenStream(run, agentName) => StartStreaming(s, agentName, Some(run))
    case Emit(run, w) => WriteBy(s, w, Some(run))
    case EndStream(run) => FinishStreaming(s, Some(run))
    case EndSending(run) => FinishSending(s, Some(run))
    case EndPlanning(run) => FinishStreaming(FinishSending(s, Some(run)), Some(run))
    case StopPlanning(run) => StopStreaming(FinishSending(s, Some(run)), Some(run))
    case StopButton => StopStreaming(s, None)
  }

  /** The store of one context and how far its runs have come. */
  datatype Runs<C> = Runs(slot: Slot<C>, begun: set<string>, streamed: set<string>, ended: set<string>)

  function Initially<C>(): Runs<C> {
    Runs(Slot(false, None, None, None, None, None, None), {}, {}, {})
  }

  /** The order of calls within one run: its id is new, it opens its stream at most once and before ending it,
      and a chat run that opened it ends it before giving up the sending state. */
  predicate Allowed<C>(y: Runs<C>, step: Step<C>) {
    match step
    case Begin(run) => run !in y.begun
    case OpenStream(run, _) => run in y.begun && run !in y.streamed && run !in y.ended
    case EndSending(run) => run in y.begun && (run in y.streamed ==> run in y.ended)
    case StopButton => true
    case _ => step.run in y.begun
  }

  function Advance<C>(y: Runs<C>, step: Step<C>): Runs<C> {
    Runs(
      Do(y.slot, step),
      if step.Begin? then y.begun + {step.run} else y.begun,
      if step.OpenStream? then y.streamed + {step.run} else y.streamed,
      if step.EndStream? || step.EndPlanning? || step.StopPlanning? then y.ended + {step.run} else y.ended)
  }

  function After<C>(y: Runs<C>, steps: seq<Step<C>>): Runs<C>
    decreases |steps|
  {
    if steps == [] then y else Advance(After(y, steps[..|steps| - 1]), steps[|steps| - 1])
  }

  predicate AllAllowed<C>(y: Runs<C>, steps: seq<Step<C>>)
    decreases |steps|
  {
    steps == [] || (AllAllowed(y, steps[..|steps| - 1]) && Allowed(After(y, steps[..|steps| - 1]), steps[|steps| - 1]))
  }

  // ---------------------------------------------------------------- one owner

  /** The streaming owner is the sending owner and the latest run; only it has a controller or a session stored,
      and the bubble is live exactly while there is one. */
  predicate OneOwner<C>(y: Runs<C>) {
    && var s := y.slot;
    && (s.streamingRun.Some? ==> s.streamingRun == s.sendingRun && s.streamingRun.value in y.streamed && s.streamingRun.value !in y.ended)
    && (s.sending <==> s.sendingRun.Some?)
    && (s.sendingRun.Some? ==> s.sendingRun == s.latest)
    && (s.latest.Some? ==> s.latest.value in y.begun)
    && (s.abort.Some? || s.session.Some? ==> s.streamingRun.Some?)
    && (s.streamingRun.Some? <==> s.bubble.Some? && s.bubble.value.isStreaming)
    && y.streamed <= y.begun
  }

  lemma StaysOneOwner<C>(y: Runs<C>, step: Step<C>)
    requires OneOwner(y) && Allowed(y, step)
    ensures OneOwner(Advance(y, step))
  {
  }

  /** Main result: whatever the runs of a context do and however they interleave, there is one owner. */
  lemma {:induction false} RunsKeepOneOwner<C>(y: Runs<C>, steps: seq<Step<C>>)
    requires OneOwner(y) && AllAllowed(y, steps)
    ensures OneOwner(After(y, steps))
    decreases |steps|
  {
    if steps != [] {
      hide OneOwner, Allowed, Advance;
      RunsKeepOneOwner(y, steps[..|steps| - 1]);
      StaysOneOwner(After(y, steps[..|steps| - 1]), steps[|steps| - 1]);
    }
  }

  // ---------------------------------------------------------------- stale steps

  /** A step of a run that owns neither state, or the start of a run while another one is sending. */
  predicate Stale<C>(s: Slot<C>, step: Step<C>) {
    match step
    case StopButton => false
    case Begin(run) => Refuses(s, Some(run))
    case _ => s.sendingRun != Some(step.run) && s.streamingRun != Some(step.run)
  }

  function DoAll<C>(s: Slot<C>, steps: seq<Step<C>>): Slot<C>
    decreases |steps|
  {
    if steps == [] then s else DoAll(Do(s, steps[0]), steps[1..])
  }

  /** The steps that were not stale when they were taken. */
  function Live<C>(s: Slot<C>, steps: seq<Step<C>>): seq<Step<C>>
    decreases |steps|
  {
    if steps == [] then []
    else (if Stale(s, steps[0]) then [] else [steps[0]]) + Live(Do(s, steps[0]), steps[1..])
  }

  /** Main result: erasing the stale steps of any sequence of steps changes nothing. */
  lemma {:induction false} StaleStepsAreErasable<C>(s: Slot<C>, steps: seq<Step<C>>)
    ensures DoAll(s, Live(s, steps)) == DoAll(s, steps)
    decreases |steps|
  {
    if steps != [] {
      hide Stale, Do;
      StaleDoesNothing(s, steps[0]);
      var rest := Live(Do(s, steps[0]), steps[1..]);
      StaleStepsAreErasable(Do(s, steps[0]), steps[1..]);
      if Stale(s, steps[0]) {
        assert Live(s, steps) == rest;
      } else {
        assert Live(s, steps) == [steps[0]] + rest && ([steps[0]] + rest)[1..] == rest;
      }
    }
  }

  lemma StaleDoesNothing<C>(s: Slot<C>, step: Step<C>)
    ensures Stale(s, step) ==> Do(s, step) == s
  {
  }

  // ---------------------------------------------------------------- what the bubble shows

  /** What a run alone would have put in the store: its last opening and everything it wrote since. */
  datatype Shown<C> = Shown(bubble: Bubble, abort: Option<C>, session: Option<string>)

  function Opening<C>(agentName: Option<string>): Shown<C> {
    Shown(Bubble("", Some(""), true, agentName), None, None)
  }

  function Extended<C>(v: Shown<C>, w: Write<C>): Shown<C> {
    match w
    case AppendContent(chunk) => v.(bubble := v.bubble.(content := v.bubble.content + chunk))
    case AppendReasoning(chunk) =>
      v.(bubble := v.bubble.(reasoning := Some((if v.bubble.reasoning.Some? then v.bubble.reasoning.value else "") + chunk)))
    case SetContent(content) => v.(bubble := v.bubble.(content := content))
    case SetAbort(controller) => v.(abort := Some(controller))
    case SetSession(session) => v.(session := Some(session))
  }

  function ByItself<C>(steps: seq<Step<C>>, run: string): Shown<C>
    decreases |steps|
  {
    if steps == [] then Opening(None)
    else
      match steps[|steps| - 1]
      case OpenStream(r, agentName) => if r == run then Opening(agentName) else ByItself(steps[..|steps| - 1], run)
      case Emit(r, w) => if r == run then Extended(ByItself(steps[..|steps| - 1], run), w) else ByItself(steps[..|steps| - 1], run)
      case _ => ByItself(steps[..|steps| - 1], run)
  }

  ghost predicate Shows<C>(s: Slot<C>, v: Shown<C>) {
    s.bubble == Some(v.bubble) && s.abort == v.abort && s.session == v.session
  }

  /** One step under one owner: the stream is opened afresh, written by its owner, or left alone. */
  lemma StreamStep<C>(y: Runs<C>, step: Step<C>, run: string, v: Shown<C>)
    requires OneOwner(y) && Allowed(y, step) && Advance(y, step).slot.streamingRun == Some(run)
    requires y.slot.streamingRun == Some(run) ==> Shows(y.slot, v)
    ensures step.OpenStream? && step.run == run ==> Shows(Advance(y, step).slot, Opening(step.agentName))
    ensures step.Emit? && step.run == run ==> Shows(Advance(y, step).slot, Extended(v, step.write))
    ensures !(step.OpenStream? || step.Emit?) || step.run != run ==> Shows(Advance(y, step).slot, v)
  {
    hide Shows;
    if step.OpenStream? && step.run == run {
      assert y.slot.streamingRun != Some(run);
      OpensAfresh(y.slot, run, step.agentName);
    } else {
      assert y.slot.streamingRun == Some(run);
      if step.Emit? && step.run == run {
        WriteExtends(y.slot, v, step.write);
      } else {
        assert Do(y.slot, step).bubble == y.slot.bubble && Do(y.slot, step).abort == y.slot.abort && Do(y.slot, step).session == y.slot.session;
        SameShown(y.slot, Do(y.slot, step), v);
      }
    }
  }

  lemma OpensAfresh<C>(s: Slot<C>, run: string, agentName: Option<string>)
    requires s.sendingRun == Some(run) && s.streamingRun != Some(run)
    ensures Shows(StartStreaming(s, agentName, Some(run)), Opening(agentName))
  {
  }

  lemma WriteExtends<C>(s: Slot<C>, v: Shown<C>, w: Write<C>)
    requires Shows(s, v) && s.bubble.value.isStreaming
    ensures Shows(Written(s, w), Extended(v, w))
  {
  }

  lemma SameShown<C>(s: Slot<C>, t: Slot<C>, v: Shown<C>)
    requires Shows(s, v) && t.bubble == s.bubble && t.abort == s.abort && t.session == s.session
    ensures Shows(t, v)
  {
  }

  /** Main result: the bubble, the abort controller and the session of the streaming owner are exactly what that
      run would have produced alone since it opened its stream, whatever other runs did meanwhile. */
  lemma {:induction false} StreamIsTheOwners<C>(steps: seq<Step<C>>, run: string)
    requires AllAllowed(Initially(), steps) && After(Initially(), steps).slot.streamingRun == Some(run)
    ensures Shows(After(Initially(), steps).slot, ByItself(steps, run))
    decreases |steps|
  {
    if steps != [] {
      hide OneOwner, Allowed, Shows, Advance, Extended;
      var before, last := steps[..|steps| - 1], steps[|steps| - 1];
      var y := After(Initially(), before);
      OneOwnerAtFirst<C>();
      RunsKeepOneOwner(Initially(), before);
      if y.slot.streamingRun == Some(run) {
        StreamIsTheOwners(before, run);
      }
      StreamStep(y, last, run, ByItself(before, run));
    }
  }

  lemma OneOwnerAtFirst<C>()
    ensures OneOwner(Initially<C>())
  {
  }

  // ---------------------------------------------------------------- how a stream ends

  lemma OneMore<C>(steps: seq<Step<C>>, step: Step<C>)
    ensures After(Initially(), steps + [step]) == Advance(After(Initially(), steps), step)
    ensures AllAllowed(Initially(), steps) && Allowed(After(Initially(), steps), step) ==> AllAllowed(Initially(), steps + [step])
  {
    assert (steps + [step])[..|steps|] == steps && (steps + [step])[|steps|] == step;
  }

  /** Main result: stopping keeps everything the owner had written on screen and takes its stream away; the chat stop button
      leaves the sending state alone, the planning one gives it up. */
  lemma StopKeepsText<C>(steps: seq<Step<C>>, run: string)
    requires AllAllowed(Initially(), steps) && After(Initially(), steps).slot.streamingRun == Some(run)
    ensures var s, kept := After(Initially(), steps).slot, ByItself(steps, run).bubble.(isStreaming := false);
            && After(Initially(), steps + [StopButton]).slot ==
                 s.(bubble := Some(kept), streamingRun := None, abort := None, session := None)
            && AllAllowed(Initially(), steps + [StopPlanning(run)])
            && After(Initially(), steps + [StopPlanning(run)]).slot ==
                 s.(bubble := Some(kept), streamingRun := None, abort := None, session := None, sending := false, sendingRun := None)
  {
    hide AllAllowed;
    StreamIsTheOwners(steps, run);
    OneOwnerAtFirst<C>();
    RunsKeepOneOwner(Initially(), steps);
    OneMore(steps, StopButton);
    OneMore(steps, StopPlanning(run));
  }

  /** Main result: ending a stream empties the bubble, whose agent stays the one it was opened with, and leaves the sending
      state of a chat run alone; a planning run gives both up. */
  lemma EndEmptiesText<C>(steps: seq<Step<C>>, run: string)
    requires AllAllowed(Initially(), steps) && After(Initially(), steps).slot.streamingRun == Some(run)
    ensures var s, empty := After(Initially(), steps).slot, Bubble("", Some(""), false, AgentOf(steps, run));
            && After(Initially(), steps + [EndStream(run)]).slot ==
                 s.(bubble := Some(empty), streamingRun := None, abort := None, session := None)
            && After(Initially(), steps + [EndPlanning(run)]).slot ==
                 s.(bubble := Some(empty), streamingRun := None, abort := None, session := None, sending := false, sendingRun := None)
  {
    hide AllAllowed;
    StreamIsTheOwners(steps, run);
    AgentStays(steps, run);
    OneOwnerAtFirst<C>();
    RunsKeepOneOwner(Initially(), steps);
    OneMore(steps, EndStream(run));
    OneMore(steps, EndPlanning(run));
  }

  /** The agent the run last opened its stream for. */
  function AgentOf<C>(steps: seq<Step<C>>, run: string): Option<string> {
    if steps == [] then None
    else
      var last := steps[|steps| - 1];
      if last.OpenStream? && last.run == run then last.agentName else AgentOf(steps[..|steps| - 1], run)
  }

  lemma {:induction false} AgentStays<C>(steps: seq<Step<C>>, run: string)
    ensures ByItself(steps, run).bubble.agentName == AgentOf(steps, run)
  {
    if steps != [] {
      AgentStays(steps[..|steps| - 1], run);
    }
  }

  /** What was kept stays on screen until the next stream is opened, whatever calls still come in. */
  lemma {:induction false} KeptTextStays<C>(y: Runs<C>, steps: seq<Step<C>>)
    requires OneOwner(y) && y.slot.streamingRun == None && AllAllowed(y, steps)
    requires forall step :: step in steps ==> !step.OpenStream?
    ensures After(y, steps).slot.bubble == y.slot.bubble && After(y, steps).slot.streamingRun == None
    decreases |steps|
  {
    if steps != [] {
      hide Allowed;
      KeptTextStays(y, steps[..|steps| - 1]);
      RunsKeepOneOwner(y, steps[..|steps| - 1]);
    }
  }

  // ---------------------------------------------------------------- the sending state

  /** A run that starts while nobody is sending becomes the sending one and the latest. One that starts while another is sending
      changes nothing. */
  lemma BeginTakes<C>(y: Runs<C>, run: string)
    requires OneOwner(y)
    ensures var s := Advance(y, Begin(run)).slot;
            if y.slot.sendingRun == None || y.slot.sendingRun == Some(run)
            then s == y.slot.(sending := true, sendingRun := Some(run), latest := Some(run))
            else s == y.slot
  {
  }

  /** The sending run gives the state up when it ends, so that another can take it; any other run does not. */
  lemma EndGivesUp<C>(y: Runs<C>, run: string)
    requires OneOwner(y)
    ensures var s := Advance(y, EndSending(run)).slot;
            s == if y.slot.sendingRun == Some(run) then y.slot.(sending := false, sendingRun := None) else y.slot
  {
  }

  /** The sending run can open its stream at any time; no other run can. */
  lemma OpensWhen<C>(y: Runs<C>, run: string, agentName: Option<string>)
    requires OneOwner(y) && Allowed(y, OpenStream(run, agentName))
    ensures var s := Advance(y, OpenStream(run, agentName)).slot;
            if y.slot.sendingRun == Some(run)
            then s == y.slot.(bubble := Some(Bubble("", Some(""), true, agentName)), streamingRun := Some(run), abort := None, session := None)
            else s == y.slot
  {
  }

  // ---------------------------------------------------------------- lost is lost

  /** The rights a run had and lost. */
  predicate Lost<C>(y: Runs<C>, run: string, latest: bool, sending: bool, streaming: bool) {
    && run in y.begun
    && (latest ==> y.slot.latest != Some(run))
    && (sending ==> y.slot.sendingRun != Some(run))
    && (streaming ==> run in y.streamed && y.slot.streamingRun != Some(run))
  }

  lemma LostStays<C>(y: Runs<C>, step: Step<C>, run: string, latest: bool, sending: bool, streaming: bool)
    requires Allowed(y, step) && Lost(y, run, latest, sending, streaming)
    ensures Lost(Advance(y, step), run, latest, sending, streaming)
  {
  }

  /** Main result: a run that is no longer the latest, no longer sending or no longer streaming never is again. */
  lemma {:induction false} LostIsLost<C>(y: Runs<C>, steps: seq<Step<C>>, run: string, latest: bool, sending: bool, streaming: bool)
    requires AllAllowed(y, steps) && Lost(y, run, latest, sending, streaming)
    ensures Lost(After(y, steps), run, latest, sending, streaming)
    decreases |steps|
  {
    if steps != [] {
      hide Allowed, Advance, Lost;
      LostIsLost(y, steps[..|steps| - 1], run, latest, sending, streaming);
      LostStays(After(y, steps[..|steps| - 1]), steps[|steps| - 1], run, latest, sending, streaming);
    }
  }

  // ---------------------------------------------------------------- the store

  class AbortController {
    var aborted: bool

    constructor ()
      ensures !aborted
    {
      aborted := false;
    }

    method Abort()
      modifies this
      ensures aborted
    {
      aborted := true;
    }
  }

  function Find<V>(m: map<string, V>, k: string): Option<V> {
    if k in m then Some(m[k]) else None
  }

  class ChatStore {
    var sendingContexts: set<string>
    var sendingRunIds: map<string, string>
    var latestRunIds: map<string, string>
    var bubbles: map<string, Bubble>
    var streamingRunIds: map<string, string>
    var abortControllers: map<string, AbortController>
    var sessionIds: map<string, string>

    function At(context: string): Slot<AbortController>
      reads this
    {
      Slot(context in sendingContexts, Find(sendingRunIds, context), Find(latestRunIds, context), Find(bubbles, context),
           Find(streamingRunIds, context), Find(abortControllers, context), Find(sessionIds, context))
    }

    constructor ()
      ensures forall c :: At(c) == Initially<AbortController>().slot
    {
      sendingContexts, sendingRunIds, latestRunIds := {}, map[], map[];
      bubbles, streamingRunIds, abortControllers, sessionIds := map[], map[], map[], map[];
    }

    method BeginSending(context: string, run: Option<string>) returns (started: bool)
      modifies this
      ensures At(context) == StartSending(old(At(context)), run) && started == !Refuses(old(At(context)), run)
      ensures forall c :: c != context ==> At(c) == old(At(c))
    {
      if run.Some? && context in sendingContexts && !(context in sendingRunIds && sendingRunIds[context] == run.value) {
        return false;
      }
      sendingContexts := sendingContexts + {context};
      if run.Some? {
        sendingRunIds := sendingRunIds[context := run.value];
        latestRunIds := latestRunIds[context := run.value];
      } else {
        sendingRunIds := sendingRunIds - {context};
        latestRunIds := latestRunIds - {context};
      }
      return true;
    }

    method EndSendingFor(context: string, run: Option<string>) returns (finished: bool)
      modifies this
      ensures At(context) == FinishSending(old(At(context)), run) && finished == Passes(old(At(context)).sendingRun, run)
      ensures forall c :: c != context ==> At(c) == old(At(c))
    {
      if run.Some? && !(context in sendingRunIds && sendingRunIds[context] == run.value) {
        return false;
      }
      sendingContexts := sendingContexts - {context};
      sendingRunIds := sendingRunIds - {context};
      return true;
    }

    method OpenStreaming(context: string, agentName: Option<string>, run: Option<string>) returns (started: bool)
      modifies this
      ensures At(context) == StartStreaming(old(At(context)), agentName, run) && started == Passes(old(At(context)).sendingRun, run)
      ensures forall c :: c != context ==> At(c) == old(At(c))
    {
      if run.Some? && !(context in sendingRunIds && sendingRunIds[context] == run.value) {
        return false;
      }
      bubbles := bubbles[context := Bubble("", Some(""), true, agentName)];
      if run.Some? {
        if !(context in streamingRunIds && streamingRunIds[context] == run.value) {
          abortControllers := abortControllers - {context};
          sessionIds := sessionIds - {context};
        }
        streamingRunIds := streamingRunIds[context := run.value];
      } else {
        streamingRunIds := streamingRunIds - {context};
      }
      return true;
    }

    method WriteStreaming(context: string, w: Write<AbortController>, run: Option<string>)
      modifies this
      ensures At(context) == WriteBy(old(At(context)), w, run)
      ensures forall c :: c != context ==> At(c) == old(At(c))
    {
      if run.Some? && !(context in streamingRunIds && streamingRunIds[context] == run.value) {
        return;
      }
      match w {
        case AppendContent(chunk) =>
          var current := if context in bubbles then bubbles[context] else Blank(None);
          bubbles := bubbles[context := Bubble(current.content + chunk, current.reasoning, true, current.agentName)];
        case AppendReasoning(chunk) =>
          var current := if context in bubbles then bubbles[context] else Blank(Some(""));
          var soFar := if current.reasoning.Some? then current.reasoning.value else "";
          bubbles := bubbles[context := Bubble(current.content, Some(soFar + chunk), true, current.agentName)];
        case SetContent(content) =>
          var current := if context in bubbles then bubbles[context] else Blank(None);
          bubbles := bubbles[context := Bubble(content, current.reasoning, true, current.agentName)];
        case SetAbort(controller) =>
          abortControllers := abortControllers[context := controller];
        case SetSession(session) =>
          sessionIds := sessionIds[context := session];
      }
    }

    method CloseStreaming(context: string, run: Option<string>) returns (finished: bool)
      modifies this
      ensures At(context) == FinishStreaming(old(At(context)), run) && finished == Passes(old(At(context)).streamingRun, run)
      ensures forall c :: c != context ==> At(c) == old(At(c))
    {
      if run.Some? && !(context in streamingRunIds && streamingRunIds[context] == run.value) {
        return false;
      }
      if context in bubbles {
        bubbles := bubbles[context := Bubble("", Some(""), false, bubbles[context].agentName)];
      }
      abortControllers := abortControllers - {context};
      sessionIds := sessionIds - {context};
      streamingRunIds := streamingRunIds - {context};
      return true;
    }

    /** The text of the bubble stays, its stream does not. */
    method ReleaseStream(context: string)
      modifies this`abortControllers, this`sessionIds, this`streamingRunIds, this`bubbles
      ensures At(context) == StopStreaming(old(At(context)), None)
      ensures forall c :: c != context ==> At(c) == old(At(c))
    {
      abortControllers := abortControllers - {context};
      sessionIds := sessionIds - {context};
      streamingRunIds := streamingRunIds - {context};
      if context in bubbles {
        bubbles := bubbles[context := bubbles[context].(isStreaming := false)];
      }
    }

    /** Aborts the stored controller and names the session the backend is asked to cancel. */
    method StopStream(context: string, run: Option<string>) returns (stopped: bool, cancelled: Option<string>)
      modifies this, if context in abortControllers then {abortControllers[context]} else {}
      ensures At(context) == StopStreaming(old(At(context)), run) && stopped == Passes(old(At(context)).streamingRun, run)
      ensures forall c :: c != context ==> At(c) == old(At(c))
      ensures stopped ==> cancelled == old(At(context)).session
      ensures stopped && old(context in abortControllers) ==> old(abortControllers[context]).aborted
      ensures !stopped ==> cancelled == None
      ensures !stopped && old(context in abortControllers) ==>
                old(abortControllers[context]).aborted == old(abortControllers[context].aborted)
    {
      if run.Some? && !(context in streamingRunIds && streamingRunIds[context] == run.value) {
        return false, None;
      }
      if context in abortControllers {
        abortControllers[context].Abort();
      }
      cancelled := if context in sessionIds then Some(sessionIds[context]) else None;
      ReleaseStream(context);
      stopped := true;
    }
  }
}
