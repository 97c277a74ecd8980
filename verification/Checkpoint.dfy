/** The checkpoint flusher of a planning run: progress is written at most once per interval, one write at a time,
while the run may publish; when the loop settles the flusher is stopped and the final message takes its place. */
module CheckpointFlusher {
  import opened Modifications

  // ---------------------------------------------------------------- the right to publish

  /** What decides whether a planning run may publish: the run the hook works for, the latest run of the chat
      store, and whether the user asked to cancel. `used` are the ids given out so far. */
  datatype Rights = Rights(active: Option<string>, latest: Option<string>, cancelled: bool, used: set<string>)

  predicate Owns(r: Rights, run: string) {
    r.active == Some(run) && r.latest == Some(run)
  }

  predicate MayPublish(r: Rights, run: string) {
    Owns(r, run) && !r.cancelled
  }

  datatype Change =
    | PlanningStarts(run: string)
    | ChatStarts(run: string)
    | CancelRequested
    | PlanningEnds(run: string)

  /** A run's clean-up only touches what is still its own. */
  function Changed(r: Rights, c: Change): Rights {
    match c
    case PlanningStarts(run) => Rights(Some(run), Some(run), false, r.used + {run})
    case ChatStarts(run) => r.(latest := Some(run), used := r.used + {run})
    case CancelRequested => r.(cancelled := true)
    case PlanningEnds(run) => if r.active == Some(run) then r.(active := None, cancelled := false) else r
  }

  /** Run ids are random and never given out twice. */
  predicate NewIds(r: Rights, c: Change) {
    (c.PlanningStarts? || c.ChatStarts?) ==> c.run !in r.used
  }

  function AllChanged(r: Rights, changes: seq<Change>): Rights
    decreases |changes|
  {
    if changes == [] then r else AllChanged(Changed(r, changes[0]), changes[1..])
  }

  predicate AllNewIds(r: Rights, changes: seq<Change>)
    decreases |changes|
  {
    changes == [] || (NewIds(r, changes[0]) && AllNewIds(Changed(r, changes[0]), changes[1..]))
  }

  /** Main result: a run that lost the right to publish never gets it back. */
  lemma {:induction false} LostRightStaysLost(r: Rights, changes: seq<Change>, run: string)
    requires AllNewIds(r, changes) && run in r.used && !MayPublish(r, run)
    ensures !MayPublish(AllChanged(r, changes), run)
    decreases |changes|
  {
    if changes != [] {
      LostRightStaysLost(Changed(r, changes[0]), changes[1..], run);
    }
  }

  /** The run started, and since then no other run started, nobody asked to cancel, and it did not end. */
  predicate Undisturbed(changes: seq<Change>, run: string)
    decreases |changes|
  {
    changes != [] &&
      var before := changes[..|changes| - 1];
      match changes[|changes| - 1]
      case PlanningStarts(r) => r == run
      case ChatStarts(_) => false
      case CancelRequested => false
      case PlanningEnds(r) => r != run && Undisturbed(before, run)
  }

  const NOBODY := Rights(None, None, false, {})

  lemma {:induction false} LastChange(r: Rights, changes: seq<Change>)
    requires changes != []
    ensures AllChanged(r, changes) == Changed(AllChanged(r, changes[..|changes| - 1]), changes[|changes| - 1])
    ensures AllNewIds(r, changes) ==> AllNewIds(r, changes[..|changes| - 1])
                                      && NewIds(AllChanged(r, changes[..|changes| - 1]), changes[|changes| - 1])
    decreases |changes|
  {
    hide Changed, NewIds;
    if |changes| == 1 {
      assert changes[1..] == [] && changes[..0] == [];
    } else {
      LastChange(Changed(r, changes[0]), changes[1..]);
      assert changes[1..][..|changes| - 2] == changes[..|changes| - 1][1..];
    }
  }

  /** Main result: with new ids a run may publish exactly from its start until another run starts, a cancellation is asked for, or
      it ends. */
  lemma {:induction false} MayPublishExactly(changes: seq<Change>, run: string)
    requires AllNewIds(NOBODY, changes)
    ensures MayPublish(AllChanged(NOBODY, changes), run) <==> Undisturbed(changes, run)
    ensures var r := AllChanged(NOBODY, changes); r.active.Some? ==> r.active.value in r.used
    decreases |changes|
  {
    if changes != [] {
      LastChange(NOBODY, changes);
      MayPublishExactly(changes[..|changes| - 1], run);
    }
  }

  /** A run that ends while it is the active one leaves no request to cancel for the next. */
  lemma EndClears(r: Rights, run: string)
    ensures var t := Changed(r, PlanningEnds(run));
            t == if r.active == Some(run) then r.(active := None, cancelled := false) else r
    ensures !Changed(r, PlanningStarts(run)).cancelled
  {
  }

  // ---------------------------------------------------------------- the flusher

  /** What reached the database, in order. */
  datatype Record = Running | Final | Deleted

  datatype Purpose = ToFinish | ToDelete

  /** Where the run itself stands: in its loop, waiting for the write in flight to end, writing the final message,
      deleting the checkpoint, or done. */
  datatype Phase =
    | Looping
    | Stopping(awaited: Option<nat>, purpose: Purpose)
    | Finishing(onCheckpoint: bool)
    | Deleting
    | Over

  datatype Flusher = Flusher(
    message: bool,
    dirty: bool,
    timer: bool,
    current: Option<nat>,
    inFlight: set<nat>,
    nextFlush: nat,
    finalized: bool,
    phase: Phase,
    log: seq<Record>)

  function Fresh(): Flusher {
    Flusher(false, false, false, None, {}, 0, false, Looping, [])
  }

  /** Notes progress and arms the timer. */
  function Schedule(k: Flusher, live: bool): Flusher {
    if !k.message || k.finalized || !live then k else k.(dirty := true, timer := true)
  }

  /** Starts a write unless one is in flight; then what is dirty stays dirty. */
  function FlushNow(k: Flusher, live: bool): Flusher {
    if !k.message || k.finalized || !live || k.current.Some? then k
    else k.(dirty := false, current := Some(k.nextFlush), inFlight := k.inFlight + {k.nextFlush}, nextFlush := k.nextFlush + 1)
  }

  function TimerFires(k: Flusher, live: bool): Flusher {
    if !k.timer then k
    else
      var disarmed := k.(timer := false);
      if !k.dirty || k.finalized || !live then disarmed else FlushNow(disarmed, live)
  }

  /** A write returns; what became dirty meanwhile is scheduled again. */
  function FlushReturns(k: Flusher, n: nat, ok: bool, live: bool): Flusher {
    if n !in k.inFlight then k
    else
      var g := k.(inFlight := k.inFlight - {n}, current := if k.current == Some(n) then None else k.current,
                  message := k.message || ok, log := if ok then k.log + [Running] else k.log);
      if g.dirty && !g.finalized && !g.timer && live then Schedule(g, live) else g
  }

  /** Disarms the timer, forgets what is dirty, and waits for the write in flight. */
  function Stop(k: Flusher, purpose: Purpose): Flusher {
    k.(timer := false, dirty := false, phase := Stopping(k.current, purpose))
  }

  predicate AwaitDone(k: Flusher) {
    k.phase.Stopping? && (k.phase.awaited.Some? ==> k.phase.awaited.value !in k.inFlight)
  }

  /** After the wait: the final write if the run still owns the context, else the deletion. */
  function Proceed(k: Flusher, owns: bool): Flusher {
    if !AwaitDone(k) then k
    else if k.phase.purpose == ToFinish then
      if owns then k.(phase := Finishing(k.message)) else Stop(k, ToDelete)
    else if !k.message || k.finalized then k.(phase := Over)
    else k.(finalized := true, phase := Deleting)
  }

  /** The final write returns. `keep` tells whether the run may still publish it; if not, or if the write failed,
      the checkpoint is deleted. */
  function FinalReturns(k: Flusher, ok: bool, keep: bool): Flusher {
    if !k.phase.Finishing? then k
    else
      var g := if ok then k.(log := k.log + [Final]) else k;
      if !k.phase.onCheckpoint then g.(phase := Over)
      else if ok && keep then g.(finalized := true, phase := Over)
      else Stop(g, ToDelete)
  }

  function DeleteReturns(k: Flusher): Flusher {
    if !k.phase.Deleting? then k else k.(message := false, log := k.log + [Deleted], phase := Over)
  }

  datatype Event =
    | RightsChange(change: Change)
    | CheckpointCreated
    | Progress
    | Timer
    | FlushReturned(flush: nat, ok: bool)
    | LoopSettles
    | WaitOver
    | FinalReturned(ok: bool, keep: bool)
    | DeleteReturned

  datatype Run = Run(rights: Rights, flusher: Flusher)

  function Step(y: Run, me: string, e: Event): Run {
    var k, live := y.flusher, MayPublish(y.rights, me);
    match e
    case RightsChange(c) => y.(rights := Changed(y.rights, c))
    case CheckpointCreated => if k.phase.Looping? && k.nextFlush == 0 then y.(flusher := k.(message := true)) else y
    case Progress => y.(flusher := Schedule(k, live))
    case Timer => y.(flusher := TimerFires(k, live))
    case FlushReturned(n, ok) => y.(flusher := FlushReturns(k, n, ok, live))
    case LoopSettles => if k.phase.Looping? then y.(flusher := Stop(k, ToFinish)) else y
    case WaitOver => y.(flusher := Proceed(k, Owns(y.rights, me)))
    case FinalReturned(ok, keep) => y.(flusher := FinalReturns(k, ok, keep))
    case DeleteReturned => y.(flusher := DeleteReturns(k))
  }

  function After(y: Run, me: string, events: seq<Event>): Run
    decreases |events|
  {
    if events == [] then y else After(Step(y, me, events[0]), me, events[1..])
  }

  predicate IdsNew(y: Run, me: string, events: seq<Event>)
    decreases |events|
  {
    events == [] || ((events[0].RightsChange? ==> NewIds(y.rights, events[0].change)) && IdsNew(Step(y, me, events[0]), me, events[1..]))
  }

  // ---------------------------------------------------------------- one write at a time, nothing forgotten

  /** One write in flight at most, the one the run knows of; and while the run may publish and is not finalized,
      what is dirty has a timer or a write in flight that will pick it up. */
  predicate Sound(y: Run, me: string) {
    && var k := y.flusher;
    && me in y.rights.used
    && k.inFlight == (if k.current.Some? then {k.current.value} else {})
    && (k.current.Some? ==> k.current.value < k.nextFlush)
    && (MayPublish(y.rights, me) && !k.finalized && k.dirty ==> k.timer || k.inFlight != {})
    && (k.dirty && !k.finalized ==> k.message)
    && (k.phase.Deleting? ==> k.finalized)
  }

  lemma StaysSound(y: Run, me: string, e: Event)
    requires Sound(y, me) && (e.RightsChange? ==> NewIds(y.rights, e.change))
    ensures Sound(Step(y, me, e), me)
  {
    if e.RightsChange? {
      RightsKeepSound(y, me, e.change);
    } else {
      hide MayPublish, Owns, NewIds, Changed;
    }
  }

  lemma RightsKeepSound(y: Run, me: string, c: Change)
    requires Sound(y, me) && NewIds(y.rights, c)
    ensures Sound(y.(rights := Changed(y.rights, c)), me)
  {
  }

  /** Main result: both hold in every run. */
  lemma {:induction false} AlwaysSound(y: Run, me: string, events: seq<Event>)
    requires Sound(y, me) && IdsNew(y, me, events)
    ensures Sound(After(y, me, events), me) && |After(y, me, events).flusher.inFlight| <= 1
    decreases |events|
  {
    if events != [] {
      hide Step, NewIds;
      StaysSound(y, me, events[0]);
      hide Sound;
      AlwaysSound(Step(y, me, events[0]), me, events[1..]);
    }
  }

  // ---------------------------------------------------------------- after the right is lost

  function Count(log: seq<Record>): nat {
    if log == [] then 0 else (if log[|log| - 1].Running? then 1 else 0) + Count(log[..|log| - 1])
  }

  lemma CountSnoc(log: seq<Record>, r: Record)
    ensures Count(log + [r]) == Count(log) + if r.Running? then 1 else 0
  {
    assert (log + [r])[..|log|] == log;
  }

  lemma SilentStep(y: Run, me: string, e: Event)
    requires Sound(y, me) && !MayPublish(y.rights, me)
    ensures var k, g := y.flusher, Step(y, me, e).flusher;
            && g.inFlight <= k.inFlight
            && Count(g.log) + |g.inFlight| <= Count(k.log) + |k.inFlight|
  {
    hide MayPublish, Owns, Changed, Count;
    var k := y.flusher;
    CountSnoc(k.log, Running);
    CountSnoc(k.log, Final);
    CountSnoc(k.log, Deleted);
    if e.FlushReturned? && e.flush in k.inFlight {
      assert k.inFlight == {e.flush} && k.inFlight - {e.flush} == {};
    }
  }

  /** Main result: a run that lost the right to publish starts no further write. Beyond the one that was in
      flight, no 'running' record of it ever reaches the database. */
  lemma {:induction false} SilentAfterLosingRight(y: Run, me: string, events: seq<Event>)
    requires Sound(y, me) && IdsNew(y, me, events) && !MayPublish(y.rights, me)
    ensures Count(After(y, me, events).flusher.log) <= Count(y.flusher.log) + |y.flusher.inFlight| <= Count(y.flusher.log) + 1
    decreases |events|
  {
    if events != [] {
      StaysSound(y, me, events[0]);
      SilentStep(y, me, events[0]);
      if events[0].RightsChange? {
        LostRightStaysLost(y.rights, [events[0].change], me);
      }
      hide Step, Sound, MayPublish, Count, NewIds;
      SilentAfterLosingRight(Step(y, me, events[0]), me, events[1..]);
    }
  }

  // ---------------------------------------------------------------- the final record stays final

  /** Progress callbacks stop when the loop settles. */
  predicate QuietEnd(y: Run, me: string, events: seq<Event>)
    decreases |events|
  {
    events == [] || ((events[0].Progress? ==> y.flusher.phase.Looping?) && QuietEnd(Step(y, me, events[0]), me, events[1..]))
  }

  predicate NothingAfterFinal(log: seq<Record>) {
    forall i, j :: 0 <= i < j < |log| && log[j].Running? ==> log[i].Running?
  }

  predicate OnlyRunning(log: seq<Record>) {
    forall i :: 0 <= i < |log| ==> log[i].Running?
  }

  /** Outside the loop nothing is armed or dirty, and the only write that may still be in flight is the one the
      run is waiting for; once anything else than 'running' was recorded there is none. */
  predicate Settled(k: Flusher) {
    && NothingAfterFinal(k.log)
    && (k.phase.Looping? ==> OnlyRunning(k.log))
    && (!k.phase.Looping? ==> !k.timer && !k.dirty)
    && (k.phase.Finishing? || k.phase.Deleting? || k.phase.Over? || !OnlyRunning(k.log) ==> k.inFlight == {})
    && (k.phase.Stopping? ==> k.phase.awaited == k.current || k.inFlight == {})
  }

  lemma StaysSettled(y: Run, me: string, e: Event)
    requires Sound(y, me) && Settled(y.flusher) && (e.Progress? ==> y.flusher.phase.Looping?)
    ensures Settled(Step(y, me, e).flusher)
  {
    hide MayPublish, Owns, Changed;
  }

  lemma {:induction false} SettledAlongRun(y: Run, me: string, events: seq<Event>)
    requires Sound(y, me) && Settled(y.flusher) && IdsNew(y, me, events) && QuietEnd(y, me, events)
    ensures Settled(After(y, me, events).flusher)
    decreases |events|
  {
    if events != [] {
      hide Step, Sound, Settled, NewIds;
      StaysSettled(y, me, events[0]);
      StaysSound(y, me, events[0]);
      SettledAlongRun(Step(y, me, events[0]), me, events[1..]);
    }
  }

  /** Main result: if no progress callback fires after the loop settles, no 'running' record follows the final
      record or the deletion. */
  lemma FinalRecordStaysFinal(rights: Rights, me: string, events: seq<Event>)
    requires me in rights.used && IdsNew(Run(rights, Fresh()), me, events) && QuietEnd(Run(rights, Fresh()), me, events)
    ensures NothingAfterFinal(After(Run(rights, Fresh()), me, events).flusher.log)
  {
    SettledAlongRun(Run(rights, Fresh()), me, events);
  }

  // ---------------------------------------------------------------- exactly when it stays final

  /** A write is in flight although something else than 'running' was recorded. */
  predicate LateFlight(k: Flusher) {
    k.inFlight != {} && !OnlyRunning(k.log)
  }

  predicate NeverLate(y: Run, me: string, events: seq<Event>)
    decreases |events|
  {
    !LateFlight(y.flusher) && (events != [] ==> NeverLate(Step(y, me, events[0]), me, events[1..]))
  }

  /** Every write in flight that returns has succeeded. */
  predicate ReturnsOk(events: seq<Event>) {
    forall i :: 0 <= i < |events| && events[i].FlushReturned? ==> events[i].ok
  }

  /** A write starts exactly when the timer fires on unsaved progress of a run that may still publish, is not
      finalized and has no write in flight. */
  lemma FlushStartsWhen(y: Run, me: string, e: Event)
    requires Sound(y, me)
    ensures !(Step(y, me, e).flusher.inFlight <= y.flusher.inFlight) <==>
            var k := y.flusher;
            e.Timer? && k.timer && k.dirty && !k.finalized && MayPublish(y.rights, me) && k.inFlight == {}
  {
    hide MayPublish, Owns, Changed;
    assert y.flusher.nextFlush !in y.flusher.inFlight;
  }

  /** A late write comes about in two ways: the timer starts one after another record, or another record lands while
      one is in flight. */
  lemma LateBeginsWhen(y: Run, me: string, e: Event)
    requires Sound(y, me) && !LateFlight(y.flusher)
    ensures LateFlight(Step(y, me, e).flusher) <==>
            var k := y.flusher;
            || (!OnlyRunning(k.log) && e.Timer? && k.timer && k.dirty && !k.finalized && MayPublish(y.rights, me))
            || (k.inFlight != {} && ((e.FinalReturned? && e.ok && k.phase.Finishing?) || (e.DeleteReturned? && k.phase.Deleting?)))
  {
    hide MayPublish, Owns, Changed, OnlyRunning;
    var k := y.flusher;
    AddedRecord(k.log, Final);
    AddedRecord(k.log, Deleted);
    if e.FlushReturned? && e.flush in k.inFlight {
      assert Step(y, me, e).flusher.inFlight == {};
    }
  }

  lemma AddedRecord(log: seq<Record>, r: Record)
    requires !r.Running?
    ensures !OnlyRunning(log + [r])
  {
    assert (log + [r])[|log|] == r;
  }

  /** Noting progress, starting a write, stopping and waiting record nothing. */
  lemma NothingRecorded(k: Flusher, live: bool, purpose: Purpose)
    ensures Schedule(k, live).log == k.log && TimerFires(k, live).log == k.log && Stop(k, purpose).log == k.log && Proceed(k, live).log == k.log
  {
  }

  lemma OneRecorded(k: Flusher, n: nat, ok: bool, keep: bool, live: bool)
    ensures k.log <= FlushReturns(k, n, ok, live).log && k.log <= FinalReturns(k, ok, keep).log && k.log <= DeleteReturns(k).log
  {
  }

  lemma LogGrows(y: Run, me: string, e: Event)
    ensures y.flusher.log <= Step(y, me, e).flusher.log
  {
    hide MayPublish, Owns, Changed, Schedule, TimerFires, Proceed, Stop, FlushReturns, FinalReturns, DeleteReturns;
    var k, live := y.flusher, MayPublish(y.rights, me);
    match e
    case FlushReturned(n, ok) => OneRecorded(k, n, ok, false, live);
    case FinalReturned(ok, keep) => OneRecorded(k, 0, ok, keep, live);
    case DeleteReturned => OneRecorded(k, 0, false, false, live);
    case _ =>
      NothingRecorded(k, live, ToFinish);
      NothingRecorded(k, Owns(y.rights, me), ToFinish);
  }

  lemma {:induction false} LogGrowsAlong(y: Run, me: string, events: seq<Event>)
    ensures y.flusher.log <= After(y, me, events).flusher.log
    decreases |events|
  {
    if events != [] {
      hide Step;
      LogGrows(y, me, events[0]);
      LogGrowsAlong(Step(y, me, events[0]), me, events[1..]);
    }
  }

  lemma PrefixKeepsOrder(a: seq<Record>, b: seq<Record>)
    requires a <= b && NothingAfterFinal(b)
    ensures NothingAfterFinal(a)
  {
  }

  lemma LateRecord(log: seq<Record>)
    requires !OnlyRunning(log)
    ensures !NothingAfterFinal(log + [Running])
  {
    var i :| 0 <= i < |log| && !log[i].Running?;
    var longer := log + [Running];
    assert longer[|log|] == Running && longer[i] == log[i];
  }

  /** A late write that is still in flight stays so until it returns. */
  lemma LateStep(y: Run, me: string, e: Event)
    requires Sound(y, me) && LateFlight(y.flusher) && (e.FlushReturned? ==> e.ok)
    ensures var g := Step(y, me, e).flusher;
            g.log == y.flusher.log + [Running] || LateFlight(g)
  {
    hide MayPublish, Owns, Changed, OnlyRunning;
    LogGrows(y, me, e);
    OnlyRunningPrefix(y.flusher.log, Step(y, me, e).flusher.log);
  }

  lemma OnlyRunningPrefix(a: seq<Record>, b: seq<Record>)
    requires a <= b
    ensures OnlyRunning(b) ==> OnlyRunning(a)
  {
  }

  lemma {:induction false} LateFlightLands(y: Run, me: string, events: seq<Event>)
    requires Sound(y, me) && IdsNew(y, me, events) && ReturnsOk(events)
    requires LateFlight(y.flusher) && After(y, me, events).flusher.inFlight == {}
    ensures !NothingAfterFinal(After(y, me, events).flusher.log)
    decreases |events|
  {
    if events != [] {
      hide Step, Sound, NewIds, OnlyRunning, NothingAfterFinal;
      var z := Step(y, me, events[0]);
      assert events[0].FlushReturned? ==> events[0].ok;
      LateStep(y, me, events[0]);
      StaysSound(y, me, events[0]);
      if z.flusher.log == y.flusher.log + [Running] {
        LateRecord(y.flusher.log);
        LogGrowsAlong(z, me, events[1..]);
        if NothingAfterFinal(After(y, me, events).flusher.log) {
          PrefixKeepsOrder(z.flusher.log, After(y, me, events).flusher.log);
        }
      } else {
        RestReturnsOk(events);
        LateFlightLands(z, me, events[1..]);
      }
    }
  }

  lemma RestReturnsOk(events: seq<Event>)
    requires events != [] && ReturnsOk(events)
    ensures ReturnsOk(events[1..])
  {
    forall i | 0 <= i < |events[1..]| && events[1..][i].FlushReturned? ensures events[1..][i].ok {
      assert events[1..][i] == events[i + 1];
    }
  }

  lemma OrderKept(y: Run, me: string, e: Event)
    requires NothingAfterFinal(y.flusher.log) && !LateFlight(y.flusher)
    ensures NothingAfterFinal(Step(y, me, e).flusher.log)
  {
    hide MayPublish, Owns, Changed;
  }

  /** Main result: in a run whose returned writes all succeeded and that has none left in flight, no 'running' record
      follows another one if and only if no write was ever in flight after something else than 'running' was
      recorded. */
  lemma {:induction false} StaysFinalExactly(y: Run, me: string, events: seq<Event>)
    requires Sound(y, me) && IdsNew(y, me, events) && ReturnsOk(events)
    requires NothingAfterFinal(y.flusher.log) && After(y, me, events).flusher.inFlight == {}
    ensures NothingAfterFinal(After(y, me, events).flusher.log) <==> NeverLate(y, me, events)
    decreases |events|
  {
    if LateFlight(y.flusher) {
      LateFlightLands(y, me, events);
    } else if events != [] {
      hide Step, Sound, NewIds, NothingAfterFinal, LateFlight, ReturnsOk;
      OrderKept(y, me, events[0]);
      StaysSound(y, me, events[0]);
      RestReturnsOk(events);
      StaysFinalExactly(Step(y, me, events[0]), me, events[1..]);
    }
  }

  /** The condition is needed: one callback during the final write is enough to put a 'running' record behind it. */
  lemma LateProgressOverwrites(me: string)
    ensures var y := Run(Rights(Some(me), Some(me), false, {me}), Fresh());
            var events := [CheckpointCreated, LoopSettles, WaitOver, Progress, Timer, FinalReturned(true, true), FlushReturned(0, true)];
            IdsNew(y, me, events) && After(y, me, events).flusher.log == [Final, Running]
  {
  }

  // ---------------------------------------------------------------- what a run comes to

  /** The final record was kept: nothing is written any more, whatever callbacks and timers still come. */
  lemma {:induction false} KeptFinalSilences(y: Run, me: string, events: seq<Event>)
    requires y.flusher.finalized && y.flusher.phase.Over? && y.flusher.inFlight == {}
    ensures var k := After(y, me, events).flusher; k.log == y.flusher.log && k.finalized && k.inFlight == {} && k.phase.Over?
    decreases |events|
  {
    if events != [] {
      var z := Step(y, me, events[0]);
      assert z.flusher.log == y.flusher.log && z.flusher.finalized && z.flusher.inFlight == {} && z.flusher.phase.Over? by {
        hide MayPublish, Changed;
      }
      hide Step;
      KeptFinalSilences(z, me, events[1..]);
    }
  }

  /** How far the run has come and what has been decided about its checkpoint. */
  predicate Tidy(k: Flusher) {
    && (k.phase.Looping? || k.phase.Stopping? || k.phase.Finishing? ==> !k.finalized)
    && (k.phase.Finishing? ==> k.phase.onCheckpoint == k.message)
    && (k.phase.Over? && k.message ==> k.finalized && k.log != [] && k.log[|k.log| - 1] == Final)
  }

  lemma StaysTidy(y: Run, me: string, e: Event)
    requires Settled(y.flusher) && Tidy(y.flusher) && (e.Progress? ==> y.flusher.phase.Looping?)
    ensures Tidy(Step(y, me, e).flusher)
  {
    hide MayPublish, Owns, Changed, NothingAfterFinal, OnlyRunning;
  }

  /** Main result: without callbacks after the loop, a run that is over leaves no checkpoint behind but the finished message: if
      the checkpoint is still there, its last record is the final one. */
  lemma {:induction false} NoOrphanLeft(y: Run, me: string, events: seq<Event>)
    requires Sound(y, me) && Settled(y.flusher) && Tidy(y.flusher) && IdsNew(y, me, events) && QuietEnd(y, me, events)
    ensures var k := After(y, me, events).flusher; k.phase.Over? && k.message ==> k.finalized && k.log != [] && k.log[|k.log| - 1] == Final
    decreases |events|
  {
    if events != [] {
      hide Step, Sound, Settled, Tidy, NewIds;
      StaysTidy(y, me, events[0]);
      StaysSettled(y, me, events[0]);
      StaysSound(y, me, events[0]);
      NoOrphanLeft(Step(y, me, events[0]), me, events[1..]);
    }
  }

  /** What the final write does: kept, it finalizes; refused, failed or late, the checkpoint is deleted, its message with it; without
      a checkpoint the message stands by itself. */
  lemma FinalWriteEnds(k: Flusher, ok: bool, keep: bool)
    requires k.phase.Finishing?
    ensures var g := FinalReturns(k, ok, keep);
            && g.log == (if ok then k.log + [Final] else k.log)
            && (ok && keep && k.phase.onCheckpoint ==> g.finalized && g.phase.Over?)
            && (k.phase.onCheckpoint && !(ok && keep) ==> g.phase == Stopping(k.current, ToDelete) && !g.timer && !g.dirty)
            && (!k.phase.onCheckpoint ==> g.phase.Over? && g.finalized == k.finalized)
  {
  }

  /** After the wait for the write in flight: a run that still owns the context writes its final message, on the checkpoint if there is
      one; one that does not deletes its checkpoint, unless there is none or it was kept. */
  lemma WaitLeads(k: Flusher, owns: bool)
    requires k.phase.Stopping? && (k.phase.awaited.Some? ==> k.phase.awaited.value !in k.inFlight)
    ensures k.phase.purpose == ToFinish && owns ==> Proceed(k, owns) == k.(phase := Finishing(k.message))
    ensures k.phase.purpose == ToFinish && !owns ==> Proceed(k, owns) == k.(timer := false, dirty := false, phase := Stopping(k.current, ToDelete))
    ensures k.phase.purpose == ToDelete && k.message && !k.finalized ==> Proceed(k, owns) == k.(finalized := true, phase := Deleting)
    ensures k.phase.purpose == ToDelete && (!k.message || k.finalized) ==> Proceed(k, owns) == k.(phase := Over)
  {
  }

  /** Progress arms the timer; the timer writes; the write returns and progress made meanwhile is scheduled again. */
  lemma ProgressIsWritten(k: Flusher, n: nat)
    requires k.message && !k.finalized && k.current == None && k.inFlight == {} && n == k.nextFlush
    ensures var armed := Schedule(k, true); var writing := TimerFires(armed, true);
            && armed == k.(dirty := true, timer := true)
            && writing == k.(dirty := false, timer := false, current := Some(n), inFlight := {n}, nextFlush := n + 1)
            && Schedule(writing, true) == writing.(dirty := true, timer := true)
            && TimerFires(Schedule(writing, true), true) == writing.(dirty := true)
            && FlushReturns(writing, n, true, true) == k.(dirty := false, timer := false, inFlight := {}, nextFlush := n + 1, log := k.log + [Running])
            && FlushReturns(writing.(dirty := true), n, true, true) ==
                 k.(dirty := true, timer := true, inFlight := {}, nextFlush := n + 1, log := k.log + [Running])
            && FlushReturns(writing, n, false, true).log == k.log
            && FlushReturns(writing.(message := false), n, true, true).message && !FlushReturns(writing.(message := false), n, false, true).message
            && Schedule(k, false) == k && TimerFires(armed, false) == armed.(timer := false)
  {
  }

  // ---------------------------------------------------------------- the closures of the run

  /** The variables the closures of one planning run share. `live` is what the ownership predicates say. */
  class FlusherCell {
    var message: bool
    var dirty: bool
    var timer: bool
    var current: Option<nat>
    var inFlight: set<nat>
    var nextFlush: nat
    var finalized: bool
    var phase: Phase
    var log: seq<Record>

    function View(): Flusher
      reads this
    {
      Flusher(message, dirty, timer, current, inFlight, nextFlush, finalized, phase, log)
    }

    constructor ()
      ensures View() == Fresh()
    {
      message, dirty, timer, current, inFlight, nextFlush := false, false, false, None, {}, 0;
      finalized, phase, log := false, Looping, [];
    }

    method ScheduleFlush(live: bool)
      modifies this`dirty, this`timer
      ensures View() == Schedule(old(View()), live)
    {
      if !message || finalized || !live {
        return;
      }
      dirty := true;
      if timer {
        return;
      }
      timer := true;
    }

    method FlushCheckpoint(live: bool)
      modifies this
      ensures View() == FlushNow(old(View()), live)
    {
      if !message || finalized || !live {
        return;
      }
      if current.Some? {
        return;
      }
      dirty := false;
      current := Some(nextFlush);
      inFlight := inFlight + {nextFlush};
      nextFlush := nextFlush + 1;
    }

    method OnTimer(live: bool)
      requires timer
      modifies this
      ensures View() == TimerFires(old(View()), live)
    {
      timer := false;
      if !dirty || finalized || !live {
        return;
      }
      FlushCheckpoint(live);
    }

    method OnFlushSettled(n: nat, ok: bool, live: bool)
      requires n in inFlight
      modifies this
      ensures View() == FlushReturns(old(View()), n, ok, live)
    {
      inFlight := inFlight - {n};
      if ok {
        message := true;
        log := log + [Running];
      }
      if current == Some(n) {
        current := None;
      }
      if dirty && !finalized && !timer && live {
        ScheduleFlush(live);
      }
    }

    method StopFlushes(purpose: Purpose)
      modifies this
      ensures View() == Stop(old(View()), purpose)
    {
      if timer {
        timer := false;
      }
      dirty := false;
      phase := Stopping(current, purpose);
    }
  }
}
