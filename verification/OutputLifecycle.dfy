/** The output lifecycle as a protocol between output threads and the UI thread.

    Output threads run callbacks that flip flags of the output handler and then post a slot to the
    UI thread's event queue; the UI thread and other outputs may run in between.  The UI thread runs the posted slots in order, and some of them
    take or drop the profile-menu lock together with one sleep-inhibition reference.  A failed
    recording shows a modal message box before it releases the lock, so a box that is still
    open owes one release; while it is open, the nested event loop keeps running other slots.
    Projector windows share the sleep-inhibition count.
 */
module OutputLifecycle {

  const OUTPUT_SUCCESS := 0

  /** Slots of the main window that callbacks post. */
  datatype Event =
    | StreamDelayStarting(sec: int)
    | StreamDelayStopping(sec: int)
    | StreamingStart
    | StreamStopping
    | StreamingStop(code: int)
    | RecordingStart
    | RecordStopping
    | RecordingStop(code: int)
    | ReplayBufferStart
    | ReplayBufferStopping
    | ReplayBufferStop(code: int)

  /** Signals of the outputs, each handled on an output thread. */
  datatype Signal =
    | DelayStarting(delay: int)
    | StreamEnding(delay: int)
    | StreamStarted
    | StreamStopped(code: int)
    | RecordStarted
    | RecordEnding
    | RecordStopped(code: int)
    | ReplayStarted
    | ReplayEnding
    | ReplayStopped(code: int)

  datatype Output = Streaming | Recording | ReplayBuffer

  function OutputOf(g: Signal): Output {
    match g
    case DelayStarting(_) => Streaming
    case StreamEnding(_) => Streaming
    case StreamStarted => Streaming
    case StreamStopped(_) => Streaming
    case RecordStarted => Recording
    case RecordEnding => Recording
    case RecordStopped(_) => Recording
    case ReplayStarted => ReplayBuffer
    case ReplayEnding => ReplayBuffer
    case ReplayStopped(_) => ReplayBuffer
  }

  /** The activity flags of the output handler. */
  datatype Flags = Flags(streaming: bool, recording: bool, delay: bool, replayBuffer: bool) {
    predicate Active() {
      streaming || recording || delay || replayBuffer
    }

    predicate OutputActive(o: Output) {
      match o
      case Streaming => streaming || delay
      case Recording => recording
      case ReplayBuffer => replayBuffer
    }
  }

  /** The sleep-inhibition count; without an inhibitor (available is false) it stays at zero. */
  datatype Sleep = Sleep(refs: nat, inhibited: bool, available: bool) {
    function Increment(): Sleep {
      if !available then this else Sleep(refs + 1, inhibited || refs == 0, available)
    }

    function Decrement(): Sleep {
      if !available || refs == 0 then this else Sleep(refs - 1, inhibited && refs != 1, available)
    }
  }

  /** Everything the protocol reads or writes; hasReplayBuffer never changes.  The callbacks in
      flight have set their flags and not posted their slot yet, one for an output at most. */
  datatype State = State(
    flags: Flags,
    inFlight: map<Output, Signal>,
    queue: seq<Event>,
    menuEnabled: bool,
    openBoxes: nat,
    projectors: nat,
    sleep: Sleep,
    hasReplayBuffer: bool)
  {
    predicate Active() {
      flags.Active()
    }

    /** Nothing is waiting for the UI thread, or about to. */
    predicate Quiescent() {
      queue == [] && openBoxes == 0 && inFlight == map[]
    }
  }

  function Initial(hasInhibitor: bool, hasReplayBuffer: bool): State {
    State(Flags(false, false, false, false), map[], [], true, 0, 0, Sleep(0, false, hasInhibitor), hasReplayBuffer)
  }

  function Activated(s: State): State {
    if s.menuEnabled then s.(menuEnabled := false, sleep := s.sleep.Increment()) else s
  }

  function Deactivated(s: State): State {
    if !s.Active() && !s.menuEnabled then s.(menuEnabled := true, sleep := s.sleep.Decrement()) else s
  }

  /** The replay-buffer signals exist only when the replay-buffer output does. */
  predicate Connected(hasReplayBuffer: bool, g: Signal) {
    g.ReplayStarted? || g.ReplayEnding? || g.ReplayStopped? ==> hasReplayBuffer
  }

  function FlagsAfter(f: Flags, g: Signal): Flags {
    match g
    case DelayStarting(sec) => if sec == 0 then f else f.(delay := true)
    case StreamStarted => f.(streaming := true)
    case StreamStopped(_) => f.(streaming := false, delay := false)
    case RecordStarted => f.(recording := true)
    case RecordStopped(_) => f.(recording := false)
    case ReplayStarted => f.(replayBuffer := true)
    case ReplayStopped(_) => f.(replayBuffer := false)
    case _ => f
  }

  function Posted(g: Signal): seq<Event> {
    match g
    case DelayStarting(sec) => if sec == 0 then [] else [StreamDelayStarting(sec)]
    case StreamEnding(sec) => [if sec == 0 then StreamStopping else StreamDelayStopping(sec)]
    case StreamStarted => [StreamingStart]
    case StreamStopped(code) => [StreamingStop(code)]
    case RecordStarted => [RecordingStart]
    case RecordEnding => [RecordStopping]
    case RecordStopped(code) => [RecordingStop(code)]
    case ReplayStarted => [ReplayBufferStart]
    case ReplayEnding => [ReplayBufferStopping]
    case ReplayStopped(code) => [ReplayBufferStop(code)]
  }

  function Flagged(s: State, g: Signal): State {
    s.(flags := FlagsAfter(s.flags, g), inFlight := s.inFlight[OutputOf(g) := g])
  }

  function Finished(s: State, o: Output): State
    requires o in s.inFlight
  {
    s.(queue := s.queue + Posted(s.inFlight[o]), inFlight := s.inFlight - {o})
  }

  /** What running a slot means for the lock. */
  datatype Effect = Silent | WillLock | WillUnlock

  function EffectOf(hasReplayBuffer: bool, e: Event): Effect {
    match e
    case StreamDelayStarting(_) => WillLock
    case StreamingStart => WillLock
    case RecordingStart => WillLock
    case ReplayBufferStart => if hasReplayBuffer then WillLock else Silent
    case StreamingStop(_) => WillUnlock
    case RecordingStop(_) => WillUnlock
    case ReplayBufferStop(_) => if hasReplayBuffer then WillUnlock else Silent
    case _ => Silent
  }

  /** A failed recording or replay buffer is reported in a modal box if the window is visible;
      its slot releases the lock only after the box is closed. */
  predicate ShowsBoxFirst(e: Event, visible: bool) {
    visible && (e.RecordingStop? || e.ReplayBufferStop?) && e.code != OUTPUT_SUCCESS
  }

  function SlotRun(s: State, e: Event, visible: bool): State {
    match EffectOf(s.hasReplayBuffer, e)
    case WillLock => Activated(s)
    case WillUnlock => if ShowsBoxFirst(e, visible) then s.(openBoxes := s.openBoxes + 1) else Deactivated(s)
    case Silent => s
  }

  /** The two halves of a callback. */
  datatype Half = SetFlags(g: Signal) | Post(o: Output)

  /** One atomic step of the whole system. */
  datatype Step =
    | Callback(half: Half)     // an output thread runs one half of a callback
    | Deliver(visible: bool)   // the UI thread runs the oldest posted slot
    | CloseBox                 // a message box is dismissed and its slot finishes
    | UserStop                 // a stop request: the lock is released unless an output is active
    | OpenProjector
    | CloseProjector

  function Next(s: State, a: Step): State {
    match a
    case Callback(SetFlags(g)) =>
      if Connected(s.hasReplayBuffer, g) && OutputOf(g) !in s.inFlight then Flagged(s, g) else s
    case Callback(Post(o)) => if o in s.inFlight then Finished(s, o) else s
    case Deliver(visible) =>
      if s.queue == [] then s else SlotRun(s.(queue := s.queue[1..]), s.queue[0], visible)
    case CloseBox => if s.openBoxes == 0 then s else Deactivated(s.(openBoxes := s.openBoxes - 1))
    case UserStop => Deactivated(s)
    case OpenProjector => s.(projectors := s.projectors + 1, sleep := s.sleep.Increment())
    case CloseProjector => if s.projectors == 0 then s else s.(projectors := s.projectors - 1, sleep := s.sleep.Decrement())
  }

  function Run(s: State, steps: seq<Step>): State
    decreases |steps|
  {
    if steps == [] then s else Run(Next(s, steps[0]), steps[1..])
  }

  function Callbacks(halves: seq<Half>): seq<Step> {
    seq(|halves|, i requires 0 <= i < |halves| => Callback(halves[i]))
  }

  function Stop(asked: bool): seq<Step> {
    if asked then [UserStop] else []
  }

  lemma RunStep(s: State, a: Step, rest: seq<Step>, t: State)
    requires t == Next(s, a)
    ensures Run(s, [a] + rest) == Run(t, rest)
  {
    assert ([a] + rest)[1..] == rest;
  }

  lemma ConcatStep(steps: seq<Step>, more: seq<Step>)
    requires steps != []
    ensures steps == [steps[0]] + steps[1..] && steps + more == [steps[0]] + (steps[1..] + more)
  {
  }

  lemma {:induction false} RunConcat(s: State, steps: seq<Step>, more: seq<Step>)
    ensures Run(s, steps + more) == Run(Run(s, steps), more)
    decreases |steps|
  {
    if steps == [] {
      assert steps + more == more;
    } else {
      var a, rest, t := steps[0], steps[1..], Next(s, steps[0]);
      RunConcat(t, rest, more);
      ConcatStep(steps, more);
      RunStep(s, a, rest, t);
      RunStep(s, a, rest + more, t);
    }
  }

  lemma RunSnoc(s: State, steps: seq<Step>, a: Step)
    ensures Run(s, steps + [a]) == Next(Run(s, steps), a)
  {
    RunConcat(s, steps, [a]);
    var t := Run(s, steps);
    assert Run(Next(t, a), [a][1..]) == Next(t, a);
  }

  lemma RunStops(s: State, steps: seq<Step>, asked: bool)
    ensures Run(s, steps + Stop(asked)) == if asked then Next(Run(s, steps), UserStop) else Run(s, steps)
    ensures steps == [] ==> steps + Stop(asked) == Stop(asked)
  {
    if asked {
      RunSnoc(s, steps, UserStop);
    } else {
      assert steps + [] == steps;
    }
  }

  lemma CallbacksSnoc(halves: seq<Half>, h: Half)
    ensures Callbacks(halves + [h]) == Callbacks(halves) + [Callback(h)]
  {
  }

  // ---------------------------------------------------------------- the source's objects

  /** The part of the application object that counts sleep-inhibition references. */
  class App {
    const hasInhibitor: bool
    var sleepInhibitRefs: nat
    var sleepInhibited: bool

    constructor (hasInhibitor: bool)
      ensures this.hasInhibitor == hasInhibitor && sleepInhibitRefs == 0 && !sleepInhibited
    {
      this.hasInhibitor := hasInhibitor;
      sleepInhibitRefs, sleepInhibited := 0, false;
    }

    ghost function Snapshot(): Sleep
      reads this
    {
      Sleep(sleepInhibitRefs, sleepInhibited, hasInhibitor)
    }

    method IncrementSleepInhibition()
      modifies this
      ensures Snapshot() == old(Snapshot()).Increment()
    {
      if !hasInhibitor { return; }
      sleepInhibitRefs := sleepInhibitRefs + 1;
      if sleepInhibitRefs - 1 == 0 {
        sleepInhibited := true;
      }
    }

    method DecrementSleepInhibition()
      modifies this
      ensures Snapshot() == old(Snapshot()).Decrement()
    {
      if !hasInhibitor { return; }
      if sleepInhibitRefs == 0 { return; }
      sleepInhibitRefs := sleepInhibitRefs - 1;
      if sleepInhibitRefs == 0 {
        sleepInhibited := false;
      }
    }
  }

  /** The output handler, reduced to its activity flags. */
  class OutputHandler {
    const hasReplayBuffer: bool
    var streamingActive: bool
    var recordingActive: bool
    var delayActive: bool
    var replayBufferActive: bool

    constructor (hasReplayBuffer: bool)
      ensures this.hasReplayBuffer == hasReplayBuffer
      ensures !streamingActive && !recordingActive && !delayActive && !replayBufferActive
    {
      this.hasReplayBuffer := hasReplayBuffer;
      streamingActive, recordingActive, delayActive, replayBufferActive := false, false, false, false;
    }

    ghost function Snapshot(): Flags
      reads this
    {
      Flags(streamingActive, recordingActive, delayActive, replayBufferActive)
    }

    predicate Active()
      reads this
    {
      streamingActive || recordingActive || delayActive || replayBufferActive
    }
  }

  /** The main window with the UI thread's event queue. */
  class MainWindow {
    const app: App
    const outputHandler: OutputHandler
    var inFlight: map<Output, Signal>
    var queue: seq<Event>
    var profileMenuEnabled: bool
    var openBoxes: nat
    var projectors: nat

    ghost function Snapshot(): State
      reads this, app, outputHandler
    {
      State(outputHandler.Snapshot(), inFlight, queue, profileMenuEnabled, openBoxes, projectors,
            app.Snapshot(), outputHandler.hasReplayBuffer)
    }

    constructor (hasInhibitor: bool, hasReplayBuffer: bool)
      ensures Snapshot() == Initial(hasInhibitor, hasReplayBuffer)
      ensures fresh(app) && fresh(outputHandler)
    {
      app := new App(hasInhibitor);
      outputHandler := new OutputHandler(hasReplayBuffer);
      inFlight, queue, profileMenuEnabled, openBoxes, projectors := map[], [], true, 0, 0;
    }

    method OnActivate()
      modifies this, app
      ensures Snapshot() == Activated(old(Snapshot()))
    {
      if profileMenuEnabled {
        profileMenuEnabled := false;
        app.IncrementSleepInhibition();
      }
    }

    method OnDeactivate()
      modifies this, app
      ensures Snapshot() == Deactivated(old(Snapshot()))
    {
      if !outputHandler.Active() && !profileMenuEnabled {
        profileMenuEnabled := true;
        app.DecrementSleepInhibition();
      }
    }

    /** The first half of a static callback: it sets its flags. */
    method SetFlagsOf(g: Signal)
      modifies this, outputHandler
      ensures Snapshot() == Flagged(old(Snapshot()), g)
    {
      inFlight := inFlight[OutputOf(g) := g];
      match g {
        case DelayStarting(sec) =>
          if sec == 0 { return; }
          outputHandler.delayActive := true;
        case StreamEnding(_) =>
        case StreamStarted => outputHandler.streamingActive := true;
        case StreamStopped(_) =>
          outputHandler.streamingActive := false;
          outputHandler.delayActive := false;
        case RecordStarted => outputHandler.recordingActive := true;
        case RecordEnding =>
        case RecordStopped(_) => outputHandler.recordingActive := false;
        case ReplayStarted => outputHandler.replayBufferActive := true;
        case ReplayEnding =>
        case ReplayStopped(_) => outputHandler.replayBufferActive := false;
      }
    }

    /** The second half: it posts its slot. */
    method PostSlotOf(o: Output)
      requires o in inFlight
      modifies this
      ensures Snapshot() == Finished(old(Snapshot()), o)
    {
      var g := inFlight[o];
      inFlight := inFlight - {o};
      match g {
        case DelayStarting(sec) =>
          if sec == 0 { return; }
          queue := queue + [StreamDelayStarting(sec)];
        case StreamEnding(sec) =>
          if sec == 0 {
            queue := queue + [StreamStopping];
          } else {
            queue := queue + [StreamDelayStopping(sec)];
          }
        case StreamStarted => queue := queue + [StreamingStart];
        case StreamStopped(code) => queue := queue + [StreamingStop(code)];
        case RecordStarted => queue := queue + [RecordingStart];
        case RecordEnding => queue := queue + [RecordStopping];
        case RecordStopped(code) => queue := queue + [RecordingStop(code)];
        case ReplayStarted => queue := queue + [ReplayBufferStart];
        case ReplayEnding => queue := queue + [ReplayBufferStopping];
        case ReplayStopped(code) => queue := queue + [ReplayBufferStop(code)];
      }
    }

    /** A static callback that nothing interrupts. */
    method OnSignal(g: Signal)
      requires Connected(outputHandler.hasReplayBuffer, g) && OutputOf(g) !in inFlight
      modifies this, outputHandler
      ensures Snapshot() == Next(Next(old(Snapshot()), Callback(SetFlags(g))), Callback(Post(OutputOf(g))))
      ensures outputHandler.Snapshot() == FlagsAfter(old(outputHandler.Snapshot()), g)
      ensures queue == old(queue) + Posted(g) && inFlight == old(inFlight)
    {
      SetFlagsOf(g);
      PostSlotOf(OutputOf(g));
    }

    /** Takes the oldest posted slot and runs it as far as its message box, if it shows one. */
    method DeliverNext(visible: bool)
      modifies this, app
      ensures Snapshot() == Next(old(Snapshot()), Deliver(visible))
    {
      if queue == [] { return; }
      var e := queue[0];
      queue := queue[1..];
      match e {
        case StreamDelayStarting(_) => OnActivate();
        case StreamDelayStopping(_) =>
        case StreamingStart => OnActivate();
        case StreamStopping =>
        case StreamingStop(_) => OnDeactivate();
        case RecordingStart => OnActivate();
        case RecordStopping =>
        case RecordingStop(code) =>
          if code != OUTPUT_SUCCESS && visible {
            openBoxes := openBoxes + 1;
          } else {
            OnDeactivate();
          }
        case ReplayBufferStart =>
          if !outputHandler.hasReplayBuffer { return; }
          OnActivate();
        case ReplayBufferStopping =>
        case ReplayBufferStop(code) =>
          if !outputHandler.hasReplayBuffer { return; }
          if code != OUTPUT_SUCCESS && visible {
            openBoxes := openBoxes + 1;
          } else {
            OnDeactivate();
          }
      }
    }

    method DismissBox()
      requires openBoxes > 0
      modifies this, app
      ensures Snapshot() == Next(old(Snapshot()), CloseBox)
    {
      openBoxes := openBoxes - 1;
      OnDeactivate();
    }

    method StopRecording()
      modifies this, app
      ensures Snapshot() == Next(old(Snapshot()), UserStop)
    {
      OnDeactivate();
    }

    method StopReplayBuffer()
      modifies this, app
      ensures Snapshot() == if outputHandler.hasReplayBuffer then Next(old(Snapshot()), UserStop) else old(Snapshot())
    {
      if !outputHandler.hasReplayBuffer { return; }
      OnDeactivate();
    }

    /** Halves of callbacks that output threads run while the UI thread is busy. */
    method OnCallbacks(halves: seq<Half>)
      modifies this, outputHandler
      ensures Snapshot() == Run(old(Snapshot()), Callbacks(halves))
    {
      ghost var s := Snapshot();
      for i := 0 to |halves|
        invariant Snapshot() == Run(s, Callbacks(halves[..i]))
      {
        assert halves[..i + 1] == halves[..i] + [halves[i]];
        CallbacksSnoc(halves[..i], halves[i]);
        RunSnoc(s, Callbacks(halves[..i]), Callback(halves[i]));
        match halves[i] {
          case SetFlags(g) =>
            if Connected(outputHandler.hasReplayBuffer, g) && OutputOf(g) !in inFlight {
              SetFlagsOf(g);
            }
          case Post(o) =>
            if o in inFlight {
              PostSlotOf(o);
            }
        }
      }
      assert halves[..|halves|] == halves;
    }

    /** Stopping the stream may stop the recording and the replay buffer with it, and output threads
        may run their callbacks between these stops. */
    method StopStreaming(recordWhenStreaming: bool, keepRecording: bool, between: seq<Half>,
                         replayWhileStreaming: bool, keepReplay: bool, later: seq<Half>)
      modifies this, app, outputHandler
      ensures Snapshot() == Run(old(Snapshot()),
                                [UserStop] + Callbacks(between) + Stop(recordWhenStreaming && !keepRecording) + Callbacks(later) +
                                Stop(replayWhileStreaming && !keepReplay && outputHandler.hasReplayBuffer))
    {
      ghost var s := Snapshot();
      var stopsRecording := recordWhenStreaming && !keepRecording;
      var stopsReplay := replayWhileStreaming && !keepReplay;
      OnDeactivate();
      RunStops(s, [], true);
      OnCallbacks(between);
      RunConcat(s, [UserStop], Callbacks(between));
      if stopsRecording {
        StopRecording();
      }
      RunStops(s, [UserStop] + Callbacks(between), stopsRecording);
      OnCallbacks(later);
      RunConcat(s, [UserStop] + Callbacks(between) + Stop(stopsRecording), Callbacks(later));
      if stopsReplay {
        StopReplayBuffer();
      }
      RunStops(s, [UserStop] + Callbacks(between) + Stop(stopsRecording) + Callbacks(later),
               stopsReplay && outputHandler.hasReplayBuffer);
    }

    method ProjectorOpened()
      modifies this, app
      ensures Snapshot() == Next(old(Snapshot()), Step.OpenProjector)
    {
      projectors := projectors + 1;
      app.IncrementSleepInhibition();
    }

    method ProjectorClosed()
      requires projectors > 0
      modifies this, app
      ensures Snapshot() == Next(old(Snapshot()), Step.CloseProjector)
    {
      projectors := projectors - 1;
      app.DecrementSleepInhibition();
    }
  }

  // ---------------------------------------------------------------- the invariant

  /** The effect of the last slot in the queue that matters to the lock. */
  ghost function LastEffect(replay: bool, q: seq<Event>): Effect {
    if q == [] then Silent
    else if EffectOf(replay, q[|q| - 1]) != Silent then EffectOf(replay, q[|q| - 1])
    else LastEffect(replay, q[..|q| - 1])
  }

  ghost predicate PendingLock(replay: bool, q: seq<Event>) {
    exists e :: e in q && EffectOf(replay, e) == WillLock
  }

  function SignalEffect(replay: bool, g: Signal): Effect {
    if Posted(g) == [] then Silent else EffectOf(replay, Posted(g)[0])
  }

  /** Some callback has set its flags and is about to post a slot with this effect. */
  ghost predicate InFlight(s: State, effect: Effect) {
    exists o :: o in s.inFlight && SignalEffect(s.hasReplayBuffer, s.inFlight[o]) == effect
  }

  /** A callback about to post a lock has set its output's flag. */
  ghost predicate FlagsFirst(s: State) {
    forall o :: o in s.inFlight && SignalEffect(s.hasReplayBuffer, s.inFlight[o]) == WillLock ==> s.flags.OutputActive(o)
  }

  ghost predicate SleepExact(s: State) {
    && s.sleep.refs == (if s.sleep.available then s.projectors + (if s.menuEnabled then 0 else 1) else 0)
    && s.sleep.inhibited == (s.sleep.refs > 0)
  }

  /** An active output with an unlocked menu has a lock on its way.  Without an active output a
      release is about to be posted, or it is the last word in the queue, or the queue says nothing
      and there is nothing more to release than the open boxes owe. */
  ghost predicate LockInv(s: State) {
    && FlagsFirst(s)
    && (s.Active() && s.menuEnabled ==> PendingLock(s.hasReplayBuffer, s.queue) || InFlight(s, WillLock))
    && (!s.Active() ==> InFlight(s, WillUnlock) || ReleaseIsDue(s))
  }

  ghost predicate ReleaseIsDue(s: State) {
    match LastEffect(s.hasReplayBuffer, s.queue)
    case WillUnlock => true
    case WillLock => false
    case Silent => s.menuEnabled || s.openBoxes > 0
  }

  ghost predicate Inv(s: State) {
    SleepExact(s) && LockInv(s)
  }

  lemma {:induction false} LastEffectOfTail(replay: bool, q: seq<Event>)
    requires q != []
    ensures LastEffect(replay, q) ==
            if LastEffect(replay, q[1..]) != Silent then LastEffect(replay, q[1..]) else EffectOf(replay, q[0])
  {
    if |q| > 1 {
      assert q[1..][..|q| - 2] == q[..|q| - 1][1..];
      if EffectOf(replay, q[|q| - 1]) == Silent {
        LastEffectOfTail(replay, q[..|q| - 1]);
      }
    }
  }

  lemma LastEffectOfPost(replay: bool, q: seq<Event>, g: Signal)
    ensures LastEffect(replay, q + Posted(g)) ==
            if SignalEffect(replay, g) == Silent then LastEffect(replay, q) else SignalEffect(replay, g)
  {
    if Posted(g) == [] {
      assert q + Posted(g) == q;
    } else {
      assert (q + Posted(g))[..|q|] == q;
    }
  }

  /** A signal that makes an output active announces a lock; one that ends the last activity
      announces a release. */
  lemma SignalsAnnounceActivity(f: Flags, g: Signal, replay: bool)
    requires Connected(replay, g)
    ensures !f.Active() && FlagsAfter(f, g).Active() ==> SignalEffect(replay, g) == WillLock
    ensures f.Active() && !FlagsAfter(f, g).Active() ==> SignalEffect(replay, g) == WillUnlock
    ensures SignalEffect(replay, g) == WillLock ==> FlagsAfter(f, g).OutputActive(OutputOf(g))
    ensures forall o :: o != OutputOf(g) ==> FlagsAfter(f, g).OutputActive(o) == f.OutputActive(o)
  {
  }

  lemma FlightStays(s: State, g: Signal, effect: Effect)
    requires OutputOf(g) !in s.inFlight
    ensures InFlight(Flagged(s, g), effect) <==> InFlight(s, effect) || SignalEffect(s.hasReplayBuffer, g) == effect
  {
    var t := Flagged(s, g);
    if o :| o in s.inFlight && SignalEffect(s.hasReplayBuffer, s.inFlight[o]) == effect {
      assert o in t.inFlight && t.inFlight[o] == s.inFlight[o];
    }
    if SignalEffect(s.hasReplayBuffer, g) == effect {
      assert t.inFlight[OutputOf(g)] == g;
    }
  }

  /** Setting flags keeps the invariant: the callback that did is in flight from then on. */
  lemma SetFlagsKeeps(s: State, g: Signal)
    requires LockInv(s) && Connected(s.hasReplayBuffer, g) && OutputOf(g) !in s.inFlight
    ensures LockInv(Flagged(s, g))
  {
    SignalsAnnounceActivity(s.flags, g, s.hasReplayBuffer);
    FlightStays(s, g, WillLock);
    FlightStays(s, g, WillUnlock);
  }

  lemma FlightEnds(s: State, o: Output, effect: Effect)
    requires o in s.inFlight && InFlight(s, effect)
    ensures InFlight(Finished(s, o), effect) || SignalEffect(s.hasReplayBuffer, s.inFlight[o]) == effect
  {
    var other :| other in s.inFlight && SignalEffect(s.hasReplayBuffer, s.inFlight[other]) == effect;
    if other != o {
      assert other in Finished(s, o).inFlight;
    }
  }

  /** Posting the slot keeps it: what was in flight is the last word in the queue. */
  lemma PostKeeps(s: State, o: Output)
    requires LockInv(s) && o in s.inFlight
    ensures LockInv(Finished(s, o))
  {
    var g, t := s.inFlight[o], Finished(s, o);
    LastEffectOfPost(s.hasReplayBuffer, s.queue, g);
    if t.Active() && t.menuEnabled {
      if InFlight(s, WillLock) {
        FlightEnds(s, o, WillLock);
        assert Posted(g) != [] ==> Posted(g)[0] in t.queue;
      } else {
        var e :| e in s.queue && EffectOf(s.hasReplayBuffer, e) == WillLock;
        assert e in t.queue;
      }
    }
    if InFlight(s, WillUnlock) {
      FlightEnds(s, o, WillUnlock);
    }
  }

  lemma FlightsAlike(s: State, t: State)
    requires t.inFlight == s.inFlight && t.hasReplayBuffer == s.hasReplayBuffer && t.flags == s.flags
    ensures forall effect :: InFlight(t, effect) == InFlight(s, effect)
    ensures FlagsFirst(t) == FlagsFirst(s)
  {
  }

  lemma DeliverKeeps(s: State, visible: bool)
    requires LockInv(s) && s.queue != []
    ensures LockInv(Next(s, Deliver(visible)))
  {
    LastEffectOfTail(s.hasReplayBuffer, s.queue);
    var t := Next(s, Deliver(visible));
    FlightsAlike(s, t);
    if t.Active() && t.menuEnabled && !InFlight(t, WillLock) {
      var e :| e in s.queue && EffectOf(s.hasReplayBuffer, e) == WillLock;
      assert e in t.queue;
    }
  }

  lemma StepKeepsLock(s: State, a: Step)
    requires LockInv(s)
    ensures LockInv(Next(s, a))
  {
    match a {
      case Callback(SetFlags(g)) =>
        if Connected(s.hasReplayBuffer, g) && OutputOf(g) !in s.inFlight { SetFlagsKeeps(s, g); }
      case Callback(Post(o)) => if o in s.inFlight { PostKeeps(s, o); }
      case Deliver(visible) => if s.queue != [] { DeliverKeeps(s, visible); }
      case CloseBox => FlightsAlike(s, Next(s, a));
      case UserStop => FlightsAlike(s, Next(s, a));
      case OpenProjector => FlightsAlike(s, Next(s, a));
      case CloseProjector => FlightsAlike(s, Next(s, a));
    }
  }

  lemma StepKeepsSleep(s: State, a: Step)
    requires SleepExact(s)
    ensures SleepExact(Next(s, a))
    ensures Next(s, a).sleep.available == s.sleep.available
  {
  }

  lemma {:induction false} RunKeeps(s: State, steps: seq<Step>)
    requires Inv(s)
    ensures Inv(Run(s, steps)) && Run(s, steps).sleep.available == s.sleep.available
    decreases |steps|
  {
    if steps != [] {
      StepKeepsLock(s, steps[0]);
      StepKeepsSleep(s, steps[0]);
      RunKeeps(Next(s, steps[0]), steps[1..]);
    }
  }

  // ---------------------------------------------------------------- flags and history

  predicate Starts(g: Signal, o: Output) {
    match o
    case Streaming => g.StreamStarted? || (g.DelayStarting? && g.delay != 0)
    case Recording => g.RecordStarted?
    case ReplayBuffer => g.ReplayStarted?
  }

  predicate Stops(g: Signal, o: Output) {
    match o
    case Streaming => g.StreamStopped?
    case Recording => g.RecordStopped?
    case ReplayBuffer => g.ReplayStopped?
  }

  /** The last start or stop of the output was a start. */
  predicate IsOn(signals: seq<Signal>, o: Output) {
    signals != [] &&
    (Starts(signals[|signals| - 1], o) || (!Stops(signals[|signals| - 1], o) && IsOn(signals[..|signals| - 1], o)))
  }

  /** The signal whose callback begins with this step, if one does. */
  function Begun(s: State, a: Step): seq<Signal> {
    match a
    case Callback(SetFlags(g)) => if Connected(s.hasReplayBuffer, g) && OutputOf(g) !in s.inFlight then [g] else []
    case _ => []
  }

  /** All signals of a run, in the order in which their callbacks begin. */
  function Signals(s: State, steps: seq<Step>): seq<Signal>
    decreases |steps|
  {
    if steps == [] then [] else Begun(s, steps[0]) + Signals(Next(s, steps[0]), steps[1..])
  }

  /** A start makes its output active, a stop makes it inactive, and nothing else changes that. */
  lemma StepFlags(s: State, a: Step, o: Output)
    ensures Next(s, a).flags.OutputActive(o) <==>
              if Begun(s, a) == [] then s.flags.OutputActive(o)
              else Starts(Begun(s, a)[0], o) || (!Stops(Begun(s, a)[0], o) && s.flags.OutputActive(o))
  {
  }

  lemma OnAfter(signals: seq<Signal>, more: seq<Signal>, o: Output)
    requires |more| <= 1
    ensures IsOn(signals + more, o) <==>
              if more == [] then IsOn(signals, o) else Starts(more[0], o) || (!Stops(more[0], o) && IsOn(signals, o))
  {
    if more == [] {
      assert signals + more == signals;
    } else {
      assert (signals + more)[..|signals|] == signals;
    }
  }

  lemma {:induction false} FlagsTell(s: State, signals: seq<Signal>, steps: seq<Step>, o: Output)
    requires s.flags.OutputActive(o) <==> IsOn(signals, o)
    ensures Run(s, steps).flags.OutputActive(o) <==> IsOn(signals + Signals(s, steps), o)
    decreases |steps|
  {
    if steps == [] {
      OnAfter(signals, [], o);
    } else {
      StepFlags(s, steps[0], o);
      OnAfter(signals, Begun(s, steps[0]), o);
      FlagsTell(Next(s, steps[0]), signals + Begun(s, steps[0]), steps[1..], o);
      GoneOn(signals, Begun(s, steps[0]), Signals(Next(s, steps[0]), steps[1..]));
    }
  }

  lemma GoneOn(a: seq<Signal>, b: seq<Signal>, c: seq<Signal>)
    ensures a + b + c == a + (b + c)
  {
  }

  /** In every reachable state an output is active exactly if it was started after it was last
      stopped, whatever came between. */
  lemma ActivityIsHistory(hasInhibitor: bool, hasReplayBuffer: bool, steps: seq<Step>)
    ensures var s, signals := Run(Initial(hasInhibitor, hasReplayBuffer), steps), Signals(Initial(hasInhibitor, hasReplayBuffer), steps);
            && (forall o :: s.flags.OutputActive(o) <==> IsOn(signals, o))
            && (s.Active() <==> exists o :: IsOn(signals, o))
  {
    var s0 := Initial(hasInhibitor, hasReplayBuffer);
    var s, signals := Run(s0, steps), Signals(s0, steps);
    forall o
      ensures s.flags.OutputActive(o) <==> IsOn(signals, o)
    {
      FlagsTell(s0, [], steps, o);
      assert [] + signals == signals;
    }
    ActiveOutputs(s.flags);
  }

  lemma ActiveOutputs(f: Flags)
    ensures f.Active() <==> f.OutputActive(Streaming) || f.OutputActive(Recording) || f.OutputActive(ReplayBuffer)
    ensures f.Active() <==> exists o :: f.OutputActive(o)
  {
  }

  /** A signal that announces a release leaves its own output inactive, as soon as its callback has
      begun. */
  lemma ReleaseAfterStop(s: State, g: Signal)
    requires Connected(s.hasReplayBuffer, g) && OutputOf(g) !in s.inFlight
    requires SignalEffect(s.hasReplayBuffer, g) == WillUnlock
    ensures !Next(s, Callback(SetFlags(g))).flags.OutputActive(OutputOf(g))
  {
  }

  function OpenProjectors(steps: seq<Step>, n: nat): nat
    decreases |steps|
  {
    if steps == [] then n
    else if steps[0].OpenProjector? then OpenProjectors(steps[1..], n + 1)
    else if steps[0].CloseProjector? && n > 0 then OpenProjectors(steps[1..], n - 1)
    else OpenProjectors(steps[1..], n)
  }

  lemma ProjectorStep(s: State, a: Step)
    ensures Next(s, a).projectors ==
            if a.OpenProjector? then s.projectors + 1
            else if a.CloseProjector? && s.projectors > 0 then s.projectors - 1 else s.projectors
  {
  }

  lemma {:induction false} ProjectorsCounted(s: State, steps: seq<Step>)
    ensures Run(s, steps).projectors == OpenProjectors(steps, s.projectors)
    decreases |steps|
  {
    if steps != [] {
      ProjectorStep(s, steps[0]);
      ProjectorsCounted(Next(s, steps[0]), steps[1..]);
    }
  }

  /** What each of the ten callbacks posts in the end. */
  lemma CallbackPosts(s: State, g: Signal)
    requires Connected(s.hasReplayBuffer, g) && OutputOf(g) !in s.inFlight
    ensures var t := Next(Next(s, Callback(SetFlags(g))), Callback(Post(OutputOf(g))));
            && t.inFlight == s.inFlight
            && match g
               case DelayStarting(0) => t.queue == s.queue
               case DelayStarting(sec) => t.queue == s.queue + [StreamDelayStarting(sec)]
               case StreamEnding(0) => t.queue == s.queue + [StreamStopping]
               case StreamEnding(sec) => t.queue == s.queue + [StreamDelayStopping(sec)]
               case StreamStarted => t.queue == s.queue + [StreamingStart]
               case StreamStopped(code) => t.queue == s.queue + [StreamingStop(code)]
               case RecordStarted => t.queue == s.queue + [RecordingStart]
               case RecordEnding => t.queue == s.queue + [RecordStopping]
               case RecordStopped(code) => t.queue == s.queue + [RecordingStop(code)]
               case ReplayStarted => t.queue == s.queue + [ReplayBufferStart]
               case ReplayEnding => t.queue == s.queue + [ReplayBufferStopping]
               case ReplayStopped(code) => t.queue == s.queue + [ReplayBufferStop(code)]
  {
    assert s.inFlight[OutputOf(g) := g] - {OutputOf(g)} == s.inFlight;
  }

  /** What each slot does to menu and boxes: starts lock the menu, stops unlock it unless an output
      is active, and failures reported to a visible window open a box instead. */
  lemma SlotLaws(s: State, visible: bool)
    requires s.queue != []
    ensures var t := Next(s, Deliver(visible));
            && t.queue == s.queue[1..] && t.flags == s.flags && t.inFlight == s.inFlight
            && match s.queue[0]
               case StreamDelayStarting(_) => !t.menuEnabled && t.openBoxes == s.openBoxes
               case StreamingStart => !t.menuEnabled && t.openBoxes == s.openBoxes
               case RecordingStart => !t.menuEnabled && t.openBoxes == s.openBoxes
               case ReplayBufferStart =>
                 t.menuEnabled == (s.menuEnabled && !s.hasReplayBuffer) && t.openBoxes == s.openBoxes
               case StreamingStop(_) => t.menuEnabled == (s.menuEnabled || !s.Active()) && t.openBoxes == s.openBoxes
               case RecordingStop(code) =>
                 if code != 0 && visible then t.menuEnabled == s.menuEnabled && t.openBoxes == s.openBoxes + 1
                 else t.menuEnabled == (s.menuEnabled || !s.Active()) && t.openBoxes == s.openBoxes
               case ReplayBufferStop(code) =>
                 if !s.hasReplayBuffer then t.menuEnabled == s.menuEnabled && t.openBoxes == s.openBoxes
                 else if code != 0 && visible then t.menuEnabled == s.menuEnabled && t.openBoxes == s.openBoxes + 1
                 else t.menuEnabled == (s.menuEnabled || !s.Active()) && t.openBoxes == s.openBoxes
               case _ => t == s.(queue := s.queue[1..])
  {
  }

  /** A stop request and the end of a slot behind a closed box unlock the menu unless an output is
      active. */
  lemma ReleaseLaws(s: State)
    ensures Next(s, UserStop).menuEnabled == (s.menuEnabled || !s.Active())
    ensures s.openBoxes > 0 ==>
              var t := Next(s, CloseBox);
              t.openBoxes == s.openBoxes - 1 && t.menuEnabled == (s.menuEnabled || !s.Active())
  {
  }

  // ---------------------------------------------------------------- main results

  ghost predicate Reachable(s: State) {
    exists hasInhibitor, hasReplayBuffer, steps :: s == Run(Initial(hasInhibitor, hasReplayBuffer), steps)
  }

  lemma ReachableInv(s: State)
    requires Reachable(s)
    ensures Inv(s)
  {
    var hasInhibitor, hasReplayBuffer, steps :| s == Run(Initial(hasInhibitor, hasReplayBuffer), steps);
    RunKeeps(Initial(hasInhibitor, hasReplayBuffer), steps);
  }

  /** For every interleaving: once the UI thread has caught up, the menu is locked exactly when some
      output was started after it was last stopped. */
  lemma QuiescentMenuTellsActivity(hasInhibitor: bool, hasReplayBuffer: bool, steps: seq<Step>)
    requires Run(Initial(hasInhibitor, hasReplayBuffer), steps).Quiescent()
    ensures Run(Initial(hasInhibitor, hasReplayBuffer), steps).menuEnabled <==>
              forall o :: !IsOn(Signals(Initial(hasInhibitor, hasReplayBuffer), steps), o)
  {
    ReachableInv(Run(Initial(hasInhibitor, hasReplayBuffer), steps));
    ActivityIsHistory(hasInhibitor, hasReplayBuffer, steps);
  }

  /** With an empty queue there are two ways only in which the menu can be wrong: it is not locked
      yet because the callback of an output that is active by now has not posted its slot, or it is
      still locked although nothing is active, behind an open box or a release about to be posted. */
  lemma EmptyQueueExactly(s: State)
    requires Reachable(s) && s.queue == []
    ensures s.Active() && s.menuEnabled ==> InFlight(s, WillLock)
    ensures !s.Active() && !s.menuEnabled ==> s.openBoxes > 0 || InFlight(s, WillUnlock)
    ensures s.inFlight == map[] ==>
              ((s.menuEnabled <==> !s.Active()) <==> !(s.openBoxes > 0 && !s.Active() && !s.menuEnabled))
  {
    ReachableInv(s);
  }

  /** The slot that empties the queue leaves the menu right, if no callback is in flight, exactly if
      an output is active, the menu was not locked, or the slot releases it without a box; with
      callbacks in flight an active output needs a lock taken before or by this slot, and an idle
      menu must not be locked by it. */
  lemma LastSlotExactly(s: State, visible: bool)
    requires Reachable(s) && |s.queue| == 1
    ensures var t, effect := Next(s, Deliver(visible)), EffectOf(s.hasReplayBuffer, s.queue[0]);
            (t.menuEnabled <==> !t.Active()) <==>
              if s.Active() then !s.menuEnabled || effect == WillLock
              else if s.menuEnabled then effect != WillLock
              else effect == WillUnlock && !ShowsBoxFirst(s.queue[0], visible)
    ensures var t, effect := Next(s, Deliver(visible)), EffectOf(s.hasReplayBuffer, s.queue[0]);
            s.inFlight == map[] ==>
              ((t.menuEnabled <==> !t.Active()) <==>
               s.Active() || s.menuEnabled || (effect == WillUnlock && !ShowsBoxFirst(s.queue[0], visible)))
  {
    ReachableInv(s);
    LastEffectOfTail(s.hasReplayBuffer, s.queue);
  }

  /** In every state, caught up or not, the count is the number of open projectors plus one for the
      lock, and the system is kept awake exactly when that is positive. */
  lemma SleepInhibitionNeverLeaks(hasInhibitor: bool, hasReplayBuffer: bool, steps: seq<Step>)
    ensures var s := Run(Initial(hasInhibitor, hasReplayBuffer), steps);
            && s.projectors == OpenProjectors(steps, 0)
            && s.sleep.refs == (if hasInhibitor then OpenProjectors(steps, 0) + (if s.menuEnabled then 0 else 1) else 0)
            && (s.sleep.inhibited <==> hasInhibitor && (OpenProjectors(steps, 0) > 0 || !s.menuEnabled))
  {
    RunKeeps(Initial(hasInhibitor, hasReplayBuffer), steps);
    ProjectorsCounted(Initial(hasInhibitor, hasReplayBuffer), steps);
  }

  /** Inhibition is not dropped early: while an output is active and no lock is still on its way,
      the menu is locked and the system is kept awake.  Nor is it kept for good: a lock held
      without an active output has its release in the queue, about to be posted, or owed by an open
      box. */
  lemma LockIsNeitherEarlyNorStuck(s: State)
    requires Reachable(s)
    ensures s.Active() && !PendingLock(s.hasReplayBuffer, s.queue) && !InFlight(s, WillLock) ==>
              !s.menuEnabled && (s.sleep.available ==> s.sleep.inhibited)
    ensures !s.Active() && !s.menuEnabled ==>
              LastEffect(s.hasReplayBuffer, s.queue) == WillUnlock || InFlight(s, WillUnlock) || s.openBoxes > 0
  {
    ReachableInv(s);
  }

  function AnOutput(inFlight: map<Output, Signal>): Output {
    if Streaming in inFlight then Streaming else if Recording in inFlight then Recording else ReplayBuffer
  }

  lemma FlightsDrop(inFlight: map<Output, Signal>)
    requires inFlight != map[]
    ensures AnOutput(inFlight) in inFlight
    ensures |inFlight - {AnOutput(inFlight)}| < |inFlight|
  {
    var x :| x in inFlight;
    var o := AnOutput(inFlight);
    assert o in inFlight by { match x { case Streaming => case Recording => case ReplayBuffer => } }
    assert inFlight == (inFlight - {o})[o := inFlight[o]];
  }

  /** What is still to be done for the outputs' sake: callbacks in flight post their slots, then
      posted slots run, then open boxes are dismissed. */
  function ToDo(s: State, visible: bool): Step {
    if s.inFlight != map[] then Callback(Post(AnOutput(s.inFlight)))
    else if s.queue != [] then Deliver(visible)
    else CloseBox
  }

  lemma ToDoShrinks(s: State, visible: bool)
    requires !s.Quiescent()
    ensures var t := Next(s, ToDo(s, visible));
            || |t.inFlight| < |s.inFlight|
            || (t.inFlight == s.inFlight && |t.queue| < |s.queue|)
            || (t.inFlight == s.inFlight && t.queue == s.queue && t.openBoxes < s.openBoxes)
    ensures Next(s, ToDo(s, visible)).flags == s.flags
  {
    if s.inFlight != map[] {
      FlightsDrop(s.inFlight);
    }
  }

  function CatchUp(s: State, visible: bool): State
    decreases |s.inFlight|, |s.queue|, s.openBoxes
  {
    if s.Quiescent() then s
    else
      ToDoShrinks(s, visible);
      CatchUp(Next(s, ToDo(s, visible)), visible)
  }

  lemma {:induction false} CatchUpKeeps(s: State, visible: bool)
    requires Inv(s)
    ensures var t := CatchUp(s, visible); Inv(t) && t.Quiescent() && t.flags == s.flags
    decreases |s.inFlight|, |s.queue|, s.openBoxes
  {
    if !s.Quiescent() {
      ToDoShrinks(s, visible);
      StepKeepsLock(s, ToDo(s, visible));
      StepKeepsSleep(s, ToDo(s, visible));
      CatchUpKeeps(Next(s, ToDo(s, visible)), visible);
    }
  }

  /** From any reachable state, if the outputs fall silent, the UI settles on the truth: it
      terminates with the menu locked exactly when some output was started after it was last
      stopped. */
  lemma SettlesOnTruth(hasInhibitor: bool, hasReplayBuffer: bool, steps: seq<Step>, visible: bool)
    ensures var s := Run(Initial(hasInhibitor, hasReplayBuffer), steps);
            var t := CatchUp(s, visible);
            t.Quiescent() && t.flags == s.flags &&
            (t.menuEnabled <==> forall o :: !IsOn(Signals(Initial(hasInhibitor, hasReplayBuffer), steps), o))
  {
    var s := Run(Initial(hasInhibitor, hasReplayBuffer), steps);
    ReachableInv(s);
    CatchUpKeeps(s, visible);
    ActivityIsHistory(hasInhibitor, hasReplayBuffer, steps);
  }

  /** An empty queue alone is not enough: while the box about a failed recording is open, the
      menu is still locked although nothing is active. */
  lemma OpenBoxDelaysRelease()
    ensures var s0 := Initial(true, false);
            var s1 := Run(s0, [Callback(SetFlags(RecordStarted)), Callback(Post(Recording))]);
            var s2 := Run(s1, [Callback(SetFlags(RecordStopped(-4))), Callback(Post(Recording))]);
            var s := Run(s2, [Deliver(true), Deliver(true)]);
            s.queue == [] && s.inFlight == map[] && !s.Active() && !s.menuEnabled && s.openBoxes == 1
  {
    var s0 := Initial(true, false);
    var s1 := Run(s0, [Callback(SetFlags(RecordStarted)), Callback(Post(Recording))]);
    Uninterrupted(s0, RecordStarted);
    assert s1 == s0.(flags := s0.flags.(recording := true), queue := [RecordingStart]);
    var s2 := Run(s1, [Callback(SetFlags(RecordStopped(-4))), Callback(Post(Recording))]);
    Uninterrupted(s1, RecordStopped(-4));
    assert s2 == s0.(queue := [RecordingStart, RecordingStop(-4)]);
    FailedRecording(s2);
  }

  lemma Uninterrupted(s: State, g: Signal)
    requires Connected(s.hasReplayBuffer, g) && OutputOf(g) !in s.inFlight
    ensures Run(s, [Callback(SetFlags(g)), Callback(Post(OutputOf(g)))]) ==
            s.(flags := FlagsAfter(s.flags, g), queue := s.queue + Posted(g))
  {
    TwoSteps(s, Callback(SetFlags(g)), Callback(Post(OutputOf(g))));
    assert s.inFlight[OutputOf(g) := g] - {OutputOf(g)} == s.inFlight;
  }

  lemma FailedRecording(s: State)
    requires s == Initial(true, false).(queue := [RecordingStart, RecordingStop(-4)])
    ensures var t := Run(s, [Deliver(true), Deliver(true)]);
            t.queue == [] && t.inFlight == map[] && !t.Active() && !t.menuEnabled && t.openBoxes == 1
  {
    TwoSteps(s, Deliver(true), Deliver(true));
    assert s.queue[1..] == [RecordingStop(-4)];
  }

  lemma TwoSteps(s: State, a: Step, b: Step)
    ensures Run(s, [a, b]) == Next(Next(s, a), b)
  {
    var t := Next(s, a);
    assert [a, b] == [a] + [b] && [b] == [b] + [];
    RunStep(s, a, [b], t);
    RunStep(t, b, [], Next(t, b));
  }

  /** Nor is the flag: between setting it and posting its slot a recording is active, nothing waits
      for the UI thread, and neither the menu is locked nor the system kept awake. */
  lemma ActiveBeforeAnnounced()
    ensures var s := Next(Initial(true, false), Callback(SetFlags(RecordStarted)));
            s.Active() && s.queue == [] && s.menuEnabled && !s.sleep.inhibited && InFlight(s, WillLock)
  {
    var s := Next(Initial(true, false), Callback(SetFlags(RecordStarted)));
    assert s.inFlight[Recording] == RecordStarted;
  }
}
