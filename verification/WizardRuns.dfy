/** What the runs of the auto-config wizard achieve.

    A stage whose test fails sends no next-stage event, and the run stops there.  An event of an
    earlier visit that arrives late takes the place of the missing one and carries the run past the
    failed test.  How many late events a run can bear depends on how many tests stand between it and
    its last page.
 */
module WizardRuns {
  import opened AutoConfig
  import opened Ratios
  import opened ResolutionSearch
  import opened Wrappers

  /** The current run has made a search, and the ideal resolution is what it chose. */
  ghost predicate Found(m: Machine, s: State) {
    match s.search
    case None => false
    case Some(Hardware(bitrate)) =>
      !s.softwareTested && s.ideal == Chosen(s.settings, HardwareChoices(m, s.settings, bitrate))
    case Some(Software(bitrate, trials)) =>
      && s.softwareTested && SoftwareWorks(m, s.settings, bitrate, trials)
      && s.ideal == Chosen(s.settings, SoftwareChoices(m, s.settings, bitrate, trials))
  }

  function HardwareChoices(m: Machine, s: Settings, bitrate: int): (r: seq<Result>)
    ensures r != []
  {
    HardwareSearchFinds(m, s, bitrate);
    HardwareResults(m, s, bitrate)
  }

  function SoftwareChoices(m: Machine, s: Settings, bitrate: int, trials: nat -> Trial): (r: seq<Result>)
    requires SoftwareWorks(m, s, bitrate, trials)
    ensures r != []
  {
    SoftwareSearchFinds(m, s, bitrate, trials);
    SoftwareResults(m, s, bitrate, trials)
  }

  predicate Fresh(s: State) {
    s.search.None? && !s.softwareTested
  }

  /** The streaming encoder is x264 exactly if hardware is not wanted or not there, and otherwise
      the best one available. */
  predicate StreamingChosen(s: State) {
    s.streamingEncoder == if s.settings.preferHardware && s.available.hardware then Preferred(s.available) else X264
  }

  /** Recordings of their own use the best encoder there is; besides a stream they use NVENC or
      share the encoder of the stream. */
  predicate RecordingChosen(s: State) {
    && (s.settings.recordingOnly ==>
          s.recordingEncoder == if s.available.hardware then Preferred(s.available) else X264)
    && (!s.settings.recordingOnly ==>
          s.recordingEncoder == if s.available.hardware && s.available.nvenc then NVENC else Encoder.Stream)
    && (s.recordingQuality.SameAsStream? <==> s.recordingEncoder.Stream?)
  }

  /** Hardware is searched on estimates where it will encode, and otherwise software is tried. */
  predicate SearchedRightly(s: State) {
    s.softwareTested <==> !(s.available.hardware && (s.settings.recordingOnly || s.settings.preferHardware))
  }

  // ---------------------------------------------------------------- one visit to the page

  /** No test of this visit can fail for want of a search. */
  predicate AlwaysFinds(s: State) {
    s.available.hardware && (s.settings.recordingOnly || s.settings.preferHardware)
  }

  /** How many tests a run without a search has to be carried past. */
  function Tests(s: State): nat {
    if !s.settings.recordingOnly && !s.available.hardware then 2 else 1
  }

  predicate Within(s: State, spare: nat) {
    AlwaysFinds(s) || s.posted < Tests(s) + spare
  }

  /** The stream's encoder is known to be right; strict leaves this out for visits from states that
      no run reaches. */
  ghost predicate Streamed(m: Machine, s: State, strict: bool) {
    !s.settings.recordingOnly && Found(m, s) && SearchedRightly(s) && (strict ==> StreamingChosen(s))
  }

  ghost predicate Recorded(m: Machine, s: State, strict: bool) {
    && Found(m, s) && SearchedRightly(s) && RecordingChosen(s)
    && (strict && !s.settings.recordingOnly ==> StreamingChosen(s))
  }

  /** What holds at the stages of a visit: while the stage thread runs, and when it is done and the
      page has not been left. */
  ghost predicate Visit(m: Machine, s: State, strict: bool) {
    && (s.thread.Running? ==> s.thread.stage == s.stage && !s.cancel)
    && match s.stage
       case Starting => false
       case BandwidthTest => !s.settings.recordingOnly && Fresh(s) && Within(s, if s.thread.Running? then 0 else 1)
       case StreamEncoder => AtStreamEncoder(m, s, strict)
       case RecordingEncoder => AtRecordingEncoder(m, s, strict)
       case Finished => !s.thread.Running? && Recorded(m, s, strict)
  }

  ghost predicate AtStreamEncoder(m: Machine, s: State, strict: bool) {
    && !s.settings.recordingOnly
    && if s.thread.Running? then Fresh(s) && Within(s, 0)
       else s.cancel || Streamed(m, s, strict) || (Fresh(s) && !AlwaysFinds(s) && Within(s, 0))
  }

  ghost predicate AtRecordingEncoder(m: Machine, s: State, strict: bool) {
    if s.thread.Running? then
      Streamed(m, s, strict) || (Fresh(s) && if s.available.hardware then s.settings.recordingOnly else s.posted == 0)
    else s.cancel || Recorded(m, s, strict) || (Fresh(s) && !s.available.hardware && s.posted == 0)
  }

  /** Without hardware encoders the streaming encoder has never been anything but x264. */
  predicate Plain(s: State) {
    && (s.available.hardware <==> s.available.nvenc || s.available.qsv || s.available.vce)
    && (!s.available.hardware ==> s.streamingEncoder.X264?)
  }

  lemma StreamEncoderKeeps(m: Machine, s: State, strict: bool, trials: nat -> Trial)
    requires Visit(m, s, strict) && s.thread == Running(StreamEncoder) && (strict ==> Plain(s))
    ensures var t := StreamEncoderThread(m, s, trials);
            && t.thread == Ended && t.stage == s.stage && t.available == s.available && (strict ==> Plain(t))
            && Visit(m, t, strict) && Visit(m, t.(cancel := true), strict)
  {
  }

  lemma RecordingEncoderKeeps(m: Machine, s: State, strict: bool, trials: nat -> Trial)
    requires Visit(m, s, strict) && s.thread == Running(RecordingEncoder) && (strict ==> Plain(s))
    ensures var t := RecordingEncoderThread(m, s, trials);
            && t.thread == Ended && t.stage == s.stage && t.available == s.available && (strict ==> Plain(t))
            && Visit(m, t, strict) && Visit(m, t.(cancel := true), strict)
  {
    if s.settings.recordingOnly {
      OnlyRecording(m, s, strict, trials);
    } else if Streamed(m, s, strict) {
      RecordingTaken(m, s, strict);
    } else if SoftwareWorks(m, s.settings, s.idealBitrate, trials) {
      RecordingTaken(m, SoftwareSearched(m, s, trials), strict);
    }
  }

  lemma OnlyRecording(m: Machine, s: State, strict: bool, trials: nat -> Trial)
    requires Visit(m, s, strict) && s.thread == Running(RecordingEncoder) && s.settings.recordingOnly
    ensures var t := RecordingEncoderThread(m, s, trials);
            Visit(m, t, strict)
  {
    if s.available.hardware {
      RecordingTaken(m, HardwareSearched(m, s), strict);
    } else if SoftwareWorks(m, s.settings, s.idealBitrate, trials) {
      RecordingTaken(m, SoftwareSearched(m, s, trials), strict);
    }
  }

  lemma RecordingTaken(m: Machine, s: State, strict: bool)
    requires Found(m, s) && SearchedRightly(s) && (strict && !s.settings.recordingOnly ==> StreamingChosen(s))
    ensures Recorded(m, Done(RecordingChoice(s)), strict)
  {
  }

  lemma JoinKeeps(m: Machine, s: State, strict: bool, trials: nat -> Trial, measured: Option<int>)
    requires Visit(m, s, strict) && s.thread.Running? && (strict ==> Plain(s))
    ensures var t := Joined(m, s, trials, measured);
            && t.thread == Ended && t.available == s.available && (strict ==> Plain(t))
            && Visit(m, t, strict) && Visit(m, t.(cancel := true), strict)
  {
    match s.stage
    case BandwidthTest =>
    case StreamEncoder => StreamEncoderKeeps(m, s, strict, trials);
    case RecordingEncoder => RecordingEncoderKeeps(m, s, strict, trials);
  }

  function With(s: State, posted: nat, cancel: bool): State {
    s.(posted := posted, cancel := cancel)
  }

  lemma SearchesCommute(m: Machine, s: State, posted: nat, cancel: bool, trials: nat -> Trial)
    ensures HardwareSearched(m, With(s, posted, cancel)) == With(HardwareSearched(m, s), posted, cancel)
    ensures SoftwareWorks(m, s.settings, s.idealBitrate, trials) ==>
              SoftwareSearched(m, With(s, posted, cancel), trials) == With(SoftwareSearched(m, s, trials), posted, cancel)
  {
  }

  lemma StreamThreadCommutes(m: Machine, s: State, posted: nat, cancel: bool, trials: nat -> Trial)
    ensures var t := StreamEncoderThread(m, s, trials);
            && t.posted >= s.posted && t.cancel == s.cancel
            && StreamEncoderThread(m, With(s, posted, cancel), trials) == With(t, posted + t.posted - s.posted, cancel)
  {
    SearchesCommute(m, s, posted, cancel, trials);
  }

  lemma RecordingThreadCommutes(m: Machine, s: State, posted: nat, cancel: bool, trials: nat -> Trial)
    ensures var t := RecordingEncoderThread(m, s, trials);
            && t.posted >= s.posted && t.cancel == s.cancel
            && RecordingEncoderThread(m, With(s, posted, cancel), trials) == With(t, posted + t.posted - s.posted, cancel)
  {
    SearchesCommute(m, s, posted, cancel, trials);
    if !s.available.hardware && !s.softwareTested && SoftwareWorks(m, s.settings, s.idealBitrate, trials) {
      SearchesCommute(m, SoftwareSearched(m, s, trials), posted, cancel, trials);
    }
  }

  /** The thread takes no notice of the events under way or of the page being left. */
  lemma JoinCommutes(m: Machine, s: State, posted: nat, cancel: bool, trials: nat -> Trial, measured: Option<int>)
    ensures var t := Joined(m, s, trials, measured);
            && t.posted >= s.posted && t.cancel == s.cancel
            && Joined(m, With(s, posted, cancel), trials, measured) == With(t, posted + t.posted - s.posted, cancel)
  {
    match s.thread
    case Running(StreamEncoder) => StreamThreadCommutes(m, s, posted, cancel, trials);
    case Running(RecordingEncoder) => RecordingThreadCommutes(m, s, posted, cancel, trials);
    case _ =>
  }

  lemma AdvanceKeeps(m: Machine, s: State, strict: bool)
    requires Visit(m, s, strict) && !s.thread.Running? && s.posted > 0
    ensures var t := s.(posted := s.posted - 1, thread := Idle);
            Visit(m, if t.cancel then t else Advanced(t), strict) && (Plain(s) ==> Plain(Advanced(t)))
  {
  }

  lemma SlotKeeps(m: Machine, before: State, t: State, strict: bool, trials: nat -> Trial, measured: Option<int>)
    requires Visit(m, t, strict) && !t.thread.Running? && t.posted > 0 && (strict ==> Plain(t))
    requires Joined(m, before, trials, measured) == t.(posted := t.posted - 1)
    ensures var u := SlotRun(m, before, trials, measured);
            Visit(m, u, strict) && (strict ==> Plain(u))
  {
    AdvanceKeeps(m, t, strict);
  }

  lemma EventKeeps(m: Machine, s: State, strict: bool, trials: nat -> Trial, measured: Option<int>)
    requires Visit(m, s, strict) && s.posted > 0 && (strict ==> Plain(s))
    ensures var t := SlotRun(m, s.(posted := s.posted - 1), trials, measured);
            Visit(m, t, strict) && (strict ==> Plain(t))
  {
    var before := s.(posted := s.posted - 1);
    if s.thread.Running? {
      JoinCommutes(m, s, s.posted - 1, s.cancel, trials, measured);
      JoinKeeps(m, s, strict, trials, measured);
      SlotKeeps(m, before, Joined(m, s, trials, measured), strict, trials, measured);
    } else {
      SlotKeeps(m, before, s, strict, trials, measured);
    }
  }

  lemma LeaveKeeps(m: Machine, s: State, strict: bool, trials: nat -> Trial, measured: Option<int>)
    requires Visit(m, s, strict) && (strict ==> Plain(s))
    ensures var t := Next(m, s, Leave(trials, measured));
            Visit(m, t, strict) && (strict ==> Plain(t))
  {
    JoinCommutes(m, s, s.posted, true, trials, measured);
    if s.thread.Running? {
      JoinKeeps(m, s, strict, trials, measured);
    }
  }

  lemma VisitGoesOn(m: Machine, s: State, strict: bool, a: Action)
    requires Visit(m, s, strict) && (strict ==> Plain(s)) && !a.Enter?
    ensures Visit(m, Next(m, s, a), strict) && (strict ==> Plain(Next(m, s, a)))
  {
    match a
    case ThreadEnds(trials, measured) =>
      if s.thread.Running? {
        JoinKeeps(m, s, strict, trials, measured);
      }
    case NextStage(trials, measured) =>
      if s.posted > 0 {
        EventKeeps(m, s, strict, trials, measured);
      }
    case Leave(trials, measured) => LeaveKeeps(m, s, strict, trials, measured);
  }

  // ---------------------------------------------------------------- when a visit is safe

  /** No late event is under way, or no test of the visit can fail for want of hardware, or there is
      one late event and both encoder tests would have to fail. */
  predicate SafeToEnter(s: State, settings: Settings) {
    || s.posted == 0
    || (s.available.hardware && (settings.recordingOnly || settings.preferHardware))
    || (s.posted == 1 && !s.available.hardware && !settings.recordingOnly)
  }

  lemma EnterStartsVisit(m: Machine, s: State, strict: bool, a: Action)
    requires a.Enter? && !s.thread.Running? && SafeToEnter(s, a.settings) && (strict ==> Plain(s))
    ensures Visit(m, Next(m, s, a), strict) && (strict ==> Plain(Next(m, s, a)))
  {
  }

  ghost predicate StaysOnPage(actions: seq<Action>) {
    forall i :: 0 <= i < |actions| ==> !actions[i].Enter?
  }

  lemma {:induction false} VisitKeeps(m: Machine, s: State, strict: bool, actions: seq<Action>)
    requires Visit(m, s, strict) && (strict ==> Plain(s)) && StaysOnPage(actions)
    ensures Visit(m, Run(m, s, actions), strict)
    ensures strict ==> Plain(Run(m, s, actions))
  {
    if actions != [] {
      var front := actions[..|actions| - 1];
      VisitKeeps(m, s, strict, front);
      VisitGoesOn(m, Run(m, s, front), strict, actions[|actions| - 1]);
    }
  }

  /** Some way to go on from here reaches the last page without a search. */
  ghost predicate MayFinishUnfound(m: Machine, s: State) {
    exists actions :: StaysOnPage(actions) && FinishesUnfound(m, s, actions)
  }

  ghost predicate FinishesUnfound(m: Machine, s: State, actions: seq<Action>) {
    Run(m, s, actions).stage.Finished? && !Found(m, Run(m, s, actions))
  }

  lemma {:induction false} RunCons(m: Machine, s: State, a: Action, actions: seq<Action>)
    ensures Run(m, s, [a] + actions) == Run(m, Next(m, s, a), actions)
  {
    var all := [a] + actions;
    if actions == [] {
      assert all[..0] == [];
      assert Run(m, s, all[..0]) == s;
    } else {
      var front := actions[..|actions| - 1];
      RunCons(m, s, a, front);
      assert all[..|all| - 1] == [a] + front;
    }
  }

  lemma OneStepEarlier(m: Machine, s: State, a: Action)
    requires !a.Enter? && MayFinishUnfound(m, Next(m, s, a))
    ensures MayFinishUnfound(m, s)
  {
    var actions :| StaysOnPage(actions) && FinishesUnfound(m, Next(m, s, a), actions);
    RunCons(m, s, a, actions);
    assert StaysOnPage([a] + actions) && FinishesUnfound(m, s, [a] + actions);
  }

  lemma FinishedUnfound(m: Machine, s: State)
    requires s.stage.Finished? && s.search.None?
    ensures MayFinishUnfound(m, s)
  {
    assert StaysOnPage([]) && FinishesUnfound(m, s, []);
  }

  lemma RefusedFails(m: Machine, s: Settings, bitrate: int, trials: nat -> Trial)
    requires forall k :: trials(k) == Refused
    ensures !SoftwareWorks(m, s, bitrate, trials)
  {
    var flags := SoftwareFlags(m, s, bitrate, trials);
    var last := |Ladder(s)| - 1;
    NoneAccepted(Candidates(s), flags, last);
    assert Fails(m, s, bitrate, trials, last);
  }

  lemma UnfoundAtRecording(m: Machine, s: State)
    requires s.thread == Running(RecordingEncoder) && s.stage.RecordingEncoder? && !s.cancel && Fresh(s)
    requires if s.available.hardware then !s.settings.recordingOnly else s.posted >= 1
    ensures MayFinishUnfound(m, s)
  {
    var refused: nat -> Trial := _ => Refused;
    RefusedFails(m, s.settings, s.idealBitrate, refused);
    if s.available.hardware {
      var ended := Next(m, s, ThreadEnds(refused, None));
      assert ended == Done(RecordingChoice(s));
      FinishedUnfound(m, Next(m, ended, NextStage(refused, None)));
      OneStepEarlier(m, ended, NextStage(refused, None));
      OneStepEarlier(m, s, ThreadEnds(refused, None));
    } else {
      FinishedUnfound(m, Next(m, s, NextStage(refused, None)));
      OneStepEarlier(m, s, NextStage(refused, None));
    }
  }

  lemma UnfoundAtStream(m: Machine, s: State)
    requires s.thread == Running(StreamEncoder) && s.stage.StreamEncoder? && !s.cancel && Fresh(s)
    requires !s.settings.recordingOnly && !Within(s, 0)
    ensures MayFinishUnfound(m, s)
  {
    var refused: nat -> Trial := _ => Refused;
    RefusedFails(m, s.settings, s.idealBitrate, refused);
    UnfoundAtRecording(m, Next(m, s, NextStage(refused, None)));
    OneStepEarlier(m, s, NextStage(refused, None));
  }

  lemma UnfoundAtBandwidth(m: Machine, s: State)
    requires s.thread == Running(BandwidthTest) && s.stage.BandwidthTest? && !s.cancel && Fresh(s)
    requires !s.settings.recordingOnly && !Within(s, 0)
    ensures MayFinishUnfound(m, s)
  {
    var refused: nat -> Trial := _ => Refused;
    UnfoundAtStream(m, Next(m, s, NextStage(refused, Some(0))));
    OneStepEarlier(m, s, NextStage(refused, Some(0)));
  }

  lemma UnsafeVisit(m: Machine, s: State, a: Action)
    requires a.Enter? && !s.thread.Running? && !SafeToEnter(s, a.settings)
    ensures MayFinishUnfound(m, Next(m, s, a))
  {
    var t := Next(m, s, a);
    if a.settings.recordingOnly {
      UnfoundAtRecording(m, t);
    } else if a.settings.bandwidthTest {
      UnfoundAtBandwidth(m, t);
    } else {
      UnfoundAtStream(m, t);
    }
  }

  /** After entering the page, no way to go on can finish without a search of this visit, exactly if
      it was safe to enter. */
  lemma SafeToEnterExactly(m: Machine, s: State, a: Action)
    requires a.Enter? && !s.thread.Running?
    ensures SafeToEnter(s, a.settings) <==> !MayFinishUnfound(m, Next(m, s, a))
  {
    if SafeToEnter(s, a.settings) {
      EnterStartsVisit(m, s, false, a);
      forall actions | StaysOnPage(actions)
        ensures !FinishesUnfound(m, Next(m, s, a), actions)
      {
        VisitKeeps(m, Next(m, s, a), false, actions);
      }
    } else {
      UnsafeVisit(m, s, a);
    }
  }

  // ---------------------------------------------------------------- every run of the wizard

  /** The page is entered only after it was left, and when that is safe. */
  ghost predicate EntersSafely(m: Machine, s: State, actions: seq<Action>) {
    actions != [] ==>
      var before, a := Run(m, s, actions[..|actions| - 1]), actions[|actions| - 1];
      && EntersSafely(m, s, actions[..|actions| - 1])
      && (a.Enter? ==> !before.thread.Running? && SafeToEnter(before, a.settings))
  }

  /** Before the first visit nothing happens. */
  predicate Unvisited(s: State) {
    s.stage.Starting? && s.thread.Idle? && s.posted == 0
  }

  ghost predicate Inv(m: Machine, s: State) {
    Plain(s) && (Unvisited(s) || Visit(m, s, true))
  }

  lemma NextKeeps(m: Machine, s: State, a: Action)
    requires Inv(m, s) && (a.Enter? ==> !s.thread.Running? && SafeToEnter(s, a.settings))
    ensures Inv(m, Next(m, s, a))
  {
    if a.Enter? {
      EnterStartsVisit(m, s, true, a);
    } else if Visit(m, s, true) {
      VisitGoesOn(m, s, true, a);
    }
  }

  lemma {:induction false} RunKeeps(m: Machine, s: State, actions: seq<Action>)
    requires Inv(m, s) && EntersSafely(m, s, actions)
    ensures Inv(m, Run(m, s, actions))
  {
    if actions != [] {
      RunKeeps(m, s, actions[..|actions| - 1]);
      NextKeeps(m, Run(m, s, actions[..|actions| - 1]), actions[|actions| - 1]);
    }
  }

  predicate IsAvailable(a: Available, e: Encoder) {
    match e
    case NVENC => a.nvenc
    case QSV => a.qsv
    case AMD => a.vce
    case _ => true
  }

  /** A wizard whose page is entered safely and that has reached its last page has made a search in
      this very visit and shows what it chose, has the encoders its settings and the available ones
      determine, none of them unavailable, and lets the recording share the stream's encoder only if
      there is a stream. */
  lemma FinishedWizard(m: Machine, settings: Settings, bitrate: int, ids: seq<string>, actions: seq<Action>)
    requires EntersSafely(m, Opened(settings, bitrate, ids), actions)
    requires Run(m, Opened(settings, bitrate, ids), actions).stage.Finished?
    ensures var s := Run(m, Opened(settings, bitrate, ids), actions);
            && Found(m, s) && SearchedRightly(s) && RecordingChosen(s) && (s.settings.recordingOnly || StreamingChosen(s))
            && IsAvailable(s.available, s.recordingEncoder)
            && (!s.settings.recordingOnly ==> IsAvailable(s.available, s.streamingEncoder))
            && (s.recordingEncoder.Stream? ==> !s.settings.recordingOnly)
            && WithinCap(s.settings, if s.softwareTested then SoftwareCap(m) else HardwareCap(m), s.ideal)
  {
    var s := Run(m, Opened(settings, bitrate, ids), actions);
    RunKeeps(m, Opened(settings, bitrate, ids), actions);
    match s.search
    case Some(Hardware(b)) => HardwareSearchFinds(m, s.settings, b);
    case Some(Software(b, trials)) => SoftwareSearchFinds(m, s.settings, b, trials);
  }

  lemma NextKeepsAvailable(m: Machine, s: State, a: Action)
    ensures Next(m, s, a).available == s.available
  {
    match a
    case Enter(settings, bitrate, trials, measured) => JoinKeepsAvailable(m, Reset(s, settings, bitrate), trials, measured);
    case ThreadEnds(trials, measured) => JoinKeepsAvailable(m, s, trials, measured);
    case NextStage(trials, measured) =>
      if s.posted > 0 {
        JoinKeepsAvailable(m, s.(posted := s.posted - 1), trials, measured);
      }
    case Leave(trials, measured) => JoinKeepsAvailable(m, s.(cancel := true), trials, measured);
  }

  lemma JoinKeepsAvailable(m: Machine, s: State, trials: nat -> Trial, measured: Option<int>)
    ensures Joined(m, s, trials, measured).available == s.available
  {
  }

  lemma {:induction false} RunKeepsAvailable(m: Machine, s: State, actions: seq<Action>)
    ensures Run(m, s, actions).available == s.available
  {
    if actions != [] {
      RunKeepsAvailable(m, s, actions[..|actions| - 1]);
      NextKeepsAvailable(m, Run(m, s, actions[..|actions| - 1]), actions[|actions| - 1]);
    }
  }

  /** The best encoder among those listed by their names. */
  function Best(ids: seq<string>): Encoder {
    if "ffmpeg_nvenc" in ids then NVENC
    else if "obs_qsv11" in ids then QSV
    else if "amd_amf_h264" in ids then AMD
    else X264
  }

  lemma DetectedByName(settings: Settings, bitrate: int, ids: seq<string>)
    ensures var a := Opened(settings, bitrate, ids).available;
            && (a.hardware <==> Best(ids) != X264) && (a.hardware ==> Preferred(a) == Best(ids))
            && (a.nvenc <==> "ffmpeg_nvenc" in ids) && (a.qsv <==> "obs_qsv11" in ids) && (a.vce <==> "amd_amf_h264" in ids)
  {
  }

  /** The encoders of a wizard that has finished, from the names of the encoders there are: a recording
      alone takes the best; besides a stream it takes NVENC, or shares the stream's, whose quality it
      then has; and the stream takes the best if hardware is preferred, and x264 otherwise. */
  lemma FinishedEncoders(m: Machine, settings: Settings, bitrate: int, ids: seq<string>, actions: seq<Action>)
    requires EntersSafely(m, Opened(settings, bitrate, ids), actions)
    requires Run(m, Opened(settings, bitrate, ids), actions).stage.Finished?
    ensures var s := Run(m, Opened(settings, bitrate, ids), actions);
            if s.settings.recordingOnly then s.recordingEncoder == Best(ids) && s.recordingQuality == High
            else
              && s.streamingEncoder == (if s.settings.preferHardware then Best(ids) else X264)
              && s.recordingEncoder == (if Best(ids) == NVENC then NVENC else Encoder.Stream)
              && s.recordingQuality == (if Best(ids) == NVENC then High else SameAsStream)
  {
    FinishedWizard(m, settings, bitrate, ids, actions);
    RunKeepsAvailable(m, Opened(settings, bitrate, ids), actions);
    DetectedByName(settings, bitrate, ids);
  }

  // ---------------------------------------------------------------- single actions

  /** Entering the page starts the first stage that the settings ask for and forgets the last run,
      but neither the events under way nor what was found. */
  lemma EnteringStarts(m: Machine, s: State, a: Action)
    requires a.Enter? && !s.thread.Running?
    ensures var t := Next(m, s, a);
            && t.stage == (if a.settings.recordingOnly then RecordingEncoder
                           else if a.settings.bandwidthTest then BandwidthTest else StreamEncoder)
            && t == s.(settings := a.settings, stage := t.stage, thread := Running(t.stage), cancel := false,
                       softwareTested := false, search := None,
                       idealBitrate := if a.settings.recordingOnly then s.idealBitrate else a.bitrate)
  {
  }

  /** The bandwidth test takes over what it measured and sends its event, or does neither. */
  lemma BandwidthMeasured(m: Machine, s: State, trials: nat -> Trial, measured: Option<int>)
    requires s.thread == Running(BandwidthTest)
    ensures Next(m, s, ThreadEnds(trials, measured)) ==
            if measured.Some? then s.(thread := Ended, posted := s.posted + 1, idealBitrate := measured.value)
            else s.(thread := Ended)
  {
  }

  /** An event goes on to the next stage, unless the page has been left. */
  lemma EventGoesOn(m: Machine, s: State, trials: nat -> Trial, measured: Option<int>)
    requires s.posted > 0 && !s.thread.Running? && !s.stage.Starting?
    ensures var left := s.(posted := s.posted - 1, thread := Idle);
            Next(m, s, NextStage(trials, measured)) ==
            if s.cancel then left
            else if s.stage == BandwidthTest then left.(stage := StreamEncoder, thread := Running(StreamEncoder))
            else if s.stage == StreamEncoder then left.(stage := RecordingEncoder, thread := Running(RecordingEncoder))
            else left.(stage := Finished)
  {
  }

  /** Leaving the page cancels a stage thread that is not joined yet; otherwise nothing happens, and
      events under way stay. */
  lemma LeavingCancels(m: Machine, s: State, trials: nat -> Trial, measured: Option<int>)
    requires !s.thread.Running?
    ensures Next(m, s, Leave(trials, measured)) == if s.thread.Idle? then s else s.(cancel := true, thread := Idle)
  {
  }

  /** A search in software caps the bit rate by the upper estimate for what it chose, cut to fifties
      and, unless the stream's encoder is x264, 14 percent more. */
  lemma BitrateIsCapped(m: Machine, s: State, trials: nat -> Trial)
    requires SoftwareWorks(m, s.settings, s.idealBitrate, trials)
    ensures var t := SoftwareSearched(m, s, trials);
            var fifties := (m.upperBitrate(t.ideal) / 50.0).Floor * 50;
            var cap := if s.streamingEncoder == X264 then fifties else Truncated(fifties as real * 114.0 / 100.0);
            t.idealBitrate == (if s.idealBitrate <= cap then s.idealBitrate else cap)
  {
  }

  /** A run that only configures recording skips straight to the recording encoders, and finishes
      exactly if there is a hardware encoder or encoding in software works. */
  lemma RecordingOnlyFinishes(m: Machine, s: State, a: Action, trials: nat -> Trial, measured: Option<int>)
    requires a.Enter? && a.settings.recordingOnly && s.posted == 0 && !s.thread.Running?
    ensures var t := Next(m, Next(m, Next(m, s, a), ThreadEnds(trials, measured)), NextStage(trials, measured));
            t.stage.Finished? <==>
              s.available.hardware || SoftwareWorks(m, a.settings, s.idealBitrate, trials)
  {
    var t := Next(m, s, a);
    assert t.thread == Running(RecordingEncoder) && !t.softwareTested && !t.cancel;
    assert Next(m, t, ThreadEnds(trials, measured)) == RecordingEncoderThread(m, t, trials);
  }

  lemma SmoothWorks(m: Machine, s: Settings, bitrate: int, trials: nat -> Trial)
    requires forall k :: trials(k) == Ran(0, false)
    ensures SoftwareWorks(m, s, bitrate, trials)
  {
  }

  /** A visit that is left just as a stage succeeds leaves its event behind; with hardware encoders
      that are not preferred, entering again at once may then finish without a search. */
  lemma LateEventSkipsTest(m: Machine, s: State, a: Action)
    requires a.Enter? && s.posted == 0 && s.thread.Idle? && s.available.hardware
    requires !a.settings.recordingOnly && !a.settings.bandwidthTest && !a.settings.preferHardware
    ensures var left := Next(m, Next(m, s, a), Leave(_ => Ran(0, false), None));
            left.posted == 1 && left.thread.Idle? && MayFinishUnfound(m, Next(m, left, a))
  {
    var smooth: nat -> Trial := _ => Ran(0, false);
    var entered := Next(m, s, a);
    assert entered.thread == Running(StreamEncoder) && !entered.softwareTested;
    SmoothWorks(m, a.settings, entered.idealBitrate, smooth);
    var left := Next(m, entered, Leave(smooth, None));
    assert left == StreamEncoderThread(m, entered.(cancel := true), smooth).(thread := Idle);
    SafeToEnterExactly(m, left, a);
  }
}
