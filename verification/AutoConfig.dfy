/** The auto-config wizard's test page: a machine of stages, each run on a thread of its own. */
module AutoConfig {
  import opened Ratios
  import opened ResolutionSearch
  import opened Wrappers

  datatype Encoder = X264 | NVENC | QSV | AMD | Stream

  datatype Quality = SameAsStream | High

  datatype Stage = Starting | BandwidthTest | StreamEncoder | RecordingEncoder | Finished

  datatype Available = Available(hardware: bool, nvenc: bool, qsv: bool, vce: bool)

  // ---------------------------------------------------------------- the stages

  /** The stage thread: none to join, running a stage, or done and not yet joined. */
  datatype Thread = Idle | Running(stage: Stage) | Ended

  /** A search that has been made: on hardware estimates alone or by encoding in software, and the
      bit rate it was made for. */
  datatype Search = Hardware(bitrate: int) | Software(bitrate: int, trials: nat -> Trial)

  /** The wizard and its test page; posted counts the next-stage events under way, and search
      is the search the current run made last. */
  datatype State = State(
    settings: Settings,
    available: Available,
    stage: Stage,
    softwareTested: bool,
    cancel: bool,
    thread: Thread,
    posted: nat,
    ideal: Result,
    idealBitrate: int,
    streamingEncoder: Encoder,
    recordingEncoder: Encoder,
    recordingQuality: Quality,
    search: Option<Search>)

  function Preferred(a: Available): Encoder {
    if a.nvenc then NVENC else if a.qsv then QSV else AMD
  }

  function HardwareSearched(m: Machine, s: State): State {
    var results := HardwareResults(m, s.settings, s.idealBitrate);
    HardwareSearchFinds(m, s.settings, s.idealBitrate);
    s.(ideal := Chosen(s.settings, results), search := Some(Hardware(s.idealBitrate)))
  }

  /** The upper bit rate in steps of fifty, and somewhat more for hardware encoders. */
  function UpperBitrate(m: Machine, c: Result, encoder: Encoder): int {
    var upper := (m.upperBitrate(c) / 50.0).Floor * 50;
    if encoder.X264? then upper else Truncated(upper as real * 114.0 / 100.0)
  }

  function SoftwareSearched(m: Machine, s: State, trials: nat -> Trial): State
    requires SoftwareWorks(m, s.settings, s.idealBitrate, trials)
  {
    var results := SoftwareResults(m, s.settings, s.idealBitrate, trials);
    SoftwareSearchFinds(m, s.settings, s.idealBitrate, trials);
    var ideal := Chosen(s.settings, results);
    var upper := UpperBitrate(m, ideal, s.streamingEncoder);
    s.(ideal := ideal, search := Some(Software(s.idealBitrate, trials)), softwareTested := true,
       idealBitrate := if s.idealBitrate > upper then upper else s.idealBitrate)
  }

  /** The end of a stage thread, with or without the next-stage event. */
  function Done(s: State): State {
    s.(thread := Ended, posted := s.posted + 1)
  }

  function Failed(s: State): State {
    s.(thread := Ended)
  }

  ghost function StreamEncoderThread(m: Machine, s: State, trials: nat -> Trial): State {
    var wantsHardware := s.settings.preferHardware && s.available.hardware;
    if !s.softwareTested && !wantsHardware && !SoftwareWorks(m, s.settings, s.idealBitrate, trials) then Failed(s)
    else
      var t := if s.softwareTested then s
               else if wantsHardware then HardwareSearched(m, s)
               else SoftwareSearched(m, s, trials);
      Done(t.(streamingEncoder := if t.softwareTested then X264 else Preferred(s.available)))
  }

  function RecordingChoice(s: State): State {
    var encoder := if s.available.hardware then Preferred(s.available) else X264;
    if !encoder.NVENC? && !s.settings.recordingOnly then
      s.(recordingEncoder := Encoder.Stream, recordingQuality := SameAsStream)
    else s.(recordingEncoder := encoder, recordingQuality := High)
  }

  ghost function RecordingEncoderThread(m: Machine, s: State, trials: nat -> Trial): State {
    var needsSoftware := !s.available.hardware && !s.softwareTested;
    if needsSoftware && !SoftwareWorks(m, s.settings, s.idealBitrate, trials) then Failed(s)
    else
      var t := if needsSoftware then SoftwareSearched(m, s, trials) else s;
      var u := if s.settings.recordingOnly && s.available.hardware then HardwareSearched(m, t) else t;
      Done(RecordingChoice(u))
  }

  function BandwidthThread(s: State, measured: Option<int>): State {
    if measured.None? then Failed(s) else Done(s.(idealBitrate := measured.value))
  }

  function Started(s: State, stage: Stage): State {
    s.(stage := stage, thread := Running(stage))
  }

  /** The stages that need no test are passed over. */
  function Advanced(s: State): State {
    var from := if !s.stage.Starting? then s.stage
                else if s.settings.recordingOnly then StreamEncoder
                else if !s.settings.bandwidthTest then BandwidthTest
                else Starting;
    match from
    case Starting => Started(s, BandwidthTest)
    case BandwidthTest => Started(s, StreamEncoder)
    case StreamEncoder => Started(s, RecordingEncoder)
    case _ => s.(stage := Finished)
  }

  ghost function Joined(m: Machine, s: State, trials: nat -> Trial, measured: Option<int>): State {
    match s.thread
    case Running(BandwidthTest) => BandwidthThread(s, measured)
    case Running(StreamEncoder) => StreamEncoderThread(m, s, trials)
    case Running(RecordingEncoder) => RecordingEncoderThread(m, s, trials)
    case _ => s
  }

  /** The next-stage slot waits for the stage thread and goes on unless the page was left. */
  ghost function SlotRun(m: Machine, s: State, trials: nat -> Trial, measured: Option<int>): State {
    var t := Joined(m, s, trials, measured).(thread := Idle);
    if t.cancel then t else Advanced(t)
  }

  /** Entering the page with new settings, a stage thread running to its end, the next-stage event
      arriving, and leaving the page.  The trials and the measured bit rate are those of the thread
      that the action waits for. */
  datatype Action =
    | Enter(settings: Settings, bitrate: int, trials: nat -> Trial, measured: Option<int>)
    | ThreadEnds(trials: nat -> Trial, measured: Option<int>)
    | NextStage(trials: nat -> Trial, measured: Option<int>)
    | Leave(trials: nat -> Trial, measured: Option<int>)

  ghost function Next(m: Machine, s: State, a: Action): State {
    match a
    case Enter(settings, bitrate, trials, measured) => SlotRun(m, Reset(s, settings, bitrate), trials, measured)
    case ThreadEnds(trials, measured) => Joined(m, s, trials, measured)
    case NextStage(trials, measured) =>
      if s.posted == 0 then s else SlotRun(m, s.(posted := s.posted - 1), trials, measured)
    case Leave(trials, measured) =>
      if s.thread.Idle? then s else Joined(m, s.(cancel := true), trials, measured).(thread := Idle)
  }

  /** The pages before have set the settings, and the bit rate if there is to be a stream. */
  function Reset(s: State, settings: Settings, bitrate: int): State {
    s.(settings := settings, idealBitrate := if settings.recordingOnly then s.idealBitrate else bitrate,
       stage := Starting, softwareTested := false, cancel := false, search := None)
  }

  ghost function Run(m: Machine, s: State, actions: seq<Action>): State {
    if actions == [] then s else Next(m, Run(m, s, actions[..|actions| - 1]), actions[|actions| - 1])
  }

  const NVENC_ID := "ffmpeg_nvenc"
  const QSV_ID := "obs_qsv11"
  const AMD_ID := "amd_amf_h264"

  /** What is available once the encoders have been listed. */
  function Detected(a: Available, ids: seq<string>): Available {
    Available(a.hardware || NVENC_ID in ids || QSV_ID in ids || AMD_ID in ids,
              a.nvenc || NVENC_ID in ids, a.qsv || QSV_ID in ids, a.vce || AMD_ID in ids)
  }

  function Initial(settings: Settings, bitrate: int): State {
    State(settings, Available(false, false, false, false), Starting, false, false, Idle, 0,
          Result(1280, 720, 60, 1), bitrate, X264, Encoder.Stream, SameAsStream, None)
  }

  function Opened(settings: Settings, bitrate: int, ids: seq<string>): State {
    var s := Initial(settings, bitrate);
    s.(available := Detected(s.available, ids))
  }

  // ---------------------------------------------------------------- the test page

  class AutoConfigTestPage {
    const machine: Machine
    var settings: Settings
    var available: Available
    var stage: Stage
    var softwareTested: bool
    var cancel: bool
    var thread: Thread
    var posted: nat
    var ideal: Result
    var idealBitrate: int
    var streamingEncoder: Encoder
    var recordingEncoder: Encoder
    var recordingQuality: Quality
    var search: Option<Search>

    function View(): State
      reads this
    {
      State(settings, available, stage, softwareTested, cancel, thread, posted, ideal, idealBitrate,
            streamingEncoder, recordingEncoder, recordingQuality, search)
    }

    constructor (machine: Machine, settings: Settings, bitrate: int)
      ensures View() == Initial(settings, bitrate) && this.machine == machine
    {
      this.machine, this.settings := machine, settings;
      available := Available(false, false, false, false);
      stage, softwareTested, cancel, thread, posted := Starting, false, false, Idle, 0;
      ideal, idealBitrate := Result(1280, 720, 60, 1), bitrate;
      streamingEncoder, recordingEncoder, recordingQuality := X264, Encoder.Stream, SameAsStream;
      search := None;
    }

    /** Looks for the hardware encoders among the encoders there are. */
    method TestHardwareEncoding(ids: seq<string>)
      modifies this
      ensures View() == old(View()).(available := Detected(old(available), ids))
    {
      for k := 0 to |ids|
        invariant View() == old(View()).(available := Detected(old(available), ids[..k]))
      {
        assert ids[..k + 1] == ids[..k] + [ids[k]];
        if ids[k] == NVENC_ID {
          available := available.(hardware := true, nvenc := true);
        } else if ids[k] == QSV_ID {
          available := available.(hardware := true, qsv := true);
        } else if ids[k] == AMD_ID {
          available := available.(hardware := true, vce := true);
        }
      }
      assert ids[..|ids|] == ids;
    }

    method FindIdealHardwareResolution()
      modifies this
      ensures View() == HardwareSearched(machine, old(View()))
    {
      var results := FindHardware(machine, settings, idealBitrate);
      HardwareSearchFinds(machine, settings, idealBitrate);
      search := Some(Hardware(idealBitrate));
      TakeIdeal(results);
    }

    method TakeIdeal(found: seq<Result>)
      requires found != []
      modifies this
      ensures View() == old(View()).(ideal := Chosen(settings, found))
    {
      var results := found;
      if settings.specificFPSNum == 0 && settings.preferHighFPS && |results| > 1 {
        var result1, result2 := results[0], results[1];
        if result1.fpsNum == 30 && result2.fpsNum == 60 {
          var nextArea := result2.cx * result2.cy;
          if nextArea >= MIN_AREA {
            results := results[1..];
          }
        }
      }
      ideal := results[0];
    }

    method TestSoftwareEncoding(trials: nat -> Trial) returns (ok: bool)
      modifies this
      ensures ok <==> SoftwareWorks(machine, old(settings), old(idealBitrate), trials)
      ensures View() == if ok then SoftwareSearched(machine, old(View()), trials) else old(View())
    {
      var results;
      ok, results := FindSoftware(machine, settings, idealBitrate, trials);
      if !ok {
        return;
      }
      SoftwareSearchFinds(machine, settings, idealBitrate, trials);
      search := Some(Software(idealBitrate, trials));
      TakeIdeal(results);
      var upperBitrate := (machine.upperBitrate(ideal) / 50.0).Floor * 50;
      if !streamingEncoder.X264? {
        upperBitrate := Truncated(upperBitrate as real * 114.0 / 100.0);
      }
      if idealBitrate > upperBitrate {
        idealBitrate := upperBitrate;
      }
      softwareTested := true;
    }

    method TestStreamEncoderThread(trials: nat -> Trial)
      modifies this
      ensures View() == StreamEncoderThread(machine, old(View()), trials)
    {
      thread := Ended;
      if !softwareTested {
        if !settings.preferHardware || !available.hardware {
          var ok := TestSoftwareEncoding(trials);
          if !ok {
            return;
          }
        }
      }
      if settings.preferHardware && !softwareTested && available.hardware {
        FindIdealHardwareResolution();
      }
      if !softwareTested {
        if available.nvenc {
          streamingEncoder := NVENC;
        } else if available.qsv {
          streamingEncoder := QSV;
        } else {
          streamingEncoder := AMD;
        }
      } else {
        streamingEncoder := X264;
      }
      posted := posted + 1;
    }

    method TestRecordingEncoderThread(trials: nat -> Trial)
      modifies this
      ensures View() == RecordingEncoderThread(machine, old(View()), trials)
    {
      thread := Ended;
      if !available.hardware && !softwareTested {
        var ok := TestSoftwareEncoding(trials);
        if !ok {
          return;
        }
      }
      if settings.recordingOnly && available.hardware {
        FindIdealHardwareResolution();
      }
      ChooseRecordingEncoder();
      posted := posted + 1;
    }

    method ChooseRecordingEncoder()
      modifies this
      ensures View() == RecordingChoice(old(View()))
    {
      recordingQuality := High;
      if available.hardware {
        if available.nvenc {
          recordingEncoder := NVENC;
        } else if available.qsv {
          recordingEncoder := QSV;
        } else {
          recordingEncoder := AMD;
        }
      } else {
        recordingEncoder := X264;
      }
      if !recordingEncoder.NVENC? {
        if !settings.recordingOnly {
          recordingEncoder := Encoder.Stream;
          recordingQuality := SameAsStream;
        }
      }
    }

    method JoinThread(trials: nat -> Trial, measured: Option<int>)
      modifies this
      ensures View() == Joined(machine, old(View()), trials, measured).(thread := Idle)
    {
      if thread == Running(BandwidthTest) {
        if measured.Some? {
          idealBitrate := measured.value;
          posted := posted + 1;
        }
      } else if thread == Running(StreamEncoder) {
        TestStreamEncoderThread(trials);
      } else if thread == Running(RecordingEncoder) {
        TestRecordingEncoderThread(trials);
      }
      thread := Idle;
    }

    method NextStage(trials: nat -> Trial, measured: Option<int>)
      modifies this
      ensures View() == SlotRun(machine, old(View()), trials, measured)
    {
      JoinThread(trials, measured);
      if cancel {
        return;
      }
      if stage == Starting {
        if settings.recordingOnly {
          stage := StreamEncoder;
        } else if !settings.bandwidthTest {
          stage := BandwidthTest;
        }
      }
      if stage == Starting {
        stage := BandwidthTest;
        thread := Running(BandwidthTest);
      } else if stage == BandwidthTest {
        stage := StreamEncoder;
        thread := Running(StreamEncoder);
      } else if stage == StreamEncoder {
        stage := RecordingEncoder;
        thread := Running(RecordingEncoder);
      } else {
        stage := Finished;
      }
    }

    /** The event loop hands a next-stage event to its slot. */
    method DeliverNextStage(trials: nat -> Trial, measured: Option<int>)
      requires posted > 0
      modifies this
      ensures View() == SlotRun(machine, old(View()).(posted := old(posted) - 1), trials, measured)
    {
      posted := posted - 1;
      assert View() == old(View()).(posted := old(posted) - 1);
      NextStage(trials, measured);
    }

    method InitializePage(settings: Settings, bitrate: int, trials: nat -> Trial, measured: Option<int>)
      modifies this
      ensures View() == SlotRun(machine, Reset(old(View()), settings, bitrate), trials, measured)
    {
      this.settings := settings;
      if !settings.recordingOnly {
        idealBitrate := bitrate;
      }
      stage, softwareTested, cancel, search := Starting, false, false, None;
      assert View() == Reset(old(View()), settings, bitrate);
      NextStage(trials, measured);
    }

    method CleanupPage(trials: nat -> Trial, measured: Option<int>)
      modifies this
      ensures View() == Next(machine, old(View()), Leave(trials, measured))
    {
      if !thread.Idle? {
        cancel := true;
        JoinThread(trials, measured);
      }
    }
  }
}
