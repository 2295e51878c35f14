/** The auto-config wizard's search for a resolution and frame rate the computer can encode. */
module ResolutionSearch {
  import opened Ratios

  datatype Result = Result(cx: int, cy: int, fpsNum: int, fpsDen: int)

  /** A step of the search: how far to scale down, at which frame rate, and whether to take it in
      any case. */
  datatype Rung = Rung(div: real, fpsNum: int, fpsDen: int, force: bool)

  /** What the user chose on the pages before; the base size is the one the search starts from. */
  datatype Settings = Settings(
    recordingOnly: bool,
    bandwidthTest: bool,
    preferHighFPS: bool,
    preferHardware: bool,
    specificFPSNum: int,
    specificFPSDen: int,
    baseCX: nat,
    baseCY: nat)

  /** The computer, and how the wizard estimates bit rates. */
  datatype Machine = Machine(
    pcores: int,
    lcores: int,
    minBitrate: Result -> real,
    upperBitrate: Result -> real)

  /** What becomes of encoding at one rung: the output does not start, or it runs and skips frames;
      the page may be left before it starts or while it runs. */
  datatype Trial = Cancelled | Refused | Ran(skipped: int, cancelled: bool)

  // ---------------------------------------------------------------- the ladder

  function Ladder(s: Settings): (r: seq<Rung>)
    ensures |r| > 0 && r[|r| - 1].force
    ensures forall i :: 0 <= i < |r| ==> r[i].div >= 1.0 && r[i].fpsDen != 0
    ensures forall i :: 0 <= i < |r| - 1 ==> !r[i].force && r[i].div <= r[i + 1].div
  {
    if s.specificFPSNum != 0 && s.specificFPSDen != 0 then
      [Rung(1.0, s.specificFPSNum, s.specificFPSDen, false),
       Rung(1.5, s.specificFPSNum, s.specificFPSDen, false),
       Rung(1.0 / 0.6, s.specificFPSNum, s.specificFPSDen, false),
       Rung(2.0, s.specificFPSNum, s.specificFPSDen, false),
       Rung(2.25, s.specificFPSNum, s.specificFPSDen, true)]
    else
      [Rung(1.0, 60, 1, false), Rung(1.0, 30, 1, false),
       Rung(1.5, 60, 1, false), Rung(1.5, 30, 1, false),
       Rung(1.0 / 0.6, 60, 1, false), Rung(1.0 / 0.6, 30, 1, false),
       Rung(2.0, 60, 1, false), Rung(2.0, 30, 1, false),
       Rung(2.25, 60, 1, false), Rung(2.25, 30, 1, true)]
  }

  function Candidate(s: Settings, r: Rung): Result
    requires r.div >= 1.0
  {
    Result(Truncated(s.baseCX as real / r.div), Truncated(s.baseCY as real / r.div), r.fpsNum, r.fpsDen)
  }

  function Candidates(s: Settings): (r: seq<Result>)
    ensures |r| == |Ladder(s)|
  {
    seq(|Ladder(s)|, i requires 0 <= i < |Ladder(s)| => Candidate(s, Ladder(s)[i]))
  }

  /** Pixels a second. */
  function Rate(c: Result): real
    requires c.fpsDen != 0
  {
    c.cx as real * c.cy as real * (c.fpsNum as real / c.fpsDen as real)
  }

  function HardwareCap(m: Machine): int {
    if m.pcores >= 4 then 1920 * 1200 * 60 + 1000 else 1280 * 720 * 30 + 1000
  }

  function SoftwareCap(m: Machine): int {
    if m.lcores > 8 || m.pcores > 4 then 1920 * 1200 * 60 + 1000
    else if m.lcores > 4 && m.pcores == 4 then 1920 * 1080 * 60 + 1000
    else if m.pcores == 4 then 1920 * 1080 * 30 + 1000
    else 960 * 540 * 30 + 1000
  }

  predicate HardwareTakes(m: Machine, s: Settings, bitrate: int, r: Rung)
    requires r.div >= 1.0 && r.fpsDen != 0
  {
    var c := Candidate(s, r);
    r.force || (Rate(c) <= HardwareCap(m) as real &&
                (s.recordingOnly || bitrate >= Truncated(m.minBitrate(c) * 114.0 / 100.0)))
  }

  /** Encoding in software is tried only within the estimates. */
  predicate SoftwareTries(m: Machine, s: Settings, bitrate: int, r: Rung)
    requires r.div >= 1.0 && r.fpsDen != 0
  {
    var c := Candidate(s, r);
    r.force || ((s.recordingOnly || Truncated(m.minBitrate(c)) <= bitrate) && Rate(c) <= SoftwareCap(m) as real)
  }

  predicate Smooth(r: Rung, t: Trial) {
    t.Ran? && (r.force || t.skipped <= 10)
  }

  function HardwareFlags(m: Machine, s: Settings, bitrate: int): (r: seq<bool>)
    ensures |r| == |Ladder(s)|
  {
    seq(|Ladder(s)|, i requires 0 <= i < |Ladder(s)| => HardwareTakes(m, s, bitrate, Ladder(s)[i]))
  }

  function SoftwareFlags(m: Machine, s: Settings, bitrate: int, trials: nat -> Trial): (r: seq<bool>)
    ensures |r| == |Ladder(s)|
  {
    seq(|Ladder(s)|, i requires 0 <= i < |Ladder(s)| =>
      SoftwareTries(m, s, bitrate, Ladder(s)[i]) && Smooth(Ladder(s)[i], trials(i)))
  }

  // ---------------------------------------------------------------- the search

  /** The candidates accepted among the first n, in order. */
  function Accepted<T>(list: seq<T>, flags: seq<bool>, n: nat): seq<T>
    requires n <= |list| == |flags|
  {
    if n == 0 then [] else Accepted(list, flags, n - 1) + if flags[n - 1] then [list[n - 1]] else []
  }

  /** The first three of them. */
  function FirstThree<T>(list: seq<T>, flags: seq<bool>, n: nat): (r: seq<T>)
    requires n <= |list| == |flags|
    ensures |r| <= 3
  {
    var accepted := Accepted(list, flags, n);
    if |accepted| <= 3 then accepted else accepted[..3]
  }

  /** Going on to the next rung, as both searches do it. */
  lemma NextRung<T>(list: seq<T>, flags: seq<bool>, n: nat)
    requires n < |list| == |flags|
    ensures FirstThree(list, flags, n + 1) ==
            if |FirstThree(list, flags, n)| < 3 && flags[n] then FirstThree(list, flags, n) + [list[n]]
            else FirstThree(list, flags, n)
  {
  }

  lemma {:induction false} AcceptedFrom<T>(list: seq<T>, flags: seq<bool>, n: nat, x: T)
    requires n <= |list| == |flags| && x in Accepted(list, flags, n)
    ensures exists k :: 0 <= k < n && flags[k] && list[k] == x
  {
    if x in Accepted(list, flags, n - 1) {
      AcceptedFrom(list, flags, n - 1, x);
    } else {
      assert flags[n - 1] && list[n - 1] == x;
    }
  }

  /** The first result is the first accepted candidate. */
  lemma {:induction false} FirstAccepted<T>(list: seq<T>, flags: seq<bool>, n: nat, k: nat)
    requires k < n <= |list| == |flags| && flags[k]
    ensures Accepted(list, flags, n) != []
    ensures exists j :: 0 <= j <= k && flags[j] && Accepted(list, flags, n)[0] == list[j]
  {
    if k < n - 1 {
      FirstAccepted(list, flags, n - 1, k);
    } else if exists i :: 0 <= i < k && flags[i] {
      var i :| 0 <= i < k && flags[i];
      FirstAccepted(list, flags, n - 1, i);
    } else {
      NoneAccepted(list, flags, n - 1);
      assert Accepted(list, flags, n) == [list[k]];
    }
  }

  lemma {:induction false} NoneAccepted<T>(list: seq<T>, flags: seq<bool>, n: nat)
    requires n <= |list| == |flags| && forall i :: 0 <= i < n ==> !flags[i]
    ensures Accepted(list, flags, n) == []
  {
    if n > 0 {
      NoneAccepted(list, flags, n - 1);
    }
  }

  const MIN_AREA := 960 * 540 + 1000

  /** The first result, unless the user prefers a high frame rate, the first runs at 30 and the
      second, not too small, at 60. */
  function Chosen(s: Settings, results: seq<Result>): Result
    requires results != []
  {
    if s.specificFPSNum == 0 && s.preferHighFPS && |results| > 1 &&
       results[0].fpsNum == 30 && results[1].fpsNum == 60 && results[1].cx * results[1].cy >= MIN_AREA
    then results[1]
    else results[0]
  }

  function HardwareResults(m: Machine, s: Settings, bitrate: int): seq<Result> {
    FirstThree(Candidates(s), HardwareFlags(m, s, bitrate), |Ladder(s)|)
  }

  function SoftwareResults(m: Machine, s: Settings, bitrate: int, trials: nat -> Trial): seq<Result> {
    FirstThree(Candidates(s), SoftwareFlags(m, s, bitrate, trials), |Ladder(s)|)
  }

  /** A rung that is really tried, and cannot be. */
  predicate Fails(m: Machine, s: Settings, bitrate: int, trials: nat -> Trial, k: nat)
    requires k < |Ladder(s)|
  {
    && |FirstThree(Candidates(s), SoftwareFlags(m, s, bitrate, trials), k)| < 3
    && SoftwareTries(m, s, bitrate, Ladder(s)[k])
    && (!trials(k).Ran? || trials(k).cancelled)
  }

  ghost predicate SoftwareWorks(m: Machine, s: Settings, bitrate: int, trials: nat -> Trial) {
    forall k :: 0 <= k < |Ladder(s)| ==> !Fails(m, s, bitrate, trials, k)
  }

  method FindHardware(m: Machine, s: Settings, bitrate: int) returns (results: seq<Result>)
    ensures results == HardwareResults(m, s, bitrate)
  {
    var ladder := Ladder(s);
    var maxDataRate := if m.pcores >= 4 then 1920 * 1200 * 60 + 1000 else 1280 * 720 * 30 + 1000;
    ghost var flags := HardwareFlags(m, s, bitrate);
    results := [];
    for k := 0 to |ladder|
      invariant results == FirstThree(Candidates(s), flags, k)
    {
      NextRung(Candidates(s), flags, k);
      if |results| < 3 {
        var r := ladder[k];
        var c := Result(Truncated(s.baseCX as real / r.div), Truncated(s.baseCY as real / r.div), r.fpsNum, r.fpsDen);
        if r.force || Rate(c) <= maxDataRate as real {
          var minBitrate := Truncated(m.minBitrate(c) * 114.0 / 100.0);
          if r.force || s.recordingOnly || bitrate >= minBitrate {
            results := results + [c];
          }
        }
      }
    }
  }

  method FindSoftware(m: Machine, s: Settings, bitrate: int, trials: nat -> Trial) returns (ok: bool, results: seq<Result>)
    ensures ok <==> SoftwareWorks(m, s, bitrate, trials)
    ensures ok ==> results == SoftwareResults(m, s, bitrate, trials)
  {
    var ladder := Ladder(s);
    var maxDataRate := SoftwareCap(m);
    ghost var flags := SoftwareFlags(m, s, bitrate, trials);
    results := [];
    for k := 0 to |ladder|
      invariant results == FirstThree(Candidates(s), flags, k)
      invariant forall j :: 0 <= j < k ==> !Fails(m, s, bitrate, trials, j)
    {
      NextRung(Candidates(s), flags, k);
      var r := ladder[k];
      var c := Candidate(s, r);
      assert flags[k] <==> SoftwareTries(m, s, bitrate, r) && Smooth(r, trials(k));
      if |results| >= 3 {
        continue;
      }
      if !r.force && !s.recordingOnly && Truncated(m.minBitrate(c)) > bitrate {
        continue;
      }
      if !r.force && Rate(c) > maxDataRate as real {
        continue;
      }
      if trials(k).Cancelled? || trials(k).Refused? {
        assert Fails(m, s, bitrate, trials, k);
        return false, results;
      }
      if r.force || trials(k).skipped <= 10 {
        results := results + [c];
      }
      if trials(k).cancelled {
        assert Fails(m, s, bitrate, trials, k);
        return false, results;
      }
    }
    ok := true;
  }

  // ---------------------------------------------------------------- what the search finds

  lemma CandidatesShrink(s: Settings, i: nat, j: nat)
    requires i <= j < |Ladder(s)|
    ensures Candidates(s)[i].cx >= Candidates(s)[j].cx >= 0
    ensures Candidates(s)[i].cy >= Candidates(s)[j].cy >= 0
  {
    DivsGrow(s, i, j);
    Shrunk(s.baseCX, Ladder(s)[i].div, Ladder(s)[j].div);
    Shrunk(s.baseCY, Ladder(s)[i].div, Ladder(s)[j].div);
  }

  lemma {:induction false} DivsGrow(s: Settings, i: nat, j: nat)
    requires i <= j < |Ladder(s)|
    ensures Ladder(s)[i].div <= Ladder(s)[j].div
    decreases j
  {
    if i < j {
      DivsGrow(s, i, j - 1);
    }
  }

  lemma Shrunk(base: nat, d: real, e: real)
    requires 1.0 <= d <= e
    ensures Truncated(base as real / d) >= Truncated(base as real / e) >= 0
  {
    var b := base as real;
    var q := b / e;
    assert q * e == b;
    QuotientBounds(b, e, 0.0, b);
    if q > 0.0 {
      MulOrder(d, e, q);
    }
    QuotientBounds(b, d, q, q);
  }

  /** Everything a search may return: one to three accepted candidates, the first of them the
      largest accepted one. */
  ghost predicate SearchResult(s: Settings, flags: seq<bool>, results: seq<Result>)
    requires |flags| == |Ladder(s)|
  {
    && 1 <= |results| <= 3
    && (forall i :: 0 <= i < |results| ==> FromRung(s, flags, results[i]))
    && (forall k :: 0 <= k < |flags| && flags[k] ==>
          results[0].cx >= Candidates(s)[k].cx && results[0].cy >= Candidates(s)[k].cy)
  }

  ghost predicate FromRung(s: Settings, flags: seq<bool>, c: Result)
    requires |flags| == |Ladder(s)|
  {
    exists k :: 0 <= k < |flags| && flags[k] && Candidates(s)[k] == c
  }

  lemma SearchFinds(s: Settings, flags: seq<bool>)
    requires |flags| == |Ladder(s)| && FirstThree(Candidates(s), flags, |flags|) != []
    ensures SearchResult(s, flags, FirstThree(Candidates(s), flags, |flags|))
  {
    var n, list := |flags|, Candidates(s);
    var results := FirstThree(list, flags, n);
    forall i | 0 <= i < |results|
      ensures FromRung(s, flags, results[i])
    {
      AcceptedFrom(list, flags, n, results[i]);
    }
    forall k | 0 <= k < n && flags[k]
      ensures results[0].cx >= list[k].cx && results[0].cy >= list[k].cy
    {
      FirstAccepted(list, flags, n, k);
      var j :| 0 <= j <= k && flags[j] && Accepted(list, flags, n)[0] == list[j];
      CandidatesShrink(s, j, k);
    }
  }

  /** The candidate picked keeps within the data rate, or is the forced last one. */
  ghost predicate WithinCap(s: Settings, cap: int, c: Result) {
    || (c.fpsDen != 0 && Rate(c) <= cap as real)
    || c == Candidates(s)[|Ladder(s)| - 1]
  }

  /** The hardware search returns the first three candidates accepted in ladder order, at least one,
      and what is picked of them is within the data rate or the forced last candidate. */
  lemma HardwareSearchFinds(m: Machine, s: Settings, bitrate: int)
    ensures SearchResult(s, HardwareFlags(m, s, bitrate), HardwareResults(m, s, bitrate))
    ensures WithinCap(s, HardwareCap(m), Chosen(s, HardwareResults(m, s, bitrate)))
  {
    var flags := HardwareFlags(m, s, bitrate);
    FirstAccepted(Candidates(s), flags, |flags|, |flags| - 1);
    SearchFinds(s, flags);
    var c := Chosen(s, HardwareResults(m, s, bitrate));
    assert FromRung(s, flags, c);
    var k :| 0 <= k < |flags| && flags[k] && Candidates(s)[k] == c;
    assert HardwareTakes(m, s, bitrate, Ladder(s)[k]);
  }

  /** So does the software search, if no candidate that it tries fails. */
  lemma SoftwareSearchFinds(m: Machine, s: Settings, bitrate: int, trials: nat -> Trial)
    requires SoftwareWorks(m, s, bitrate, trials)
    ensures SearchResult(s, SoftwareFlags(m, s, bitrate, trials), SoftwareResults(m, s, bitrate, trials))
    ensures WithinCap(s, SoftwareCap(m), Chosen(s, SoftwareResults(m, s, bitrate, trials)))
  {
    var flags := SoftwareFlags(m, s, bitrate, trials);
    LastIsTried(m, s, bitrate, trials);
    SearchFinds(s, flags);
    var c := Chosen(s, SoftwareResults(m, s, bitrate, trials));
    assert FromRung(s, flags, c);
    var k :| 0 <= k < |flags| && flags[k] && Candidates(s)[k] == c;
    assert SoftwareTries(m, s, bitrate, Ladder(s)[k]);
  }

  /** The last rung is tried unless there are three results already. */
  lemma LastIsTried(m: Machine, s: Settings, bitrate: int, trials: nat -> Trial)
    requires SoftwareWorks(m, s, bitrate, trials)
    ensures SoftwareResults(m, s, bitrate, trials) != []
  {
    var flags := SoftwareFlags(m, s, bitrate, trials);
    var last := |Ladder(s)| - 1;
    NextRung(Candidates(s), flags, last);
    assert !Fails(m, s, bitrate, trials, last);
  }

  // ---------------------------------------------------------------- the search in numbers

  /** The candidates from first to last: at each size the higher rate comes first, and the sizes are
      the base size divided by 1, 1.5, 1/0.6, 2 and 2.25. */
  lemma CandidatesInOrder(s: Settings)
    ensures s.specificFPSNum != 0 && s.specificFPSDen != 0 ==>
              var num, den := s.specificFPSNum, s.specificFPSDen;
              Candidates(s) == [Result(s.baseCX, s.baseCY, num, den),
                                Result(Part(s.baseCX, 1.5), Part(s.baseCY, 1.5), num, den),
                                Result(Part(s.baseCX, 1.0 / 0.6), Part(s.baseCY, 1.0 / 0.6), num, den),
                                Result(Part(s.baseCX, 2.0), Part(s.baseCY, 2.0), num, den),
                                Result(Part(s.baseCX, 2.25), Part(s.baseCY, 2.25), num, den)]
    ensures s.specificFPSNum == 0 || s.specificFPSDen == 0 ==>
              Candidates(s) == [Result(s.baseCX, s.baseCY, 60, 1), Result(s.baseCX, s.baseCY, 30, 1),
                                Result(Part(s.baseCX, 1.5), Part(s.baseCY, 1.5), 60, 1),
                                Result(Part(s.baseCX, 1.5), Part(s.baseCY, 1.5), 30, 1),
                                Result(Part(s.baseCX, 1.0 / 0.6), Part(s.baseCY, 1.0 / 0.6), 60, 1),
                                Result(Part(s.baseCX, 1.0 / 0.6), Part(s.baseCY, 1.0 / 0.6), 30, 1),
                                Result(Part(s.baseCX, 2.0), Part(s.baseCY, 2.0), 60, 1),
                                Result(Part(s.baseCX, 2.0), Part(s.baseCY, 2.0), 30, 1),
                                Result(Part(s.baseCX, 2.25), Part(s.baseCY, 2.25), 60, 1),
                                Result(Part(s.baseCX, 2.25), Part(s.baseCY, 2.25), 30, 1)]
  {
    WholeSize(s.baseCX);
    WholeSize(s.baseCY);
  }

  /** The whole part of a quotient of sizes. */
  function Part(base: nat, div: real): int
    requires div > 0.0
  {
    (base as real / div).Floor
  }

  lemma WholeSize(base: nat)
    ensures Truncated(base as real / 1.0) == base
  {
  }

  /** Pixels a second that a computer is trusted with, by its cores. */
  lemma CapsInNumbers(m: Machine)
    ensures HardwareCap(m) == if m.pcores >= 4 then 138_241_000 else 27_649_000
    ensures SoftwareCap(m) ==
            if m.pcores > 4 || m.lcores > 8 then 138_241_000
            else if m.pcores == 4 then (if m.lcores > 4 then 124_417_000 else 62_209_000)
            else 15_553_000
  {
  }

  lemma RungAt(s: Settings, k: nat)
    requires k < |Ladder(s)|
    ensures Ladder(s)[k].div >= 1.0 && Ladder(s)[k].fpsDen != 0
    ensures Candidates(s)[k] == Candidate(s, Ladder(s)[k]) && (Ladder(s)[k].force <==> k == |Ladder(s)| - 1)
  {
  }

  /** Within the estimates: few enough pixels a second for the cap and, unless there is no stream,
      enough bits for the least rate. */
  predicate Fits(s: Settings, c: Result, cap: int, bitrate: int, least: real) {
    && c.fpsDen != 0
    && c.cx as real * c.cy as real * (c.fpsNum as real / c.fpsDen as real) <= cap as real
    && (s.recordingOnly || Truncated(least) <= bitrate)
  }

  lemma HardwareTakesExactly(m: Machine, s: Settings, bitrate: int, r: Rung, c: Result)
    requires r.div >= 1.0 && r.fpsDen != 0 && c == Candidate(s, r)
    ensures HardwareTakes(m, s, bitrate, r) <==>
              r.force || Fits(s, c, HardwareCap(m), bitrate, m.minBitrate(c) * 114.0 / 100.0)
  {
  }

  lemma SoftwareTriesExactly(m: Machine, s: Settings, bitrate: int, r: Rung, c: Result)
    requires r.div >= 1.0 && r.fpsDen != 0 && c == Candidate(s, r)
    ensures SoftwareTries(m, s, bitrate, r) <==> r.force || Fits(s, c, SoftwareCap(m), bitrate, m.minBitrate(c))
  {
  }

  /** Which candidates are accepted on estimates: the last one always, another if it fits a bit rate
      14 percent below what there is. */
  lemma HardwareAccepts(m: Machine, s: Settings, bitrate: int, k: nat)
    requires k < |Ladder(s)|
    ensures HardwareFlags(m, s, bitrate)[k] <==>
              k == |Ladder(s)| - 1 ||
              Fits(s, Candidates(s)[k], HardwareCap(m), bitrate, m.minBitrate(Candidates(s)[k]) * 114.0 / 100.0)
  {
    RungAt(s, k);
    HardwareTakesExactly(m, s, bitrate, Ladder(s)[k], Candidates(s)[k]);
  }

  /** Which candidates are tried in software and keep up: at most ten frames may be skipped, except by
      the last one. */
  lemma SoftwareAccepts(m: Machine, s: Settings, bitrate: int, trials: nat -> Trial, k: nat)
    requires k < |Ladder(s)|
    ensures var last := |Ladder(s)| - 1;
            SoftwareFlags(m, s, bitrate, trials)[k] <==>
              && (k == last || Fits(s, Candidates(s)[k], SoftwareCap(m), bitrate, m.minBitrate(Candidates(s)[k])))
              && trials(k).Ran? && (k == last || trials(k).skipped <= 10)
  {
    RungAt(s, k);
    SoftwareTriesExactly(m, s, bitrate, Ladder(s)[k], Candidates(s)[k]);
  }

  /** How many of the first n are accepted. */
  function Taken(flags: seq<bool>, n: nat): nat
    requires n <= |flags|
  {
    if n == 0 then 0 else Taken(flags, n - 1) + if flags[n - 1] then 1 else 0
  }

  lemma {:induction false} AcceptedAre<T>(list: seq<T>, flags: seq<bool>, n: nat)
    requires n <= |list| == |flags|
    ensures |Accepted(list, flags, n)| == Taken(flags, n)
    ensures forall k :: 0 <= k < n && flags[k] ==>
              Taken(flags, k) < Taken(flags, n) && Accepted(list, flags, n)[Taken(flags, k)] == list[k]
  {
    if n > 0 {
      AcceptedAre(list, flags, n - 1);
    }
  }

  /** The results are the first three candidates accepted, in their order. */
  lemma FirstThreeAre<T>(list: seq<T>, flags: seq<bool>, n: nat)
    requires n <= |list| == |flags|
    ensures |FirstThree(list, flags, n)| == if Taken(flags, n) < 3 then Taken(flags, n) else 3
    ensures forall k :: 0 <= k < n && flags[k] && Taken(flags, k) < 3 ==>
              Taken(flags, k) < |FirstThree(list, flags, n)| && FirstThree(list, flags, n)[Taken(flags, k)] == list[k]
  {
    AcceptedAre(list, flags, n);
  }

  /** The software search fails exactly if, before there are three results, a candidate within the
      estimates cannot be tried to its end. */
  lemma SoftwareFailsExactly(m: Machine, s: Settings, bitrate: int, trials: nat -> Trial)
    ensures !SoftwareWorks(m, s, bitrate, trials) <==>
              exists k :: 0 <= k < |Ladder(s)| && Taken(SoftwareFlags(m, s, bitrate, trials), k) < 3 &&
                          SoftwareTries(m, s, bitrate, Ladder(s)[k]) &&
                          (trials(k) == Cancelled || trials(k) == Refused || (trials(k).Ran? && trials(k).cancelled))
  {
    forall k | 0 <= k < |Ladder(s)|
      ensures Fails(m, s, bitrate, trials, k) <==>
                Taken(SoftwareFlags(m, s, bitrate, trials), k) < 3 && SoftwareTries(m, s, bitrate, Ladder(s)[k]) &&
                (trials(k) == Cancelled || trials(k) == Refused || (trials(k).Ran? && trials(k).cancelled))
    {
      FirstThreeAre(Candidates(s), SoftwareFlags(m, s, bitrate, trials), k);
    }
  }

  /** The second result is picked exactly if high rates are preferred, none is prescribed, the first
      result has the rate 30 and the second, not below 519400 pixels, 60. */
  lemma SecondIsPicked(s: Settings, results: seq<Result>)
    requires results != []
    ensures Chosen(s, results) ==
            if s.preferHighFPS && s.specificFPSNum == 0 && |results| >= 2 && results[0].fpsNum == 30 &&
               results[1].fpsNum == 60 && results[1].cx * results[1].cy >= 519_400
            then results[1] else results[0]
  {
  }

  /** A computer that takes every candidate gets the full size at 60 frames a second, or at the
      prescribed rate. */
  lemma AllAccepted(m: Machine, s: Settings, bitrate: int)
    requires forall k :: 0 <= k < |Ladder(s)| ==> HardwareFlags(m, s, bitrate)[k]
    ensures HardwareResults(m, s, bitrate) == Candidates(s)[..3]
    ensures Chosen(s, HardwareResults(m, s, bitrate)) ==
            if s.specificFPSNum != 0 && s.specificFPSDen != 0
            then Result(s.baseCX, s.baseCY, s.specificFPSNum, s.specificFPSDen)
            else Result(s.baseCX, s.baseCY, 60, 1)
  {
    var flags, n := HardwareFlags(m, s, bitrate), |Ladder(s)|;
    AllTaken(flags, n);
    FirstThreeAre(Candidates(s), flags, n);
    forall k | 0 <= k < 3
      ensures HardwareResults(m, s, bitrate)[k] == Candidates(s)[k]
    {
      AllTaken(flags, k);
      assert flags[k];
    }
    CandidatesInOrder(s);
  }

  lemma {:induction false} AllTaken(flags: seq<bool>, n: nat)
    requires n <= |flags| && forall k :: 0 <= k < n ==> flags[k]
    ensures Taken(flags, n) == n
  {
    if n > 0 {
      AllTaken(flags, n - 1);
    }
  }
}
