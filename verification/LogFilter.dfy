/** The log handler's filter of repeated entries.

    A message repeats the entry that opened the current run if it comes from the same format string
    and its character sum is close.  A run shows its first 31 messages; how many were held back is
    reported when the next run opens.
 */
module LogFilter {
  import opened Sequences
  import opened Wrappers

  /** A plain char, which is signed on the platforms of the log handler. */
  type Char = c: int | -128 <= c < 128

  const MAX_REPEATED_LINES := 30
  const MAX_CHAR_VARIATION := 255 * 3
  const MAX_TEXT := 4094
  const LOG_INFO := 300

  /** A formatted message: the address of its format string and its text. */
  datatype Message = Message(format: nat, text: seq<Char>)

  datatype Line = Entry(message: Message) | Repeated(count: nat)

  function Sum(text: seq<Char>): int {
    if text == [] then 0 else Sum(text[..|text| - 1]) + text[|text| - 1]
  }

  function Abs(n: int): nat { if n < 0 then -n else n }

  predicate Repeats(leader: Message, m: Message) {
    m.format == leader.format && Abs(Sum(m.text) - Sum(leader.text)) < MAX_CHAR_VARIATION
  }

  // ---------------------------------------------------------------- the filter

  /** The handler's static variables and the log file. */
  datatype State = State(leader: Option<Message>, repCount: nat, lines: seq<Line>)

  const START := State(None, 0, [])

  function Note(repCount: nat): seq<Line> {
    if repCount > MAX_REPEATED_LINES then [Repeated(repCount - MAX_REPEATED_LINES)] else []
  }

  predicate Continues(s: State, m: Message) {
    s.leader.Some? && Repeats(s.leader.value, m)
  }

  function Logged(s: State, m: Message): State {
    if Continues(s, m)
    then State(s.leader, s.repCount + 1, s.lines + if s.repCount >= MAX_REPEATED_LINES then [] else [Entry(m)])
    else State(Some(m), 0, s.lines + Note(s.repCount) + [Entry(m)])
  }

  /** The state after a sequence of messages. */
  function After(ms: seq<Message>): State {
    if ms == [] then START else Logged(After(ms[..|ms| - 1]), ms[|ms| - 1])
  }

  class LogHandler {
    const unfiltered: bool
    const verbose: bool
    var lastFormat: Option<nat>
    var lastCharSum: int
    var repCount: nat
    var lines: seq<Line>

    ghost predicate Shows(s: State)
      reads this
    {
      && repCount == s.repCount && lines == s.lines
      && match s.leader
         case None => lastFormat == None
         case Some(m) => lastFormat == Some(m.format) && lastCharSum == Sum(m.text)
    }

    constructor (unfiltered: bool, verbose: bool)
      ensures Shows(START) && this.unfiltered == unfiltered && this.verbose == verbose
    {
      this.unfiltered, this.verbose := unfiltered, verbose;
      lastFormat, lastCharSum, repCount, lines := None, 0, 0, [];
    }

    static method SumChars(text: seq<Char>) returns (val: int)
      ensures val == Sum(text)
    {
      val := 0;
      for i := 0 to |text|
        invariant val == Sum(text[..i])
      {
        assert text[..i + 1][..i] == text[..i];
        val := val + text[i];
      }
      assert text[..|text|] == text;
    }

    method TooManyRepeatedEntries(m: Message, ghost s: State) returns (tooMany: bool)
      requires Shows(s)
      modifies this
      ensures unfiltered ==> !tooMany && Shows(s)
      ensures !unfiltered ==> Shows(Logged(s, m).(lines := lines)) && Logged(s, m).lines == lines + if tooMany then [] else [Entry(m)]
    {
      var newSum := SumChars(m.text);
      if unfiltered {
        return false;
      }
      if lastFormat == Some(m.format) {
        var diff := Abs(newSum - lastCharSum);
        if diff < MAX_CHAR_VARIATION {
          repCount := repCount + 1;
          return repCount - 1 >= MAX_REPEATED_LINES;
        }
      }
      if repCount > MAX_REPEATED_LINES {
        lines := lines + [Repeated(repCount - MAX_REPEATED_LINES)];
      }
      lastFormat := Some(m.format);
      lastCharSum := newSum;
      repCount := 0;
      return false;
    }

    method DoLog(level: int, m: Message, ghost s: State)
      requires Shows(s)
      modifies this
      ensures Shows(if level <= LOG_INFO || verbose then
                      if unfiltered then s.(lines := s.lines + [Entry(m)]) else Logged(s, m)
                    else s)
    {
      if level <= LOG_INFO || verbose {
        var tooMany := TooManyRepeatedEntries(m, s);
        if tooMany { return; }
        lines := lines + [Entry(m)];
      }
    }
  }

  /** The character sums of formatted messages, and their differences, fit a 32-bit int. */
  lemma {:induction false} SumsDoNotOverflow(text: seq<Char>)
    requires |text| <= MAX_TEXT
    ensures Abs(Sum(text)) <= 128 * |text| && 2 * Abs(Sum(text)) < 0x8000_0000
  {
    if text != [] {
      SumsDoNotOverflow(text[..|text| - 1]);
    }
  }

  // ---------------------------------------------------------------- runs

  /** Every message of the run repeats the one that opened it. */
  ghost predicate IsRun(run: seq<Message>) {
    |run| > 0 && (|run| > 1 ==> IsRun(run[..|run| - 1]) && Repeats(run[0], run[|run| - 1]))
  }

  /** A way to cut messages into runs such that no run could have gone on. */
  ghost predicate AreRuns(runs: seq<seq<Message>>) {
    runs != [] ==>
      var front, last := runs[..|runs| - 1], runs[|runs| - 1];
      && AreRuns(front) && IsRun(last)
      && (front != [] ==> IsRun(front[|front| - 1]) && !Repeats(front[|front| - 1][0], last[0]))
  }

  function Flat(runs: seq<seq<Message>>): seq<Message> {
    if runs == [] then [] else Flat(runs[..|runs| - 1]) + runs[|runs| - 1]
  }

  function Entries(ms: seq<Message>): seq<Line> {
    seq(|ms|, i requires 0 <= i < |ms| => Entry(ms[i]))
  }

  /** The messages that a run shows: its leader and up to 30 repetitions. */
  function Shown(run: seq<Message>): seq<Message> {
    if |run| <= 1 + MAX_REPEATED_LINES then run else run[..1 + MAX_REPEATED_LINES]
  }

  /** The log that the runs make: what each shows and, before the next one, how much it held back. */
  function Rendered(runs: seq<seq<Message>>): seq<Line> {
    if runs == [] then []
    else Rendered(runs[..|runs| - 1]) + HeldBack(runs[..|runs| - 1]) + Entries(Shown(runs[|runs| - 1]))
  }

  /** The note about the last of these runs, if it held anything back. */
  function HeldBack(runs: seq<seq<Message>>): seq<Line> {
    if runs != [] && |runs[|runs| - 1]| > 1 + MAX_REPEATED_LINES
    then [Repeated(|runs[|runs| - 1]| - 1 - MAX_REPEATED_LINES)]
    else []
  }

  /** A run shows its first 31 messages, and all of its messages share the leader's format string and
      are within 765 of its character sum. */
  lemma {:induction false} RunsAreAlike(run: seq<Message>)
    requires IsRun(run)
    ensures Shown(run) == if |run| <= 31 then run else run[..31]
    ensures forall i :: 0 < i < |run| ==>
              run[i].format == run[0].format && Abs(Sum(run[i].text) - Sum(run[0].text)) < 765
  {
    if |run| > 1 {
      var n := |run| - 1;
      RunsAreAlike(run[..n]);
      forall i | 0 < i < |run|
        ensures Repeats(run[0], run[i])
      {
        if i < n {
          assert run[..n][i] == run[i];
        }
      }
    }
  }

  /** The other way round: a message that opens another run than the one before has another format
      string, or a character sum at least 765 away from that run's leader. */
  lemma {:induction false} RunsBreakOff(runs: seq<seq<Message>>, k: nat)
    requires AreRuns(runs) && 0 < k < |runs|
    ensures runs[k - 1] != [] && runs[k] != []
    ensures var leader, m := runs[k - 1][0], runs[k][0];
            m.format != leader.format || Sum(m.text) <= Sum(leader.text) - 765 || Sum(m.text) >= Sum(leader.text) + 765
  {
    var n := |runs| - 1;
    if k < n {
      RunsBreakOff(runs[..n], k);
      assert runs[..n][k - 1] == runs[k - 1] && runs[..n][k] == runs[k];
    } else {
      assert runs[..n][n - 1] == runs[n - 1];
    }
  }

  /** What one message does, in numbers. */
  lemma LoggedInNumbers(s: State, m: Message)
    ensures var t := Logged(s, m);
            if s.leader.Some? && m.format == s.leader.value.format &&
               -765 < Sum(m.text) - Sum(s.leader.value.text) < 765
            then t == State(s.leader, s.repCount + 1, s.lines + if s.repCount < 30 then [Entry(m)] else [])
            else t == State(Some(m), 0, s.lines + (if s.repCount > 30 then [Repeated(s.repCount - 30)] else []) + [Entry(m)])
  {
  }

  /** The note about a run of more than 31 messages counts those beyond. */
  lemma HeldBackInNumbers(runs: seq<seq<Message>>)
    ensures HeldBack([]) == []
    ensures runs != [] ==>
              var n := |runs[|runs| - 1]|;
              HeldBack(runs) == if n > 31 then [Repeated(n - 31)] else []
  {
  }

  /** Every character counts with its own value, wherever it is. */
  lemma {:induction false} SumOfParts(a: seq<Char>, c: Char, b: seq<Char>)
    ensures Sum([]) == 0
    ensures Sum(a + [c] + b) == Sum(a) + c as int + Sum(b)
  {
    var s := a + [c] + b;
    if b == [] {
      assert s[..|s| - 1] == a;
    } else {
      SumOfParts(a, c, b[..|b| - 1]);
      assert s[..|s| - 1] == a + [c] + b[..|b| - 1];
    }
  }

  /** A run is logged as one: whatever came before, if it does not continue it. */
  lemma {:induction false} RunLogged(ms: seq<Message>, run: seq<Message>)
    requires IsRun(run) && !Continues(After(ms), run[0])
    ensures After(ms + run) ==
            State(Some(run[0]), |run| - 1, After(ms).lines + Note(After(ms).repCount) + Entries(Shown(run)))
  {
    var n := |run| - 1;
    var front, m := run[..n], run[n];
    var before := After(ms).lines + Note(After(ms).repCount);
    assert run == front + [m];
    Append(ms + front, m);
    Associative(ms, front, [m]);
    if n == 0 {
      assert ms + front == ms;
      assert Entries(Shown(run)) == [Entry(m)];
    } else {
      RunLogged(ms, front);
      ShownGrows(front, m, before);
    }
  }

  lemma Append(ms: seq<Message>, m: Message)
    ensures After(ms + [m]) == Logged(After(ms), m)
  {
    assert (ms + [m])[..|ms|] == ms;
  }

  lemma ShownGrows(run: seq<Message>, m: Message, before: seq<Line>)
    requires run != []
    ensures before + Entries(Shown(run + [m])) ==
            before + Entries(Shown(run)) + if |run| - 1 >= MAX_REPEATED_LINES then [] else [Entry(m)]
  {
    if |run| - 1 >= MAX_REPEATED_LINES {
      assert Shown(run + [m]) == Shown(run);
    } else {
      assert Shown(run + [m]) == run + [m] && Shown(run) == run;
      assert Entries(run + [m]) == Entries(run) + [Entry(m)];
    }
  }

  /** The streaming filter writes exactly what its runs make, for any way to cut the messages into
      runs; so there is only one such log. */
  lemma {:induction false} LogIsRenderedRuns(runs: seq<seq<Message>>)
    requires AreRuns(runs)
    ensures After(Flat(runs)).lines == Rendered(runs)
    ensures runs != [] ==>
              After(Flat(runs)).leader == Some(runs[|runs| - 1][0]) && After(Flat(runs)).repCount == |runs[|runs| - 1]| - 1
  {
    if runs != [] {
      var front, last := runs[..|runs| - 1], runs[|runs| - 1];
      LogIsRenderedRuns(front);
      RunLogged(Flat(front), last);
      assert Note(After(Flat(front)).repCount) == HeldBack(front);
    }
  }

  /** Any messages can be cut into runs. */
  lemma {:induction false} RunsExist(ms: seq<Message>) returns (runs: seq<seq<Message>>)
    ensures AreRuns(runs) && Flat(runs) == ms
  {
    if ms == [] {
      runs := [];
    } else {
      var m := ms[|ms| - 1];
      var front := RunsExist(ms[..|ms| - 1]);
      assert ms == ms[..|ms| - 1] + [m];
      if front != [] && Repeats(front[|front| - 1][0], m) {
        runs := LastRunGrows(front, m);
      } else {
        runs := front + [[m]];
        assert runs[..|front|] == front;
      }
    }
  }

  lemma LastRunGrows(front: seq<seq<Message>>, m: Message) returns (runs: seq<seq<Message>>)
    requires AreRuns(front) && front != [] && IsRun(front[|front| - 1]) && Repeats(front[|front| - 1][0], m)
    ensures AreRuns(runs) && Flat(runs) == Flat(front) + [m]
  {
    var k := |front| - 1;
    var longer := front[k] + [m];
    runs := front[..k] + [longer];
    assert runs[..k] == front[..k];
    assert longer[..|front[k]|] == front[k];
    Associative(Flat(front[..k]), front[k], [m]);
  }

  // ---------------------------------------------------------------- conservation

  function EntryCount(lines: seq<Line>): nat {
    if lines == [] then 0
    else EntryCount(lines[..|lines| - 1]) + if lines[|lines| - 1].Entry? then 1 else 0
  }

  function ReportedCount(lines: seq<Line>): nat {
    if lines == [] then 0
    else ReportedCount(lines[..|lines| - 1]) + if lines[|lines| - 1].Repeated? then lines[|lines| - 1].count else 0
  }

  function Pending(s: State): nat {
    if s.repCount > MAX_REPEATED_LINES then s.repCount - MAX_REPEATED_LINES else 0
  }

  lemma CountsOfSnoc(lines: seq<Line>, l: Line)
    ensures EntryCount(lines + [l]) == EntryCount(lines) + if l.Entry? then 1 else 0
    ensures ReportedCount(lines + [l]) == ReportedCount(lines) + if l.Repeated? then l.count else 0
  {
    assert (lines + [l])[..|lines|] == lines;
  }

  /** Nothing is lost: the entries written, the counts reported and the repetitions still to be
      reported add up to the messages logged. */
  lemma {:induction false} NothingIsLost(ms: seq<Message>)
    ensures EntryCount(After(ms).lines) + ReportedCount(After(ms).lines) + Pending(After(ms)) == |ms|
  {
    if ms != [] {
      var s, m := After(ms[..|ms| - 1]), ms[|ms| - 1];
      NothingIsLost(ms[..|ms| - 1]);
      CountsOfSnoc(s.lines, Entry(m));
      if !Continues(s, m) {
        if s.repCount > MAX_REPEATED_LINES {
          CountsOfSnoc(s.lines, Repeated(s.repCount - MAX_REPEATED_LINES));
          CountsOfSnoc(s.lines + Note(s.repCount), Entry(m));
        } else {
          assert s.lines + [] == s.lines;
        }
      } else {
        assert s.lines + [] == s.lines;
      }
    }
  }

  // ---------------------------------------------------------------- levels and options

  datatype Call = Call(level: int, message: Message)

  function Passing(calls: seq<Call>, verbose: bool): seq<Message> {
    if calls == [] then []
    else Passing(calls[..|calls| - 1], verbose) +
         if calls[|calls| - 1].level <= LOG_INFO || verbose then [calls[|calls| - 1].message] else []
  }

  lemma PassingStep(calls: seq<Call>, i: nat, verbose: bool)
    requires i < |calls|
    ensures Passing(calls[..i + 1], verbose) ==
            if calls[i].level <= LOG_INFO || verbose then Passing(calls[..i], verbose) + [calls[i].message]
            else Passing(calls[..i], verbose)
  {
    assert calls[..i + 1][..i] == calls[..i];
  }

  /** Messages less urgent than information, level 300, pass only if the log is verbose. */
  lemma LevelsPassing(calls: seq<Call>, c: Call, verbose: bool)
    ensures Passing([], verbose) == []
    ensures Passing(calls + [c], verbose) ==
            Passing(calls, verbose) + if c.level <= 300 || verbose then [c.message] else []
  {
    assert (calls + [c])[..|calls|] == calls;
  }

  lemma OneMoreLogged(ms: seq<Message>, m: Message)
    ensures After(ms + [m]) == Logged(After(ms), m)
    ensures Entries(ms + [m]) == Entries(ms) + [Entry(m)]
  {
    assert (ms + [m])[..|ms|] == ms;
  }

  /** A whole session of the handler: the messages of the filtered levels are logged as one
      sequence, or all written if the filter is off. */
  method Session(unfiltered: bool, verbose: bool, calls: seq<Call>) returns (lines: seq<Line>)
    ensures lines == if unfiltered then Entries(Passing(calls, verbose)) else After(Passing(calls, verbose)).lines
  {
    var h := new LogHandler(unfiltered, verbose);
    ghost var s := START;
    for i := 0 to |calls|
      invariant h.unfiltered == unfiltered && h.verbose == verbose && h.Shows(s)
      invariant !unfiltered ==> s == After(Passing(calls[..i], verbose))
      invariant unfiltered ==> s == State(None, 0, Entries(Passing(calls[..i], verbose)))
    {
      var c := calls[i];
      ghost var passed := Passing(calls[..i], verbose);
      PassingStep(calls, i, verbose);
      h.DoLog(c.level, c.message, s);
      if c.level <= LOG_INFO || verbose {
        OneMoreLogged(passed, c.message);
        s := if unfiltered then s.(lines := s.lines + [Entry(c.message)]) else Logged(s, c.message);
      }
    }
    assert calls[..|calls|] == calls;
    lines := h.lines;
  }
}
