/** Log file names and how many log files are kept.

    A log is named after the second of its launch.  Later launches read the names back as numbers
    to find the newest log and, if there are too many, the oldest one to delete.
 */
module LogFiles {
  import opened Decimal
  import opened Sequences
  import opened Wrappers

  // ---------------------------------------------------------------- names

  /** A local date and time, as the C library breaks it down. */
  datatype Time = Time(year: int, month: int, day: int, hour: int, minute: int, second: int) {
    predicate Valid() {
      1 <= year && 1 <= month <= 12 && 1 <= day <= 31 && 0 <= hour < 24 && 0 <= minute < 60 && 0 <= second <= 60
    }

    predicate Before(t: Time) {
      year < t.year || (year == t.year && (
      month < t.month || (month == t.month && (
      day < t.day || (day == t.day && (
      hour < t.hour || (hour == t.hour && (
      minute < t.minute || (minute == t.minute && second < t.second)))))))))
    }
  }

  function TimeDateFilename(t: Time, extension: string, noSpace: bool): string
    requires t.Valid()
  {
    Dec(t.year) + ("-" + (Dec2(t.month) + ("-" + (Dec2(t.day) + ([if noSpace then '_' else ' '] +
    (Dec2(t.hour) + ("-" + (Dec2(t.minute) + ("-" + (Dec2(t.second) + ("." + extension)))))))))))
  }

  function LogName(t: Time): string
    requires t.Valid()
  {
    TimeDateFilename(t, "txt", false)
  }

  // The lexer: digit runs, letter runs and single other characters, with white space skipped.

  predicate IsSpace(c: char) { c == ' ' || c == '\t' || c == '\n' || c == '\r' }

  function SkipSpace(s: string): string {
    if s != [] && IsSpace(s[0]) then SkipSpace(s[1..]) else s
  }

  function DigitRun(s: string): (n: nat)
    ensures n <= |s| && IsNumeral(s[..n])
  {
    if s == [] || !IsDigit(s[0]) then 0
    else
      var n := DigitRun(s[1..]);
      assert s[..n + 1] == [s[0]] + s[1..][..n];
      n + 1
  }

  /** A digit token and what follows it, if one comes next. */
  function GetDigits(s: string): (r: Option<(string, string)>)
    ensures r.Some? ==> IsNumeral(r.value.0)
  {
    var t := SkipSpace(s);
    var n := DigitRun(t);
    if n == 0 then None else Some((t[..n], t[n..]))
  }

  function ExpectDash(s: string): Option<string> {
    var t := SkipSpace(s);
    if t != [] && t[0] == '-' then Some(t[1..]) else None
  }

  /** The digits of a log name, run together. */
  function NameDigits(name: string): (r: Option<string>)
    ensures r.Some? ==> IsNumeral(r.value)
  {
    var (year, r1) :- GetDigits(name);
    var r2 :- ExpectDash(r1);
    var (month, r3) :- GetDigits(r2);
    var r4 :- ExpectDash(r3);
    var (day, r5) :- GetDigits(r4);
    var (hour, r6) :- GetDigits(r5);
    var r7 :- ExpectDash(r6);
    var (minute, r8) :- GetDigits(r7);
    var r9 :- ExpectDash(r8);
    var (second, _) :- GetDigits(r9);
    Some(year + month + day + hour + minute + second)
  }

  const U64_MAX := 0xFFFF_FFFF_FFFF_FFFF

  /** Zero for a name that is not a log's; a number beyond 64 bits makes the conversion throw. */
  datatype Stamp = Number(n: nat) | OutOfRange

  function ConvertLogName(name: string): Stamp {
    match NameDigits(name)
    case None => Number(0)
    case Some(digits) => if Value(digits) > U64_MAX then OutOfRange else Number(Value(digits))
  }

  /** The number that a time stands for. */
  function TimeNumber(t: Time): nat
    requires t.Valid()
  {
    100 * (100 * (100 * (100 * (100 * t.year + t.month) + t.day) + t.hour) + t.minute) + t.second
  }

  lemma DigitsThen(digits: string, rest: string)
    requires digits != [] && IsNumeral(digits) && (rest == [] || !IsDigit(rest[0]))
    ensures GetDigits(digits + rest) == Some((digits, rest))
    ensures GetDigits([' '] + (digits + rest)) == Some((digits, rest))
  {
    var s := digits + rest;
    RunLength(digits, rest);
    assert SkipSpace(s) == s;
    assert ([' '] + s)[1..] == s;
    assert s[..|digits|] == digits && s[|digits|..] == rest;
  }

  lemma {:induction false} RunLength(digits: string, rest: string)
    requires IsNumeral(digits) && (rest == [] || !IsDigit(rest[0]))
    ensures DigitRun(digits + rest) == |digits|
  {
    if digits == [] {
      assert digits + rest == rest;
    } else {
      RunLength(digits[1..], rest);
      assert (digits + rest)[1..] == digits[1..] + rest;
    }
  }

  lemma DashThen(rest: string)
    ensures ExpectDash("-" + rest) == Some(rest)
  {
    assert ("-" + rest)[1..] == rest;
  }

  lemma NumberOfDigits(t: Time)
    requires t.Valid()
    ensures var digits := Dec(t.year) + Dec2(t.month) + Dec2(t.day) + Dec2(t.hour) + Dec2(t.minute) + Dec2(t.second);
            IsNumeral(digits) && Value(digits) == TimeNumber(t)
  {
    var s1 := Dec(t.year) + Dec2(t.month);
    ValueOfPair(Dec(t.year), Dec2(t.month));
    ValueOfPair(s1, Dec2(t.day));
    ValueOfPair(s1 + Dec2(t.day), Dec2(t.hour));
    ValueOfPair(s1 + Dec2(t.day) + Dec2(t.hour), Dec2(t.minute));
    ValueOfPair(s1 + Dec2(t.day) + Dec2(t.hour) + Dec2(t.minute), Dec2(t.second));
  }

  /** Printing and reading back: a log's name yields the number of its launch time, if that fits. */
  lemma LogNameReadsBack(t: Time)
    requires t.Valid()
    ensures ConvertLogName(LogName(t)) ==
            if TimeNumber(t) <= 18_446_744_073_709_551_615 then Number(TimeNumber(t)) else OutOfRange
  {
    var r10 := Dec2(t.second) + ("." + "txt");
    var r8 := Dec2(t.minute) + ("-" + r10);
    var r6 := Dec2(t.hour) + ("-" + r8);
    var r4 := Dec2(t.day) + ([' '] + r6);
    var r2 := Dec2(t.month) + ("-" + r4);
    DigitsThen(Dec(t.year), "-" + r2);
    DashThen(r2);
    DigitsThen(Dec2(t.month), "-" + r4);
    DashThen(r4);
    DigitsThen(Dec2(t.day), [' '] + r6);
    DigitsThen(Dec2(t.hour), "-" + r8);
    DashThen(r8);
    DigitsThen(Dec2(t.minute), "-" + r10);
    DashThen(r10);
    DigitsThen(Dec2(t.second), "." + "txt");
    NumberOfDigits(t);
  }

  /** The numbers order names exactly as their times. */
  lemma NumbersFollowTime(t: Time, u: Time)
    requires t.Valid() && u.Valid()
    ensures TimeNumber(t) < TimeNumber(u) <==> t.Before(u)
  {
  }

  /** Names without a space are not taken for logs. */
  lemma UnderscoreNamesAreNoLogs(t: Time, extension: string)
    requires t.Valid()
    ensures ConvertLogName(TimeDateFilename(t, extension, true)) == Number(0)
  {
    var r6 := Dec2(t.hour) + ("-" + (Dec2(t.minute) + ("-" + (Dec2(t.second) + ("." + extension)))));
    var r4 := Dec2(t.day) + (['_'] + r6);
    var r2 := Dec2(t.month) + ("-" + r4);
    DigitsThen(Dec(t.year), "-" + r2);
    DashThen(r2);
    DigitsThen(Dec2(t.month), "-" + r4);
    DashThen(r4);
    DigitsThen(Dec2(t.day), ['_'] + r6);
    NoDigitsAtUnderscore(r6);
  }

  lemma NoDigitsAtUnderscore(rest: string)
    ensures GetDigits(['_'] + rest) == None
  {
  }

  lemma Field(n: string, at: nat, field: string, separator: char, rest: string)
    requires at <= |n| && n[at..] == field + ([separator] + rest)
    ensures |n| > at + |field| && n[at..at + |field|] == field && n[at + |field|] == separator
    ensures n[at + |field| + 1..] == rest
  {
    assert |n| == at + |field| + 1 + |rest|;
    assert n[at..][..|field|] == field && n[at..][|field|] == separator && n[at..][|field| + 1..] == rest;
  }

  lemma {:induction false} FourDigits(n: nat)
    requires 1000 <= n < 10000
    ensures |Dec(n)| == 4
  {
    assert |Dec(n / 10 / 10 / 10)| == 1;
    assert |Dec(n / 10 / 10)| == 2;
    assert |Dec(n / 10)| == 3;
  }

  /** What a name looks like for the years of four digits. */
  lemma NameInFull(t: Time, extension: string, noSpace: bool)
    requires t.Valid() && 1000 <= t.year < 10000
    ensures var n := TimeDateFilename(t, extension, noSpace);
            && |n| == 20 + |extension|
            && n[0..4] == Dec(t.year) && n[4] == '-' && n[5..7] == Dec2(t.month) && n[7] == '-' && n[8..10] == Dec2(t.day)
            && n[10] == (if noSpace then '_' else ' ')
            && n[11..13] == Dec2(t.hour) && n[13] == '-' && n[14..16] == Dec2(t.minute) && n[16] == '-'
            && n[17..19] == Dec2(t.second) && n[19] == '.' && n[20..] == extension
    ensures LogName(t) == TimeDateFilename(t, "txt", false)
  {
    FourDigits(t.year);
    Fields(TimeDateFilename(t, extension, noSpace), Dec(t.year), Dec2(t.month), Dec2(t.day), if noSpace then '_' else ' ',
           Dec2(t.hour), Dec2(t.minute), Dec2(t.second), extension);
  }

  lemma Fields(n: string, year: string, month: string, day: string, space: char,
               hour: string, minute: string, second: string, extension: string)
    requires |year| == 4 && |month| == |day| == |hour| == |minute| == |second| == 2
    requires n == year + ("-" + (month + ("-" + (day + ([space] +
                  (hour + ("-" + (minute + ("-" + (second + ("." + extension)))))))))))
    ensures |n| == 20 + |extension|
    ensures n[0..4] == year && n[4] == '-' && n[5..7] == month && n[7] == '-' && n[8..10] == day && n[10] == space
    ensures n[11..13] == hour && n[13] == '-' && n[14..16] == minute && n[16] == '-'
    ensures n[17..19] == second && n[19] == '.' && n[20..] == extension
  {
    var r10 := second + ("." + extension);
    var r8 := minute + ("-" + r10);
    var r6 := hour + ("-" + r8);
    var r4 := day + ([space] + r6);
    assert n[0..] == n;
    Field(n, 0, year, '-', month + ("-" + r4));
    Field(n, 5, month, '-', r4);
    Field(n, 8, day, space, r6);
    Field(n, 11, hour, '-', r8);
    Field(n, 14, minute, '-', r10);
    Field(n, 17, second, '.', extension);
  }

  // ---------------------------------------------------------------- which names are logs

  ghost predicate Blank(w: string) {
    forall i :: 0 <= i < |w| ==> w[i] == ' ' || w[i] == '\t' || w[i] == '\n' || w[i] == '\r'
  }

  datatype Token = Digits | Dash

  const LOG_PATTERN := [Digits, Dash, Digits, Dash, Digits, Digits, Dash, Digits, Dash, Digits]

  /** The text begins with these tokens, white space before each of them allowed, and the digits run
      together are ds. */
  ghost predicate Fits(pattern: seq<Token>, s: string, ds: string)
    decreases |pattern|
  {
    if pattern == [] then ds == ""
    else if pattern[0] == Dash then exists w, r :: DashAt(s, w, r) && Fits(pattern[1..], r, ds)
    else exists w, d, r, more :: DigitsAt(s, w, d, r) && ds == d + more && Fits(pattern[1..], r, more)
  }

  ghost predicate DashAt(s: string, w: string, r: string) {
    Blank(w) && s == w + ("-" + r)
  }

  ghost predicate DigitsAt(s: string, w: string, d: string, r: string) {
    Blank(w) && d != "" && IsNumeral(d) && (r == "" || !IsDigit(r[0])) && s == w + (d + r)
  }

  lemma {:induction false} SkippedSpace(s: string) returns (w: string)
    ensures Blank(w) && s == w + SkipSpace(s)
    ensures SkipSpace(s) != "" ==> !IsSpace(SkipSpace(s)[0])
  {
    if s != [] && IsSpace(s[0]) {
      w := SkippedSpace(s[1..]);
      assert s == [s[0]] + s[1..];
      w := [s[0]] + w;
    } else {
      w := [];
    }
  }

  lemma {:induction false} SpaceIsSkipped(w: string, t: string)
    requires Blank(w) && (t == "" || !IsSpace(t[0]))
    ensures SkipSpace(w + t) == t
  {
    if w == [] {
      assert w + t == t;
    } else {
      SpaceIsSkipped(w[1..], t);
      assert (w + t)[1..] == w[1..] + t;
    }
  }

  lemma {:induction false} RunIsMaximal(s: string)
    ensures DigitRun(s) == |s| || !IsDigit(s[DigitRun(s)])
  {
    if s != [] && IsDigit(s[0]) {
      RunIsMaximal(s[1..]);
    }
  }

  lemma DigitsGot(s: string, d: string, r: string) returns (w: string)
    requires GetDigits(s) == Some((d, r))
    ensures DigitsAt(s, w, d, r)
  {
    w := SkippedSpace(s);
    RunIsMaximal(SkipSpace(s));
    RunSplits(SkipSpace(s), DigitRun(SkipSpace(s)));
  }

  lemma RunSplits(t: string, n: nat)
    requires n <= |t|
    ensures t == t[..n] + t[n..] && (n < |t| ==> t[n..][0] == t[n])
  {
  }

  lemma DigitsFound(s: string, w: string, d: string, r: string)
    requires DigitsAt(s, w, d, r)
    ensures GetDigits(s) == Some((d, r))
  {
    SpaceIsSkipped(w, d + r);
    RunLength(d, r);
    assert (d + r)[..|d|] == d && (d + r)[|d|..] == r;
  }

  lemma GetDigitsExactly(s: string, d: string, r: string)
    ensures GetDigits(s) == Some((d, r)) <==> exists w :: DigitsAt(s, w, d, r)
  {
    if GetDigits(s) == Some((d, r)) {
      var w := DigitsGot(s, d, r);
    }
    if w :| DigitsAt(s, w, d, r) {
      DigitsFound(s, w, d, r);
    }
  }

  lemma ExpectDashExactly(s: string, r: string)
    ensures ExpectDash(s) == Some(r) <==> exists w :: DashAt(s, w, r)
  {
    if ExpectDash(s) == Some(r) {
      var w := SkippedSpace(s);
      assert SkipSpace(s) == "-" + r;
      assert DashAt(s, w, r);
    }
    if w :| DashAt(s, w, r) {
      SpaceIsSkipped(w, "-" + r);
      DashThen(r);
    }
  }

  function Read(pattern: seq<Token>, s: string): Option<string>
    decreases |pattern|
  {
    if pattern == [] then Some("")
    else if pattern[0] == Dash then
      var r :- ExpectDash(s);
      Read(pattern[1..], r)
    else
      var (d, r) :- GetDigits(s);
      var more :- Read(pattern[1..], r);
      Some(d + more)
  }

  lemma {:induction false} ReadExactly(pattern: seq<Token>, s: string, ds: string)
    ensures Read(pattern, s) == Some(ds) <==> Fits(pattern, s, ds)
    decreases |pattern|, 0
  {
    if pattern != [] {
      if pattern[0] == Dash {
        DashRead(pattern[1..], s, ds);
      } else {
        DigitsRead(pattern[1..], s, ds);
      }
    }
  }

  lemma {:induction false} DashRead(rest: seq<Token>, s: string, ds: string)
    ensures (ExpectDash(s).Some? && Read(rest, ExpectDash(s).value) == Some(ds)) <==>
              exists w, r :: DashAt(s, w, r) && Fits(rest, r, ds)
    decreases |rest|, 1
  {
    if ExpectDash(s).Some? {
      ExpectDashExactly(s, ExpectDash(s).value);
      ReadExactly(rest, ExpectDash(s).value, ds);
    }
    if w, r :| DashAt(s, w, r) && Fits(rest, r, ds) {
      ExpectDashExactly(s, r);
    }
  }

  lemma {:induction false} DigitsRead(rest: seq<Token>, s: string, ds: string)
    ensures (GetDigits(s).Some? && var (d, r) := GetDigits(s).value;
             Read(rest, r).Some? && ds == d + Read(rest, r).value) <==>
              exists w, d, r, more :: DigitsAt(s, w, d, r) && ds == d + more && Fits(rest, r, more)
    decreases |rest|, 1
  {
    if GetDigits(s).Some? {
      var (d, r) := GetDigits(s).value;
      GetDigitsExactly(s, d, r);
      if Read(rest, r).Some? {
        ReadExactly(rest, r, Read(rest, r).value);
      }
    }
    if w, d, r, more :| DigitsAt(s, w, d, r) && ds == d + more && Fits(rest, r, more) {
      GetDigitsExactly(s, d, r);
      ReadExactly(rest, r, more);
    }
  }

  /** A name is a log's exactly if it begins with year-month-day hour-minute-second in digits, and its
      number is that of the digits run together, if it fits 64 bits. */
  lemma LogNamesExactly(name: string, ds: string)
    ensures NameDigits(name) == Some(ds) <==> Fits(LOG_PATTERN, name, ds)
  {
    ReadExactly(LOG_PATTERN, name, ds);
    NameIsRead(name);
  }

  lemma ReadDigits(rest: seq<Token>, s: string)
    ensures Read([Digits] + rest, s) ==
            if GetDigits(s).Some? && Read(rest, GetDigits(s).value.1).Some?
            then Some(GetDigits(s).value.0 + Read(rest, GetDigits(s).value.1).value) else None
  {
    assert ([Digits] + rest)[1..] == rest;
  }

  lemma ReadDash(rest: seq<Token>, s: string)
    ensures Read([Dash] + rest, s) == if ExpectDash(s).Some? then Read(rest, ExpectDash(s).value) else None
  {
    assert ([Dash] + rest)[1..] == rest;
  }

  /** Digits behind a dash. */
  ghost function NextDigits(s: string): Option<(string, string)> {
    var r :- ExpectDash(s);
    GetDigits(r)
  }

  lemma ReadNextDigits(rest: seq<Token>, s: string)
    ensures Read([Dash] + ([Digits] + rest), s) ==
            if NextDigits(s).Some? && Read(rest, NextDigits(s).value.1).Some?
            then Some(NextDigits(s).value.0 + Read(rest, NextDigits(s).value.1).value) else None
  {
    ReadDash([Digits] + rest, s);
    if ExpectDash(s).Some? {
      ReadDigits(rest, ExpectDash(s).value);
    }
  }

  /** Three numbers with dashes between them. */
  ghost function Group(s: string): Option<(string, string)> {
    var (a, r1) :- GetDigits(s);
    var (b, r2) :- NextDigits(r1);
    var (c, r3) :- NextDigits(r2);
    Some((a + b + c, r3))
  }

  const GROUP := [Digits, Dash, Digits, Dash, Digits]

  lemma ReadGroup(rest: seq<Token>, s: string)
    ensures Read(GROUP + rest, s) ==
            if Group(s).Some? && Read(rest, Group(s).value.1).Some?
            then Some(Group(s).value.0 + Read(rest, Group(s).value.1).value) else None
  {
    var two := [Dash] + ([Digits] + rest);
    var four := [Dash] + ([Digits] + two);
    assert GROUP + rest == [Digits] + four;
    ReadDigits(four, s);
    if GetDigits(s).Some? {
      var (a, r1) := GetDigits(s).value;
      ReadNextDigits(two, r1);
      if NextDigits(r1).Some? {
        var (b, r2) := NextDigits(r1).value;
        ReadNextDigits(rest, r2);
        if NextDigits(r2).Some? && Read(rest, NextDigits(r2).value.1).Some? {
          Regrouped(a, b, NextDigits(r2).value.0, Read(rest, NextDigits(r2).value.1).value);
        }
      }
    }
  }

  lemma Regrouped(a: string, b: string, c: string, d: string)
    ensures a + (b + (c + d)) == a + b + c + d
  {
  }

  lemma NameIsGroups(name: string)
    ensures NameDigits(name) ==
            if Group(name).Some? && Group(Group(name).value.1).Some?
            then Some(Group(name).value.0 + Group(Group(name).value.1).value.0) else None
  {
    if Group(name).Some? && Group(Group(name).value.1).Some? {
      var x, y := Group(name).value.0, Group(Group(name).value.1).value.0;
      assert NameDigits(name).Some?;
      assert NameDigits(name).value == x + y;
    }
  }

  lemma NameIsRead(name: string)
    ensures NameDigits(name) == Read(LOG_PATTERN, name)
  {
    NameIsGroups(name);
    assert LOG_PATTERN == GROUP + (GROUP + []);
    ReadGroup(GROUP + [], name);
    if Group(name).Some? {
      var r := Group(name).value.1;
      ReadGroup([], r);
      if Group(r).Some? {
        assert Read([], Group(r).value.1) == Some("");
        assert Group(r).value.0 + "" == Group(r).value.0;
      }
    }
  }

  // ---------------------------------------------------------------- scanning the directory

  datatype Entry = Entry(name: string, directory: bool)

  datatype Result<T> = Success(value: T) | Thrown

  function StampOf(e: Entry): Stamp {
    if e.directory || (e.name != [] && e.name[0] == '.') then Number(0) else ConvertLogName(e.name)
  }

  predicate IsLog(e: Entry) {
    StampOf(e).Number? && StampOf(e).n > 0
  }

  ghost predicate Throws(listing: seq<Entry>) {
    exists e :: e in listing && StampOf(e).OutOfRange?
  }

  ghost predicate IsNewest(listing: seq<Entry>, name: string) {
    exists e :: e in listing && IsLog(e) && e.name == name &&
                forall f :: f in listing && IsLog(f) ==> StampOf(f).n <= StampOf(e).n
  }

  ghost predicate IsOldest(listing: seq<Entry>, name: string) {
    exists e :: e in listing && IsLog(e) && e.name == name && StampOf(e).n < U64_MAX &&
                forall f :: f in listing && IsLog(f) ==> StampOf(e).n <= StampOf(f).n
  }

  function LogCount(listing: seq<Entry>): nat {
    if listing == [] then 0
    else LogCount(listing[..|listing| - 1]) + if IsLog(listing[|listing| - 1]) then 1 else 0
  }

  /** The newest log in the directory, or the previous value if there is none. */
  method GetLastLog(listing: seq<Entry>, previous: string) returns (r: Result<string>)
    ensures r.Thrown? <==> Throws(listing)
    ensures r.Success? ==> if exists e :: e in listing && IsLog(e) then IsNewest(listing, r.value) else r.value == previous
  {
    var last, highest := previous, 0;
    for i := 0 to |listing|
      invariant !Throws(listing[..i])
      invariant forall f :: f in listing[..i] && IsLog(f) ==> StampOf(f).n <= highest
      invariant if highest == 0 then last == previous
                else exists e :: e in listing[..i] && IsLog(e) && e.name == last && StampOf(e).n == highest
    {
      assert listing[..i + 1] == listing[..i] + [listing[i]];
      var stamp := StampOf(listing[i]);
      if stamp.OutOfRange? {
        assert listing[i] in listing;
        return Thrown;
      }
      if stamp.n > highest {
        last, highest := listing[i].name, stamp.n;
      }
    }
    assert listing[..|listing|] == listing;
    return Success(last);
  }

  /** The file to delete, if there are more than maxLogs logs.  A log whose number is the largest of
      all is never found, and then the name is empty. */
  method OldestFile(listing: seq<Entry>, maxLogs: nat) returns (r: Result<Option<string>>)
    ensures r.Thrown? <==> Throws(listing)
    ensures r.Success? ==> (r.value.Some? <==> LogCount(listing) > maxLogs)
    ensures r.Success? && r.value.Some? ==>
              if exists e :: e in listing && IsLog(e) && StampOf(e).n < U64_MAX then IsOldest(listing, r.value.value)
              else r.value.value == ""
  {
    var oldest, lowest, count := "", U64_MAX, 0;
    for i := 0 to |listing|
      invariant !Throws(listing[..i]) && count == LogCount(listing[..i]) && lowest <= U64_MAX
      invariant forall f :: f in listing[..i] && IsLog(f) ==> lowest <= StampOf(f).n
      invariant if lowest == U64_MAX then oldest == ""
                else exists e :: e in listing[..i] && IsLog(e) && e.name == oldest && StampOf(e).n == lowest
    {
      assert listing[..i + 1] == listing[..i] + [listing[i]];
      var stamp := StampOf(listing[i]);
      if stamp.OutOfRange? {
        assert listing[i] in listing;
        return Thrown;
      }
      if stamp.n > 0 {
        if stamp.n < lowest {
          oldest, lowest := listing[i].name, stamp.n;
        }
        count := count + 1;
      }
    }
    assert listing[..|listing|] == listing;
    return Success(if count > maxLogs then Some(oldest) else None);
  }

  // ---------------------------------------------------------------- one launch

  /** A listing of the directory, in whatever order the system reports the names. */
  ghost predicate Lists(listing: seq<Entry>, files: set<string>) {
    && Distinct(listing)
    && (forall e :: e in listing ==> !e.directory ==> e.name in files)
    && (forall n :: n in files ==> Entry(n, false) in listing)
  }

  /** The number of a file's name; zero for files that are no logs. */
  function LogNumber(name: string): nat {
    match StampOf(Entry(name, false))
    case Number(n) => n
    case OutOfRange => 0
  }

  /** No name makes the conversion throw. */
  predicate Readable(files: set<string>) {
    forall n :: n in files ==> StampOf(Entry(n, false)).Number?
  }

  ghost function Logs(number: string -> nat, files: set<string>): set<string> {
    set n | n in files && number(n) > 0
  }

  ghost predicate IsLeast(number: string -> nat, logs: set<string>, v: string) {
    v in logs && forall n :: n in logs ==> number(v) <= number(n)
  }

  /** What the directory becomes: the oldest log goes if there are too many.  A log with the largest
      number of all is never found to be the oldest. */
  ghost predicate Rotated(number: string -> nat, files: set<string>, files': set<string>, maxLogs: nat) {
    if |Logs(number, files)| <= maxLogs || NoneSmaller(number, Logs(number, files)) then files' == files
    else exists v :: IsLeast(number, Logs(number, files), v) && files' == files - {v}
  }

  ghost predicate NoneSmaller(number: string -> nat, logs: set<string>) {
    forall n :: n in logs ==> number(n) >= U64_MAX
  }

  ghost predicate Reported(number: string -> nat, files: set<string>, previous: string, last: string) {
    if Logs(number, files) == {} then last == previous
    else last in Logs(number, files) && forall n :: n in Logs(number, files) ==> number(n) <= number(last)
  }

  function LogsAmong(listing: seq<Entry>): set<Entry> {
    set e | e in listing && IsLog(e)
  }

  lemma {:induction false} CountIsCardinality(listing: seq<Entry>)
    requires Distinct(listing)
    ensures LogCount(listing) == |LogsAmong(listing)|
  {
    if listing != [] {
      DistinctPrefix(listing, |listing| - 1);
      CountIsCardinality(listing[..|listing| - 1]);
      LastIsFresh(listing, |listing| - 1);
      OneMoreEntry(listing[..|listing| - 1], listing[|listing| - 1], listing);
    } else {
      assert LogsAmong(listing) == {};
    }
  }

  lemma LastIsFresh(listing: seq<Entry>, n: nat)
    requires Distinct(listing) && n < |listing|
    ensures listing[n] !in listing[..n] && (n == |listing| - 1 ==> listing == listing[..n] + [listing[n]])
  {
  }

  lemma OneMoreEntry(before: seq<Entry>, e: Entry, listing: seq<Entry>)
    requires e !in before && listing == before + [e]
    ensures |LogsAmong(listing)| == |LogsAmong(before)| + if IsLog(e) then 1 else 0
  {
    assert LogsAmong(listing) == if IsLog(e) then LogsAmong(before) + {e} else LogsAmong(before);
  }

  /** The number of logs counted while listing is the number of logs in the directory. */
  lemma CountOfListing(listing: seq<Entry>, files: set<string>)
    requires Lists(listing, files)
    ensures LogCount(listing) == |Logs(LogNumber, files)|
  {
    CountIsCardinality(listing);
    var entries := LogsAmong(listing);
    assert entries == set n | n in Logs(LogNumber, files) :: Entry(n, false) by {
      assert forall e :: e in entries ==> e == Entry(e.name, false);
    }
    SameSize(Logs(LogNumber, files), entries);
  }

  lemma {:induction false} SameSize(names: set<string>, entries: set<Entry>)
    requires entries == set n | n in names :: Entry(n, false)
    ensures |entries| == |names|
  {
    if names != {} {
      var n :| n in names;
      SameSize(names - {n}, entries - {Entry(n, false)});
    }
  }

  lemma ThrowsUnlessReadable(listing: seq<Entry>, files: set<string>)
    requires Lists(listing, files)
    ensures Throws(listing) <==> !Readable(files)
  {
    if Readable(files) {
      forall e | e in listing
        ensures StampOf(e).Number?
      {
        if !e.directory {
          assert e == Entry(e.name, false);
        }
      }
    } else {
      var n :| n in files && !StampOf(Entry(n, false)).Number?;
      assert Entry(n, false) in listing;
    }
  }

  /** What a launch that can create its log makes of the directory and whether it throws. */
  ghost predicate Launched(files: set<string>, files': set<string>, previous: string, last: string, name: string,
                           thrown: bool, maxLogs: nat)
  {
    && (thrown <==> !Readable(files) || !Readable(files + {name}))
    && (Readable(files) ==> Reported(LogNumber, files, previous, last))
    && if !Readable(files) then files' == files
       else if thrown then files' == files + {name}
       else Rotated(LogNumber, files + {name}, files', maxLogs)
  }

  /** One launch: reports the newest log, creates this launch's if it can be opened, and then deletes
      the oldest one if there are too many.  A name whose number is out of range ends the launch with
      an exception wherever the directory is read first. */
  method CreateLogFile(files: set<string>, listing: seq<Entry>, previous: string,
                       now: Time, opens: bool, relisting: seq<Entry>, maxLogs: nat)
    returns (files': set<string>, last: string, thrown: bool)
    requires now.Valid() && Lists(listing, files) && Lists(relisting, files + {LogName(now)})
    ensures thrown <==> !Readable(files) || (opens && !Readable(files + {LogName(now)}))
    ensures Readable(files) ==> Reported(LogNumber, files, previous, last)
    ensures opens ==> Launched(files, files', previous, last, LogName(now), thrown, maxLogs)
    ensures !opens ==> files' == files
  {
    files', last, thrown := files, previous, true;
    ThrowsUnlessReadable(listing, files);
    var newest := GetLastLog(listing, previous);
    if newest.Thrown? {
      return;
    }
    last := newest.value;
    NewestIsReported(listing, files, previous, last);
    if !opens {
      thrown := false;
      return;
    }
    files' := files + {LogName(now)};
    ThrowsUnlessReadable(relisting, files');
    var victim := OldestFile(relisting, maxLogs);
    if victim.Thrown? {
      return;
    }
    thrown := false;
    CountOfListing(relisting, files');
    if victim.value.Some? {
      OldestIsVictim(relisting, files', victim.value.value);
      if victim.value.value != "" {
        files' := files' - {victim.value.value};
      }
    }
  }

  lemma NewestIsReported(listing: seq<Entry>, files: set<string>, previous: string, last: string)
    requires Lists(listing, files)
    requires if exists e :: e in listing && IsLog(e) then IsNewest(listing, last) else last == previous
    ensures Reported(LogNumber, files, previous, last)
  {
    if Logs(LogNumber, files) != {} {
      var n :| n in Logs(LogNumber, files);
      assert Entry(n, false) in listing;
      var e :| e in listing && IsLog(e) && e.name == last && forall f :: f in listing && IsLog(f) ==> StampOf(f).n <= StampOf(e).n;
      assert e == Entry(last, false);
    } else {
      forall e | e in listing
        ensures !IsLog(e)
      {
        if !e.directory {
          assert e == Entry(e.name, false) && e.name !in Logs(LogNumber, files);
        }
      }
    }
  }

  lemma OldestIsVictim(listing: seq<Entry>, files: set<string>, v: string)
    requires Lists(listing, files)
    requires if exists e :: e in listing && IsLog(e) && StampOf(e).n < U64_MAX then IsOldest(listing, v) else v == ""
    ensures v == "" <==> NoneSmaller(LogNumber, Logs(LogNumber, files))
    ensures v != "" ==> IsLeast(LogNumber, Logs(LogNumber, files), v)
  {
    assert NameDigits("") == None && LogNumber("") == 0;
    if e :| e in listing && IsLog(e) && e.name == v && StampOf(e).n < U64_MAX &&
            forall f :: f in listing && IsLog(f) ==> StampOf(e).n <= StampOf(f).n {
      assert e == Entry(v, false);
      assert v in Logs(LogNumber, files);
      forall n | n in Logs(LogNumber, files)
        ensures LogNumber(v) <= LogNumber(n)
      {
        assert Entry(n, false) in listing;
      }
    } else {
      forall n | n in Logs(LogNumber, files)
        ensures LogNumber(n) >= U64_MAX
      {
        assert Entry(n, false) in listing;
      }
    }
  }

  /** What a directory entry counts for: directories, hidden files and names of another shape are no
      logs, and a number beyond 64 bits makes the conversion throw. */
  lemma StampsInFull(name: string, directory: bool)
    ensures StampOf(Entry(name, directory)) ==
            if directory || (name != "" && name[0] == '.') || NameDigits(name) == None then Number(0)
            else
              var n := Value(NameDigits(name).value);
              if n <= 18_446_744_073_709_551_615 then Number(n) else OutOfRange
  {
  }

  lemma NumbersFit(name: string)
    ensures LogNumber(name) <= 18_446_744_073_709_551_615
  {
  }

  /** What one rotation removes: nothing if there are no more logs than allowed, and otherwise one log
      with the smallest number, unless that is the largest number there is. */
  lemma RotationInFull(files: set<string>, files': set<string>, maxLogs: nat)
    requires Rotated(LogNumber, files, files', maxLogs)
    ensures |Logs(LogNumber, files)| <= maxLogs ==> files' == files
    ensures |Logs(LogNumber, files)| > maxLogs ==>
              exists v :: IsLeast(LogNumber, Logs(LogNumber, files), v) &&
                          files' == if LogNumber(v) < 18_446_744_073_709_551_615 then files - {v} else files
  {
    if |Logs(LogNumber, files)| > maxLogs {
      forall n
        ensures LogNumber(n) <= 18_446_744_073_709_551_615
      {
        NumbersFit(n);
      }
      LeastRemoved(LogNumber, files, files', Logs(LogNumber, files), maxLogs);
    }
  }

  lemma LeastRemoved(number: string -> nat, files: set<string>, files': set<string>, logs: set<string>, maxLogs: nat)
    requires Rotated(number, files, files', maxLogs) && logs == Logs(number, files) && |logs| > maxLogs
    requires forall n :: number(n) <= 18_446_744_073_709_551_615
    ensures exists v :: IsLeast(number, logs, v) && files' == if number(v) < 18_446_744_073_709_551_615 then files - {v} else files
  {
    if NoneSmaller(number, logs) {
      var v :| v in logs;
      assert IsLeast(number, logs, v);
    } else {
      var v :| IsLeast(number, logs, v) && files' == files - {v};
      var n :| n in logs && number(n) < U64_MAX;
      assert number(v) <= number(n);
    }
  }

  // ---------------------------------------------------------------- many launches

  /** Names whose numbers increase strictly. */
  ghost predicate InOrder(number: string -> nat, names: seq<string>) {
    && (forall i :: 0 <= i < |names| ==> 0 < number(names[i]) < U64_MAX)
    && (forall i, j :: 0 <= i < j < |names| ==> number(names[i]) < number(names[j]))
  }

  function NamesBetween(names: seq<string>, lo: nat, hi: nat): set<string>
    requires hi <= |names|
  {
    set i | lo <= i < hi :: names[i]
  }

  /** The newest maxLogs of the first n names. */
  function Newest(names: seq<string>, n: nat, maxLogs: nat): set<string>
    requires n <= |names|
  {
    NamesBetween(names, if n > maxLogs then n - maxLogs else 0, n)
  }

  lemma {:induction false} NamesAreDistinct(number: string -> nat, names: seq<string>, lo: nat, hi: nat)
    requires InOrder(number, names) && lo <= hi <= |names|
    ensures |NamesBetween(names, lo, hi)| == hi - lo
  {
    if lo < hi {
      NamesAreDistinct(number, names, lo, hi - 1);
      LastIsNew(number, names, lo, hi - 1);
      Grown(NamesBetween(names, lo, hi - 1), names[hi - 1], NamesBetween(names, lo, hi));
    } else {
      assert NamesBetween(names, lo, hi) == {};
    }
  }

  lemma LastIsNew(number: string -> nat, names: seq<string>, lo: nat, hi: nat)
    requires InOrder(number, names) && lo <= hi < |names|
    ensures names[hi] !in NamesBetween(names, lo, hi)
    ensures NamesBetween(names, lo, hi + 1) == NamesBetween(names, lo, hi) + {names[hi]}
  {
    forall i | lo <= i < hi
      ensures number(names[i]) < number(names[hi])
    {
    }
  }

  lemma Grown(small: set<string>, x: string, large: set<string>)
    requires large == small + {x} && x !in small
    ensures |large| == |small| + 1
  {
  }

  /** A run of launches: the directory before each of them and what each reports as the last log. */
  ghost predicate IsRun(number: string -> nat, dirs: seq<set<string>>, lasts: seq<string>, names: seq<string>, maxLogs: nat) {
    && |dirs| == |names| + 1 && |lasts| == |names|
    && (forall k {:trigger lasts[k]} :: 0 <= k < |names| ==> IsLaunch(number, dirs[k], dirs[k + 1], lasts[k], names[k], maxLogs))
  }

  ghost predicate IsLaunch(number: string -> nat, dir: set<string>, dir': set<string>, last: string, name: string, maxLogs: nat) {
    Reported(number, dir, "", last) && Rotated(number, dir + {name}, dir', maxLogs)
  }

  lemma LogsOfNewest(number: string -> nat, others: set<string>, names: seq<string>, lo: nat, hi: nat)
    requires InOrder(number, names) && lo <= hi <= |names| && Logs(number, others) == {}
    ensures Logs(number, others + NamesBetween(names, lo, hi)) == NamesBetween(names, lo, hi)
  {
    forall n | n in others
      ensures number(n) == 0
    {
      assert n !in Logs(number, others);
    }
  }

  lemma LaunchKeepsNewest(number: string -> nat, others: set<string>, names: seq<string>, k: nat, maxLogs: nat,
                          dir: set<string>, dir': set<string>)
    requires InOrder(number, names) && k < |names| && Logs(number, others) == {}
    requires dir == others + Newest(names, k, maxLogs) && Rotated(number, dir + {names[k]}, dir', maxLogs)
    ensures dir' == others + Newest(names, k + 1, maxLogs)
  {
    if k >= maxLogs {
      OneMore(others, names, k - maxLogs, k, Newest(names, k, maxLogs));
      WindowMoves(number, others, names, k - maxLogs, k + 1, maxLogs, dir + {names[k]}, dir');
    } else {
      OneMore(others, names, 0, k, Newest(names, k, maxLogs));
      WindowGrows(number, others, names, 0, k + 1, maxLogs, dir + {names[k]}, dir');
    }
  }

  lemma WindowMoves(number: string -> nat, others: set<string>, names: seq<string>, lo: nat, hi: nat, maxLogs: nat,
                    files: set<string>, dir': set<string>)
    requires InOrder(number, names) && lo < hi <= |names| && hi - lo > maxLogs && Logs(number, others) == {}
    requires files == others + NamesBetween(names, lo, hi) && Rotated(number, files, dir', maxLogs)
    ensures dir' == others + NamesBetween(names, lo + 1, hi)
  {
    LogsOfNewest(number, others, names, lo, hi);
    NamesAreDistinct(number, names, lo, hi);
    FirstLeaves(number, others, names, lo, hi);
    DropsLeast(number, files, NamesBetween(names, lo, hi), dir', maxLogs,
               names[lo], others + NamesBetween(names, lo + 1, hi));
  }

  lemma WindowGrows(number: string -> nat, others: set<string>, names: seq<string>, lo: nat, hi: nat, maxLogs: nat,
                    files: set<string>, dir': set<string>)
    requires InOrder(number, names) && lo <= hi <= |names| && hi - lo <= maxLogs && Logs(number, others) == {}
    requires files == others + NamesBetween(names, lo, hi) && Rotated(number, files, dir', maxLogs)
    ensures dir' == files
  {
    LogsOfNewest(number, others, names, lo, hi);
    NamesAreDistinct(number, names, lo, hi);
    KeepsAll(number, files, NamesBetween(names, lo, hi), dir', maxLogs);
  }

  lemma KeepsAll(number: string -> nat, files: set<string>, logs: set<string>, files': set<string>, maxLogs: nat)
    requires Rotated(number, files, files', maxLogs) && Logs(number, files) == logs && |logs| <= maxLogs
    ensures files' == files
  {
  }

  lemma DropsLeast(number: string -> nat, files: set<string>, logs: set<string>, files': set<string>, maxLogs: nat,
                   first: string, rest: set<string>)
    requires Rotated(number, files, files', maxLogs) && Logs(number, files) == logs && |logs| > maxLogs
    requires first in logs && number(first) < U64_MAX && forall v :: IsLeast(number, logs, v) ==> v == first
    requires files - {first} == rest
    ensures files' == rest
  {
  }

  lemma OneMore(others: set<string>, names: seq<string>, lo: nat, hi: nat, window: set<string>)
    requires lo <= hi < |names| && window == NamesBetween(names, lo, hi)
    ensures others + window + {names[hi]} == others + NamesBetween(names, lo, hi + 1)
  {
    assert NamesBetween(names, lo, hi + 1) == window + {names[hi]};
  }

  lemma FirstLeaves(number: string -> nat, others: set<string>, names: seq<string>, lo: nat, hi: nat)
    requires InOrder(number, names) && lo < hi <= |names| && Logs(number, others) == {}
    ensures names[lo] in NamesBetween(names, lo, hi)
    ensures forall v :: IsLeast(number, NamesBetween(names, lo, hi), v) ==> v == names[lo]
    ensures others + NamesBetween(names, lo, hi) - {names[lo]} == others + NamesBetween(names, lo + 1, hi)
  {
    assert names[lo] !in others by {
      assert names[lo] !in Logs(number, others);
    }
    assert NamesBetween(names, lo, hi) == NamesBetween(names, lo + 1, hi) + {names[lo]};
    assert names[lo] !in NamesBetween(names, lo + 1, hi);
  }

  lemma LastIsNewest(number: string -> nat, names: seq<string>, lo: nat, hi: nat, last: string)
    requires InOrder(number, names) && lo < hi <= |names| && last in NamesBetween(names, lo, hi)
    requires forall n :: n in NamesBetween(names, lo, hi) ==> number(n) <= number(last)
    ensures last == names[hi - 1]
  {
    assert names[hi - 1] in NamesBetween(names, lo, hi);
  }

  lemma LaunchOfRun(number: string -> nat, dirs: seq<set<string>>, lasts: seq<string>, names: seq<string>, maxLogs: nat, k: nat)
    requires IsRun(number, dirs, lasts, names, maxLogs) && k < |names|
    ensures Reported(number, dirs[k], "", lasts[k]) && Rotated(number, dirs[k] + {names[k]}, dirs[k + 1], maxLogs)
  {
    assert IsLaunch(number, dirs[k], dirs[k + 1], lasts[k], names[k], maxLogs);
  }

  lemma {:induction false} RunKeepsNewest(number: string -> nat, dirs: seq<set<string>>, lasts: seq<string>, names: seq<string>, maxLogs: nat, k: nat)
    requires InOrder(number, names) && IsRun(number, dirs, lasts, names, maxLogs)
    requires Logs(number, dirs[0]) == {} && k <= |names|
    ensures dirs[k] == dirs[0] + Newest(names, k, maxLogs)
  {
    if k == 0 {
      assert Newest(names, 0, maxLogs) == {};
    } else {
      RunKeepsNewest(number, dirs, lasts, names, maxLogs, k - 1);
      LaunchOfRun(number, dirs, lasts, names, maxLogs, k - 1);
      LaunchKeepsNewest(number, dirs[0], names, k - 1, maxLogs, dirs[k - 1], dirs[k]);
    }
  }

  lemma RunReportsPrevious(number: string -> nat, dirs: seq<set<string>>, lasts: seq<string>, names: seq<string>, maxLogs: nat, k: nat)
    requires InOrder(number, names) && IsRun(number, dirs, lasts, names, maxLogs)
    requires Logs(number, dirs[0]) == {} && k < |names|
    ensures lasts[k] == if k == 0 || maxLogs == 0 then "" else names[k - 1]
  {
    var lo := if k > maxLogs then k - maxLogs else 0;
    RunKeepsNewest(number, dirs, lasts, names, maxLogs, k);
    LaunchOfRun(number, dirs, lasts, names, maxLogs, k);
    LogsOfNewest(number, dirs[0], names, lo, k);
    if k > 0 && maxLogs > 0 {
      assert names[k - 1] in NamesBetween(names, lo, k);
      LastIsNewest(number, names, lo, k, lasts[k]);
    }
  }

  /** Valid, increasing launch times within the range of the 64-bit numbers. */
  ghost predicate Increasing(times: seq<Time>) {
    && (forall i :: 0 <= i < |times| ==> times[i].Valid() && TimeNumber(times[i]) < 18_446_744_073_709_551_615)
    && (forall i, j :: 0 <= i < j < |times| ==> times[i].Before(times[j]))
  }

  function LogNames(times: seq<Time>): seq<string>
    requires forall i :: 0 <= i < |times| ==> times[i].Valid()
  {
    seq(|times|, i requires 0 <= i < |times| => LogName(times[i]))
  }

  lemma NumberOfLaunch(t: Time)
    requires t.Valid() && TimeNumber(t) <= U64_MAX
    ensures LogNumber(LogName(t)) == TimeNumber(t) > 0
  {
    LogNameReadsBack(t);
    StartsWithDigit(t);
  }

  lemma StartsWithDigit(t: Time)
    requires t.Valid()
    ensures LogName(t) != [] && IsDigit(LogName(t)[0])
  {
    assert LogName(t)[0] == Dec(t.year)[0];
  }

  lemma LaunchesInOrder(times: seq<Time>)
    requires Increasing(times)
    ensures InOrder(LogNumber, LogNames(times))
  {
    forall i | 0 <= i < |times|
      ensures LogNumber(LogNames(times)[i]) == TimeNumber(times[i]) > 0
    {
      NumberOfLaunch(times[i]);
    }
    forall i, j | 0 <= i < j < |times|
      ensures TimeNumber(times[i]) < TimeNumber(times[j])
    {
      NumbersFollowTime(times[i], times[j]);
    }
  }

  /** Launches one after the other, each by a new process that has no last log yet. */
  ghost predicate AreLaunches(dirs: seq<set<string>>, lasts: seq<string>, thrown: seq<bool>, names: seq<string>, maxLogs: nat) {
    && |dirs| == |names| + 1 && |lasts| == |thrown| == |names|
    && (forall k {:trigger lasts[k]} :: 0 <= k < |names| ==>
          Launched(dirs[k], dirs[k + 1], "", lasts[k], names[k], thrown[k], maxLogs))
  }

  lemma ReadableStays(files: set<string>, files': set<string>, last: string, t: Time, thrown: bool, maxLogs: nat)
    requires t.Valid() && TimeNumber(t) < U64_MAX && Readable(files)
    requires Launched(files, files', "", last, LogName(t), thrown, maxLogs)
    ensures !thrown && Readable(files')
  {
    NumberOfLaunch(t);
    assert StampOf(Entry(LogName(t), false)).Number?;
  }

  lemma LaunchAt(dirs: seq<set<string>>, lasts: seq<string>, thrown: seq<bool>, names: seq<string>, maxLogs: nat, k: nat)
    requires AreLaunches(dirs, lasts, thrown, names, maxLogs) && k < |names|
    ensures Launched(dirs[k], dirs[k + 1], "", lasts[k], names[k], thrown[k], maxLogs)
  {
    assert lasts[k] == lasts[k];
  }

  lemma UnreadableStays(files: set<string>, files': set<string>, last: string, name: string, thrown: bool, maxLogs: nat)
    requires Launched(files, files', "", last, name, thrown, maxLogs) && !Readable(files)
    ensures thrown && files' == files
  {
  }

  lemma LaunchReads(dirs: seq<set<string>>, lasts: seq<string>, thrown: seq<bool>, times: seq<Time>, maxLogs: nat, k: nat)
    requires Increasing(times) && AreLaunches(dirs, lasts, thrown, LogNames(times), maxLogs)
    requires k < |times| && Readable(dirs[k])
    ensures !thrown[k] && Readable(dirs[k + 1])
    ensures IsLaunch(LogNumber, dirs[k], dirs[k + 1], lasts[k], LogNames(times)[k], maxLogs)
  {
    LaunchAt(dirs, lasts, thrown, LogNames(times), maxLogs, k);
    ReadableStays(dirs[k], dirs[k + 1], lasts[k], times[k], thrown[k], maxLogs);
  }

  lemma {:induction false} AllHold(holds: seq<bool>, k: nat)
    requires k < |holds| && holds[0] && forall j {:trigger holds[j]} :: 0 < j < |holds| && holds[j - 1] ==> holds[j]
    ensures holds[k]
  {
    if k > 0 {
      AllHold(holds, k - 1);
    }
  }

  lemma StaysReadable(dirs: seq<set<string>>, lasts: seq<string>, thrown: seq<bool>, times: seq<Time>, maxLogs: nat, k: nat)
    requires Increasing(times) && AreLaunches(dirs, lasts, thrown, LogNames(times), maxLogs)
    requires k <= |times| && Readable(dirs[0])
    ensures Readable(dirs[k])
  {
    var readable := seq(|dirs|, j requires 0 <= j < |dirs| => Readable(dirs[j]));
    forall j {:trigger readable[j]} | 0 < j < |readable| && readable[j - 1]
      ensures readable[j]
    {
      assert Readable(dirs[j - 1]);
      LaunchReads(dirs, lasts, thrown, times, maxLogs, j - 1);
    }
    AllHold(readable, k);
    assert readable[k] == Readable(dirs[k]);
  }

  lemma AreRun(dirs: seq<set<string>>, lasts: seq<string>, thrown: seq<bool>, times: seq<Time>, maxLogs: nat)
    requires Increasing(times) && AreLaunches(dirs, lasts, thrown, LogNames(times), maxLogs) && Readable(dirs[0])
    ensures IsRun(LogNumber, dirs, lasts, LogNames(times), maxLogs)
  {
    forall k {:trigger lasts[k]} | 0 <= k < |times|
      ensures IsLaunch(LogNumber, dirs[k], dirs[k + 1], lasts[k], LogNames(times)[k], maxLogs)
    {
      StaysReadable(dirs, lasts, thrown, times, maxLogs, k);
      LaunchReads(dirs, lasts, thrown, times, maxLogs, k);
    }
  }

  /** With launches at increasing times, if no name in the directory is out of range at first, no
      launch throws; the directory always holds exactly the newest logs, as many as there are or as
      may be kept, next to the files that are no logs; and if a log may be kept, every launch but the
      first reports the log of the launch before it. */
  lemma RetentionOverRuns(dirs: seq<set<string>>, lasts: seq<string>, thrown: seq<bool>, times: seq<Time>, maxLogs: nat, k: nat)
    requires Increasing(times) && AreLaunches(dirs, lasts, thrown, LogNames(times), maxLogs)
    requires Readable(dirs[0]) && Logs(LogNumber, dirs[0]) == {} && k <= |times|
    ensures dirs[k] == dirs[0] + Newest(LogNames(times), k, maxLogs)
    ensures |Newest(LogNames(times), k, maxLogs)| == if k < maxLogs then k else maxLogs
    ensures k < |times| ==> !thrown[k] && lasts[k] == if k == 0 || maxLogs == 0 then "" else LogNames(times)[k - 1]
  {
    LaunchesInOrder(times);
    AreRun(dirs, lasts, thrown, times, maxLogs);
    RunKeepsNewest(LogNumber, dirs, lasts, LogNames(times), maxLogs, k);
    NamesAreDistinct(LogNumber, LogNames(times), if k > maxLogs then k - maxLogs else 0, k);
    if k < |times| {
      StaysReadable(dirs, lasts, thrown, times, maxLogs, k);
      LaunchReads(dirs, lasts, thrown, times, maxLogs, k);
      RunReportsPrevious(LogNumber, dirs, lasts, LogNames(times), maxLogs, k);
    }
  }

  lemma UnreadableLaunch(dirs: seq<set<string>>, lasts: seq<string>, thrown: seq<bool>, names: seq<string>, maxLogs: nat, k: nat)
    requires AreLaunches(dirs, lasts, thrown, names, maxLogs) && k < |names| && !Readable(dirs[k])
    ensures thrown[k] && dirs[k + 1] == dirs[k]
  {
    LaunchAt(dirs, lasts, thrown, names, maxLogs, k);
    UnreadableStays(dirs[k], dirs[k + 1], lasts[k], names[k], thrown[k], maxLogs);
  }

  lemma NothingChanges(dirs: seq<set<string>>, lasts: seq<string>, thrown: seq<bool>, names: seq<string>, maxLogs: nat, k: nat)
    requires AreLaunches(dirs, lasts, thrown, names, maxLogs) && !Readable(dirs[0]) && k <= |names|
    ensures dirs[k] == dirs[0]
  {
    var same := seq(|dirs|, j requires 0 <= j < |dirs| => dirs[j] == dirs[0]);
    forall j | 0 < j < |dirs| && same[j - 1]
      ensures same[j]
    {
      UnreadableLaunch(dirs, lasts, thrown, names, maxLogs, j - 1);
    }
    AllHold(same, k);
  }

  /** With a name out of range in the directory every launch throws and nothing changes any more. */
  lemma UnreadableStops(dirs: seq<set<string>>, lasts: seq<string>, thrown: seq<bool>, names: seq<string>, maxLogs: nat, k: nat)
    requires AreLaunches(dirs, lasts, thrown, names, maxLogs) && !Readable(dirs[0]) && k <= |names|
    ensures dirs[k] == dirs[0] && forall j :: 0 <= j < |names| ==> thrown[j]
  {
    NothingChanges(dirs, lasts, thrown, names, maxLogs, k);
    forall j | 0 <= j < |names|
      ensures thrown[j]
    {
      NothingChanges(dirs, lasts, thrown, names, maxLogs, j);
      UnreadableLaunch(dirs, lasts, thrown, names, maxLogs, j);
    }
  }
}
