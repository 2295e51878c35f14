/** The frame rates a property offers: common ones that the device supports, and the ends of the
    ranges it supports, inserted where they belong unless a rate close by is listed already. */
module FrameRates {
  import opened Ratios
  import opened Sequences
  import opened Wrappers

  datatype Rate = Rate(num: nat, den: nat) {
    predicate Valid() {
      num > 0 && den > 0
    }

    function Fps(): real
      requires Valid()
    {
      num as real / den as real
    }

    function Interval(): real
      requires Valid()
    {
      den as real / num as real
    }
  }

  type ValidRate = r: Rate | r.Valid() witness Rate(1, 1)

  datatype Range = Range(low: ValidRate, high: ValidRate)

  /** A list entry; inserted ones have no name. */
  datatype Item = Item(name: Option<string>, fps: ValidRate)

  function Distance(a: real, b: real): real {
    if a >= b then a - b else b - a
  }

  predicate Close(a: ValidRate, b: ValidRate) {
    Distance(a.Fps(), b.Fps()) < 0.01
  }

  function Inserted(items: seq<Item>, fps: ValidRate): seq<Item> {
    if items == [] then [Item(None, fps)]
    else if Close(items[0].fps, fps) then items
    else if items[0].fps.Fps() > fps.Fps() then [items[0]] + Inserted(items[1..], fps)
    else [Item(None, fps)] + items
  }

  function Added(items: seq<Item>, ranges: seq<Range>): seq<Item> {
    if ranges == [] then items
    else
      var range := ranges[|ranges| - 1];
      Inserted(Inserted(Added(items, ranges[..|ranges| - 1]), range.low), range.high)
  }

  method InsertFPS(items: seq<Item>, fps: ValidRate) returns (items': seq<Item>)
    ensures items' == Inserted(items, fps)
  {
    var i := 0;
    while i < |items|
      invariant 0 <= i <= |items|
      invariant Inserted(items, fps) == items[..i] + Inserted(items[i..], fps)
    {
      var val := items[i].fps.Fps();
      if Distance(val, fps.Fps()) < 0.01 {
        assert items[..i] + items[i..] == items;
        return items;
      }
      if !(val > fps.Fps()) {
        break;
      }
      PassOver(items, i, Inserted(items[i + 1..], fps));
      i := i + 1;
    }
    items' := items[..i] + [Item(None, fps)] + items[i..];
  }

  lemma PassOver(items: seq<Item>, i: nat, tail: seq<Item>)
    requires i < |items|
    ensures items[i..][0] == items[i] && items[i..][1..] == items[i + 1..]
    ensures items[..i] + ([items[i]] + tail) == items[..i + 1] + tail
  {
  }

  method AddFPSRanges(items: seq<Item>, ranges: seq<Range>) returns (items': seq<Item>)
    ensures items' == Added(items, ranges)
  {
    items' := items;
    for i := 0 to |ranges|
      invariant items' == Added(items, ranges[..i])
    {
      assert ranges[..i + 1][..i] == ranges[..i];
      items' := InsertFPS(items', ranges[i].low);
      items' := InsertFPS(items', ranges[i].high);
    }
    assert ranges[..|ranges|] == ranges;
  }

  // ---------------------------------------------------------------- the shape of the list

  /** Descending, with gaps of at least 0.01 between any two rates. */
  ghost predicate Descending(items: seq<Item>) {
    forall i, j :: 0 <= i < j < |items| ==> items[i].fps.Fps() >= items[j].fps.Fps() + 0.01
  }

  lemma {:induction false} InsertedItems(items: seq<Item>, fps: ValidRate)
    ensures forall x :: x in Inserted(items, fps) ==> x in items || x == Item(None, fps)
  {
    if items != [] {
      InsertedItems(items[1..], fps);
    }
  }

  lemma {:induction false} InsertedDescends(items: seq<Item>, fps: ValidRate)
    requires Descending(items)
    ensures Descending(Inserted(items, fps))
  {
    if items != [] && !Close(items[0].fps, fps) && items[0].fps.Fps() > fps.Fps() {
      var rest := Inserted(items[1..], fps);
      InsertedDescends(items[1..], fps);
      InsertedItems(items[1..], fps);
      forall j | 0 <= j < |rest|
        ensures items[0].fps.Fps() >= rest[j].fps.Fps() + 0.01
      {
        if rest[j] in items[1..] {
          var k :| 0 <= k < |items[1..]| && items[1..][k] == rest[j];
          assert items[k + 1] == rest[j];
        }
      }
    }
  }

  lemma {:induction false} AddedDescends(items: seq<Item>, ranges: seq<Range>)
    requires Descending(items)
    ensures Descending(Added(items, ranges))
  {
    if ranges != [] {
      var front, range := Added(items, ranges[..|ranges| - 1]), ranges[|ranges| - 1];
      AddedDescends(items, ranges[..|ranges| - 1]);
      InsertedDescends(front, range.low);
      InsertedDescends(Inserted(front, range.low), range.high);
    }
  }

  // ---------------------------------------------------------------- old entries stay

  /** a can be had by leaving out entries of b. */
  predicate Subsequence<T(==)>(a: seq<T>, b: seq<T>) {
    a == [] || (b != [] && ((a[0] == b[0] && Subsequence(a[1..], b[1..])) || Subsequence(a, b[1..])))
  }

  lemma {:induction false} SubsequenceOfItself<T>(a: seq<T>)
    ensures Subsequence(a, a)
  {
    if a != [] {
      SubsequenceOfItself(a[1..]);
    }
  }

  lemma {:induction false} SubsequenceTransitive<T>(a: seq<T>, b: seq<T>, c: seq<T>)
    requires Subsequence(a, b) && Subsequence(b, c)
    ensures Subsequence(a, c)
    decreases |b| + |c|
  {
    if a != [] {
      if b[0] == c[0] && Subsequence(b[1..], c[1..]) {
        if a[0] == b[0] && Subsequence(a[1..], b[1..]) {
          SubsequenceTransitive(a[1..], b[1..], c[1..]);
        } else {
          SubsequenceTransitive(a, b[1..], c[1..]);
        }
      } else {
        SubsequenceTransitive(a, b, c[1..]);
      }
    }
  }

  lemma {:induction false} InsertedKeeps(items: seq<Item>, fps: ValidRate)
    ensures Subsequence(items, Inserted(items, fps))
  {
    if items != [] {
      var t := Inserted(items, fps);
      if Close(items[0].fps, fps) {
        SubsequenceOfItself(items);
      } else if items[0].fps.Fps() > fps.Fps() {
        InsertedKeeps(items[1..], fps);
        assert t[1..] == Inserted(items[1..], fps);
      } else {
        SubsequenceOfItself(items);
        assert t[1..] == items;
      }
    }
  }

  /** The old entries stay in their order, and what is added are ends of ranges, without a name. */
  lemma {:induction false} AddedKeeps(items: seq<Item>, ranges: seq<Range>)
    ensures Subsequence(items, Added(items, ranges))
    ensures forall x :: x in Added(items, ranges) ==>
              x in items || exists r :: r in ranges && (x == Item(None, r.low) || x == Item(None, r.high))
  {
    if ranges == [] {
      SubsequenceOfItself(items);
    } else {
      var front, range := Added(items, ranges[..|ranges| - 1]), ranges[|ranges| - 1];
      var lower := Inserted(front, range.low);
      AddedKeeps(items, ranges[..|ranges| - 1]);
      InsertedKeeps(front, range.low);
      InsertedKeeps(lower, range.high);
      SubsequenceTransitive(items, front, lower);
      SubsequenceTransitive(items, lower, Added(items, ranges));
      InsertedItems(front, range.low);
      InsertedItems(lower, range.high);
      assert ranges == ranges[..|ranges| - 1] + [range];
    }
  }

  lemma {:induction false} SubsequenceItems<T>(a: seq<T>, b: seq<T>)
    requires Subsequence(a, b)
    ensures forall x :: x in a ==> x in b
  {
    if a != [] {
      assert b == [b[0]] + b[1..];
      if a[0] == b[0] && Subsequence(a[1..], b[1..]) {
        SubsequenceItems(a[1..], b[1..]);
        assert a == [a[0]] + a[1..];
      } else {
        SubsequenceItems(a, b[1..]);
      }
    }
  }

  lemma {:induction false} SubsequenceDescends(a: seq<Item>, b: seq<Item>)
    requires Subsequence(a, b) && Descending(b)
    ensures Descending(a)
  {
    if a != [] {
      if a[0] == b[0] && Subsequence(a[1..], b[1..]) {
        SubsequenceDescends(a[1..], b[1..]);
        SubsequenceItems(a[1..], b[1..]);
        forall j | 0 < j < |a|
          ensures a[0].fps.Fps() >= a[j].fps.Fps() + 0.01
        {
          assert a[1..][j - 1] in b[1..];
        }
        assert forall j :: 0 < j < |a| ==> a[j] == a[1..][j - 1];
      } else {
        SubsequenceDescends(a, b[1..]);
      }
    }
  }

  /** The list is in order afterwards exactly if it was before. */
  lemma AddingKeepsOrder(items: seq<Item>, ranges: seq<Range>)
    ensures Descending(Added(items, ranges)) <==> Descending(items)
  {
    if Descending(items) {
      AddedDescends(items, ranges);
    }
    if Descending(Added(items, ranges)) {
      AddedKeeps(items, ranges);
      SubsequenceDescends(items, Added(items, ranges));
    }
  }

  // ---------------------------------------------------------------- the ends are listed

  /** Looking for a rate comes upon one close to it, past greater ones only. */
  predicate Reached(items: seq<Item>, fps: ValidRate) {
    items != [] &&
    (Close(items[0].fps, fps) || (items[0].fps.Fps() > fps.Fps() && Reached(items[1..], fps)))
  }

  lemma {:induction false} InsertedReaches(items: seq<Item>, fps: ValidRate)
    ensures Reached(Inserted(items, fps), fps)
  {
    if items != [] && !Close(items[0].fps, fps) && items[0].fps.Fps() > fps.Fps() {
      InsertedReaches(items[1..], fps);
      assert Inserted(items, fps)[1..] == Inserted(items[1..], fps);
    }
  }

  lemma {:induction false} ReachedStays(items: seq<Item>, other: ValidRate, fps: ValidRate)
    requires Reached(items, fps)
    ensures Reached(Inserted(items, other), fps)
  {
    var t := Inserted(items, other);
    if !Close(items[0].fps, other) {
      if items[0].fps.Fps() > other.Fps() {
        assert t[1..] == Inserted(items[1..], other);
        if !Close(items[0].fps, fps) {
          ReachedStays(items[1..], other, fps);
        }
      } else {
        assert t[1..] == items;
      }
    }
  }

  lemma {:induction false} ReachedIsListed(items: seq<Item>, fps: ValidRate)
    requires Reached(items, fps)
    ensures exists k: nat :: k < |items| && Close(items[k].fps, fps)
    ensures Inserted(items, fps) == items
  {
    if !Close(items[0].fps, fps) {
      ReachedIsListed(items[1..], fps);
      var k: nat :| k < |items[1..]| && Close(items[1..][k].fps, fps);
      assert items[1..][k] == items[k + 1];
      assert items == [items[0]] + items[1..];
    }
  }

  /** Where a rate goes: the scan passes the rates that are greater by 0.01 or more.  If the next one is
      less than 0.01 away nothing is added; otherwise the rate is put in front of it, or at the end. */
  lemma {:induction false} InsertedExactly(a: seq<Item>, b: seq<Item>, fps: ValidRate)
    requires forall x :: x in a ==> x.fps.Fps() >= fps.Fps() + 0.01
    requires b != [] ==> b[0].fps.Fps() < fps.Fps() + 0.01
    ensures Inserted(a + b, fps) ==
            if b != [] && b[0].fps.Fps() > fps.Fps() - 0.01 then a + b else a + [Item(None, fps)] + b
  {
    if a == [] {
      assert a + b == b && a + [Item(None, fps)] + b == [Item(None, fps)] + b;
    } else {
      InsertedExactly(a[1..], b, fps);
      InsertedPast(a[0], a[1..] + b, fps);
      TailsOfConcat(a, [Item(None, fps)], b);
    }
  }

  lemma InsertedPast(x: Item, items: seq<Item>, fps: ValidRate)
    requires x.fps.Fps() >= fps.Fps() + 0.01
    ensures Inserted([x] + items, fps) == [x] + Inserted(items, fps)
  {
    assert ([x] + items)[1..] == items;
  }

  lemma TailsOfConcat<T>(a: seq<T>, x: seq<T>, b: seq<T>)
    requires a != []
    ensures a + b == [a[0]] + (a[1..] + b) && a + x + b == [a[0]] + (a[1..] + x + b)
  {
  }

  lemma {:induction false} PassedRates(items: seq<Item>, fps: ValidRate) returns (n: nat)
    ensures n <= |items| && (n < |items| ==> items[n].fps.Fps() < fps.Fps() + 0.01)
    ensures forall k :: 0 <= k < n ==> items[k].fps.Fps() >= fps.Fps() + 0.01
  {
    if items == [] || items[0].fps.Fps() < fps.Fps() + 0.01 {
      n := 0;
    } else {
      n := PassedRates(items[1..], fps);
      assert forall k :: 0 < k <= n ==> items[k] == items[1..][k - 1];
      n := n + 1;
    }
  }

  /** In a descending list that is the place among all: a rate that is at least 0.01 from every one
      listed is added, and any other is not. */
  lemma FarRateIsAdded(items: seq<Item>, fps: ValidRate)
    requires Descending(items)
    ensures Inserted(items, fps) == items <==> exists k :: 0 <= k < |items| && -0.01 < items[k].fps.Fps() - fps.Fps() < 0.01
    ensures Inserted(items, fps) != items ==>
              exists n: nat :: n <= |items| && Inserted(items, fps) == items[..n] + [Item(None, fps)] + items[n..]
  {
    var n := PassedRates(items, fps);
    OnlyNextIsNear(items, fps, n);
    InsertedAtPlace(items, fps, n);
  }

  lemma OnlyNextIsNear(items: seq<Item>, fps: ValidRate, n: nat)
    requires Descending(items) && n <= |items| && (n < |items| ==> items[n].fps.Fps() < fps.Fps() + 0.01)
    requires forall k :: 0 <= k < n ==> items[k].fps.Fps() >= fps.Fps() + 0.01
    ensures (exists k :: 0 <= k < |items| && -0.01 < items[k].fps.Fps() - fps.Fps() < 0.01) <==>
              n < |items| && items[n].fps.Fps() > fps.Fps() - 0.01
  {
  }

  lemma InsertedAtPlace(items: seq<Item>, fps: ValidRate, n: nat)
    requires n <= |items| && (n < |items| ==> items[n].fps.Fps() < fps.Fps() + 0.01)
    requires forall k :: 0 <= k < n ==> items[k].fps.Fps() >= fps.Fps() + 0.01
    ensures Inserted(items, fps) ==
            if n < |items| && items[n].fps.Fps() > fps.Fps() - 0.01 then items
            else items[..n] + [Item(None, fps)] + items[n..]
    ensures |items[..n] + [Item(None, fps)] + items[n..]| == |items| + 1
  {
    assert items[..n] + items[n..] == items;
    InsertedExactly(items[..n], items[n..], fps);
  }

  ghost predicate AllReached(items: seq<Item>, ranges: seq<Range>) {
    forall i :: 0 <= i < |ranges| ==> Reached(items, ranges[i].low) && Reached(items, ranges[i].high)
  }

  lemma {:induction false} AddedReaches(items: seq<Item>, ranges: seq<Range>)
    ensures AllReached(Added(items, ranges), ranges)
  {
    if ranges != [] {
      var n := |ranges| - 1;
      var front, range := Added(items, ranges[..n]), ranges[n];
      var lower := Inserted(front, range.low);
      AddedReaches(items, ranges[..n]);
      InsertedReaches(front, range.low);
      InsertedReaches(lower, range.high);
      ReachedStays(lower, range.high, range.low);
      forall i | 0 <= i < n
        ensures Reached(Added(items, ranges), ranges[i].low) && Reached(Added(items, ranges), ranges[i].high)
      {
        assert ranges[..n][i] == ranges[i];
        ReachedStays(front, range.low, ranges[i].low);
        ReachedStays(lower, range.high, ranges[i].low);
        ReachedStays(front, range.low, ranges[i].high);
        ReachedStays(lower, range.high, ranges[i].high);
      }
    }
  }

  /** Whatever the list, both ends of every range have a rate less than 0.01 away in the end. */
  lemma EndsAreListed(items: seq<Item>, ranges: seq<Range>, i: nat)
    requires i < |ranges|
    ensures exists k: nat :: k < |Added(items, ranges)| &&
                             -0.01 < Added(items, ranges)[k].fps.Fps() - ranges[i].low.Fps() < 0.01
    ensures exists k: nat :: k < |Added(items, ranges)| &&
                             -0.01 < Added(items, ranges)[k].fps.Fps() - ranges[i].high.Fps() < 0.01
  {
    AddedReaches(items, ranges);
    ReachedIsListed(Added(items, ranges), ranges[i].low);
    ReachedIsListed(Added(items, ranges), ranges[i].high);
  }

  lemma {:induction false} NothingToAdd(items: seq<Item>, ranges: seq<Range>)
    requires AllReached(items, ranges)
    ensures Added(items, ranges) == items
  {
    if ranges != [] {
      var n := |ranges| - 1;
      assert AllReached(items, ranges[..n]) by {
        assert forall i :: 0 <= i < n ==> ranges[..n][i] == ranges[i];
      }
      NothingToAdd(items, ranges[..n]);
      ReachedIsListed(items, ranges[n].low);
      ReachedIsListed(items, ranges[n].high);
    }
  }

  /** Adding the same ranges again adds nothing. */
  lemma AddingTwice(items: seq<Item>, ranges: seq<Range>)
    ensures Added(Added(items, ranges), ranges) == Added(items, ranges)
  {
    AddedReaches(items, ranges);
    NothingToAdd(Added(items, ranges), ranges);
  }

  // ---------------------------------------------------------------- the common rates

  const COMMON_FPS: seq<Item> :=
    [Item(Some("60"), Rate(60, 1)), Item(Some("59.94"), Rate(60000, 1001)), Item(Some("50"), Rate(50, 1)),
     Item(Some("48"), Rate(48, 1)), Item(Some("30"), Rate(30, 1)), Item(Some("29.97"), Rate(30000, 1001)),
     Item(Some("25"), Rate(25, 1)), Item(Some("24"), Rate(24, 1)), Item(Some("23.976"), Rate(24000, 1001))]

  predicate InRange(fps: ValidRate, range: Range) {
    range.high.Interval() <= fps.Interval() <= range.low.Interval()
  }

  /** In terms of the rates: at least the low end and at most the high one. */
  lemma InRangeExactly(fps: ValidRate, range: Range)
    ensures InRange(fps, range) <==>
              range.low.num * fps.den <= fps.num * range.low.den && fps.num * range.high.den <= range.high.num * fps.den
  {
    Shorter(fps, range.low);
    Shorter(range.high, fps);
  }

  lemma Shorter(a: ValidRate, b: ValidRate)
    ensures a.Interval() <= b.Interval() <==> b.num * a.den <= a.num * b.den
  {
    var x, y := a.Interval(), b.Interval();
    var p, q, m, n := a.num as real, b.num as real, a.den as real, b.den as real;
    assert x * p == m && y * q == n;
    assert x * (p * q) == m * q && y * (p * q) == n * p;
    BoundTimes(x, y, p * q);
    assert m * q <= n * p <==> b.num * a.den <= a.num * b.den;
  }

  /** The search through the ranges: the first range around the rate decides, otherwise the last
      near miss; best is the near miss so far. */
  function BestMatch(fps: ValidRate, ranges: seq<Range>, best: Option<ValidRate>): Option<ValidRate> {
    if ranges == [] then best
    else if InRange(fps, ranges[0]) then Some(fps)
    else
      var val := fps.Interval();
      var epsilon := val * 0.00001;
      if Distance(ranges[0].high.Interval(), val) < epsilon then BestMatch(fps, ranges[1..], Some(ranges[0].low))
      else if Distance(ranges[0].low.Interval(), val) < epsilon then BestMatch(fps, ranges[1..], Some(ranges[0].high))
      else BestMatch(fps, ranges[1..], best)
  }

  function MatchesRanges(fps: ValidRate, ranges: seq<Range>): Option<ValidRate> {
    BestMatch(fps, ranges, None)
  }

  /** The supported ones of the common rates, each with the rate that matched. */
  function Supported(common: seq<Item>, ranges: seq<Range>): seq<Item> {
    if common == [] then []
    else Matched(common[0], ranges) + Supported(common[1..], ranges)
  }

  function Matched(c: Item, ranges: seq<Range>): seq<Item> {
    var best := MatchesRanges(c.fps, ranges);
    if best.Some? then [Item(c.name, best.value)] else []
  }

  lemma SupportedStep(common: seq<Item>, ranges: seq<Range>, i: nat, items: seq<Item>)
    requires i < |common|
    ensures items + Supported(common[i..], ranges) == (items + Matched(common[i], ranges)) + Supported(common[i + 1..], ranges)
  {
    var rest := common[i..];
    assert rest[1..] == common[i + 1..];
    Associative(items, Matched(rest[0], ranges), Supported(rest[1..], ranges));
  }

  method FindMatch(fps: ValidRate, ranges: seq<Range>) returns (best: Option<ValidRate>)
    ensures best == MatchesRanges(fps, ranges)
  {
    var val := fps.Interval();
    var epsilon := val * 0.00001;
    best := None;
    for i := 0 to |ranges|
      invariant MatchesRanges(fps, ranges) == BestMatch(fps, ranges[i..], best)
    {
      assert ranges[i..][1..] == ranges[i + 1..];
      if InRange(fps, ranges[i]) {
        return Some(fps);
      }
      var minDist := Distance(ranges[i].high.Interval(), val);
      var maxDist := Distance(ranges[i].low.Interval(), val);
      if minDist < epsilon {
        best := Some(ranges[i].low);
      } else if maxDist < epsilon {
        best := Some(ranges[i].high);
      }
    }
  }

  method CreateSimpleFPSValues(common: seq<Item>, ranges: seq<Range>) returns (items: seq<Item>)
    ensures items == Added(Supported(common, ranges), ranges)
  {
    items := SupportedRates(common, ranges);
    items := AddFPSRanges(items, ranges);
  }

  method SupportedRates(common: seq<Item>, ranges: seq<Range>) returns (items: seq<Item>)
    ensures items == Supported(common, ranges)
  {
    items := [];
    for i := 0 to |common|
      invariant Supported(common, ranges) == items + Supported(common[i..], ranges)
    {
      SupportedStep(common, ranges, i, items);
      var best := FindMatch(common[i].fps, ranges);
      items := items + if best.Some? then [Item(common[i].name, best.value)] else [];
    }
  }

  // ---------------------------------------------------------------- which range decides

  ghost predicate InSome(fps: ValidRate, ranges: seq<Range>) {
    exists r :: r in ranges && InRange(fps, r)
  }

  predicate NearEnd(fps: ValidRate, end: ValidRate) {
    Distance(end.Interval(), fps.Interval()) < fps.Interval() * 0.00001
  }

  predicate Near(fps: ValidRate, range: Range) {
    NearEnd(fps, range.high) || NearEnd(fps, range.low)
  }

  /** What a range puts in the place of a rate near one of its ends: its other end. */
  function OtherEnd(fps: ValidRate, range: Range): ValidRate {
    if NearEnd(fps, range.high) then range.low else range.high
  }

  ghost predicate LastNear(fps: ValidRate, ranges: seq<Range>, k: nat) {
    k < |ranges| && Near(fps, ranges[k]) && forall j :: k < j < |ranges| ==> !Near(fps, ranges[j])
  }

  lemma {:induction false} InRangeDecides(fps: ValidRate, ranges: seq<Range>, best: Option<ValidRate>)
    requires InSome(fps, ranges)
    ensures BestMatch(fps, ranges, best) == Some(fps)
  {
    if !InRange(fps, ranges[0]) {
      var r :| r in ranges && InRange(fps, r);
      assert r in ranges[1..];
      InRangeDecides(fps, ranges[1..], Some(ranges[0].low));
      InRangeDecides(fps, ranges[1..], Some(ranges[0].high));
      InRangeDecides(fps, ranges[1..], best);
    }
  }

  lemma {:induction false} NothingNearDecides(fps: ValidRate, ranges: seq<Range>, best: Option<ValidRate>)
    requires !InSome(fps, ranges) && forall j :: 0 <= j < |ranges| ==> !Near(fps, ranges[j])
    ensures BestMatch(fps, ranges, best) == best
  {
    if ranges != [] {
      assert ranges[0] in ranges;
      NothingNearDecides(fps, ranges[1..], best);
    }
  }

  lemma {:induction false} LastNearDecides(fps: ValidRate, ranges: seq<Range>, best: Option<ValidRate>, k: nat)
    requires !InSome(fps, ranges) && LastNear(fps, ranges, k)
    ensures BestMatch(fps, ranges, best) == Some(OtherEnd(fps, ranges[k]))
  {
    var rest := ranges[1..];
    assert ranges[0] in ranges;
    if k == 0 {
      NothingNearDecides(fps, rest, Some(OtherEnd(fps, ranges[0])));
    } else {
      var best' := if Near(fps, ranges[0]) then Some(OtherEnd(fps, ranges[0])) else best;
      LastNearDecides(fps, rest, best', k - 1);
    }
  }

  lemma {:induction false} LastNearExists(fps: ValidRate, ranges: seq<Range>)
    requires exists r :: r in ranges && Near(fps, r)
    ensures exists k: nat :: LastNear(fps, ranges, k)
  {
    var n := |ranges| - 1;
    if Near(fps, ranges[n]) {
      assert LastNear(fps, ranges, n);
    } else {
      LastNearExists(fps, ranges[..n]);
      var k: nat :| LastNear(fps, ranges[..n], k);
      assert LastNear(fps, ranges, k);
    }
  }

  /** A rate within a range stands for itself.  Otherwise the last range with an end near it decides
      and puts its other end in the rate's place. */
  lemma MatchExactly(fps: ValidRate, ranges: seq<Range>)
    ensures InSome(fps, ranges) ==> MatchesRanges(fps, ranges) == Some(fps)
    ensures forall k: nat :: !InSome(fps, ranges) && LastNear(fps, ranges, k) ==>
              MatchesRanges(fps, ranges) == Some(OtherEnd(fps, ranges[k]))
    ensures MatchesRanges(fps, ranges).Some? <==> exists r :: r in ranges && (InRange(fps, r) || Near(fps, r))
  {
    if InSome(fps, ranges) {
      InRangeDecides(fps, ranges, None);
    } else {
      forall k: nat | LastNear(fps, ranges, k)
        ensures MatchesRanges(fps, ranges) == Some(OtherEnd(fps, ranges[k]))
      {
        LastNearDecides(fps, ranges, None, k);
      }
      if r :| r in ranges && Near(fps, r) {
        LastNearExists(fps, ranges);
      } else {
        NothingNearDecides(fps, ranges, None);
      }
    }
  }

  ghost predicate Ordered(ranges: seq<Range>) {
    forall r :: r in ranges ==> r.high.Interval() <= r.low.Interval()
  }

  lemma SameInterval(a: ValidRate, b: ValidRate)
    requires a.Fps() == b.Fps()
    ensures a.Interval() == b.Interval()
  {
    assert a.Fps() * a.Interval() == 1.0 == b.Fps() * b.Interval();
  }

  /** The rate that decides is no other than fps itself. */
  ghost predicate SentBack(fps: ValidRate, ranges: seq<Range>) {
    exists k: nat :: LastNear(fps, ranges, k) && OtherEnd(fps, ranges[k]).Fps() == fps.Fps()
  }

  ghost predicate StandsForItself(fps: ValidRate, ranges: seq<Range>) {
    var best := MatchesRanges(fps, ranges);
    best.Some? && best.value.Fps() == fps.Fps()
  }

  lemma NotSentBack(fps: ValidRate, ranges: seq<Range>, k: nat)
    requires Ordered(ranges) && !InSome(fps, ranges) && LastNear(fps, ranges, k)
    ensures OtherEnd(fps, ranges[k]).Fps() != fps.Fps()
  {
    assert ranges[k] in ranges;
    if OtherEnd(fps, ranges[k]).Fps() == fps.Fps() {
      SameInterval(OtherEnd(fps, ranges[k]), fps);
      assert false;
    }
  }

  /** A common rate is offered as itself exactly if it is within a range or, as only ranges the wrong
      way round allow, the other end of the last range near it is the rate itself. */
  lemma OwnRateExactly(fps: ValidRate, ranges: seq<Range>)
    ensures StandsForItself(fps, ranges) <==> InSome(fps, ranges) || SentBack(fps, ranges)
  {
    MatchExactly(fps, ranges);
    if !InSome(fps, ranges) {
      if r :| r in ranges && Near(fps, r) {
        LastNearExists(fps, ranges);
      }
    }
  }

  lemma OwnRateIsInRange(fps: ValidRate, ranges: seq<Range>)
    requires Ordered(ranges)
    ensures StandsForItself(fps, ranges) <==> InSome(fps, ranges)
  {
    OwnRateExactly(fps, ranges);
    if k: nat :| LastNear(fps, ranges, k) && OtherEnd(fps, ranges[k]).Fps() == fps.Fps() {
      if !InSome(fps, ranges) {
        NotSentBack(fps, ranges, k);
      }
    }
  }

  /** No common rate is only just outside a range. */
  ghost predicate NoNearMiss(common: seq<Item>, ranges: seq<Range>) {
    forall i :: 0 <= i < |common| ==>
      InSome(common[i].fps, ranges) || forall r :: r in ranges ==> !Near(common[i].fps, r)
  }

  lemma {:induction false} DescendsStepwise(items: seq<Item>)
    requires forall i :: 0 < i < |items| ==> items[i - 1].fps.Fps() >= items[i].fps.Fps() + 0.01
    ensures Descending(items)
  {
    if items != [] {
      var front := items[..|items| - 1];
      DescendsStepwise(front);
      forall i, j | 0 <= i < j < |items|
        ensures items[i].fps.Fps() >= items[j].fps.Fps() + 0.01
      {
        if j < |front| {
          assert front[i] == items[i] && front[j] == items[j];
        } else if i < j - 1 {
          assert front[i] == items[i] && front[j - 1] == items[j - 1];
        }
      }
    }
  }

  lemma CommonDescends()
    ensures Descending(COMMON_FPS)
  {
    forall i | 0 < i < 9
      ensures COMMON_FPS[i - 1].fps.Fps() >= COMMON_FPS[i].fps.Fps() + 0.01
    {
      CommonStep(i);
    }
    DescendsStepwise(COMMON_FPS);
  }

  lemma CommonStep(i: nat)
    requires 0 < i < 9
    ensures COMMON_FPS[i - 1].fps.Fps() >= COMMON_FPS[i].fps.Fps() + 0.01
  {
    Slower(COMMON_FPS[i - 1].fps, COMMON_FPS[i].fps);
  }

  lemma Slower(a: ValidRate, b: ValidRate)
    requires 100 * a.num * b.den >= (100 * b.num + b.den) * a.den
    ensures a.Fps() >= b.Fps() + 0.01
  {
    var x, y := a.Fps(), b.Fps();
    var p, q, m, n := a.num as real, b.num as real, a.den as real, b.den as real;
    assert x * m == p && y * n == q;
    assert x * (m * n) == p * n;
    assert (y + 0.01) * (m * n) == (q + 0.01 * n) * m;
    assert 100.0 * p * n >= (100.0 * q + n) * m;
    Cancel(y + 0.01, x, m * n);
  }

  /** What two common rates are replaced by stays in order, if both are supported. */
  ghost predicate InOrder(first: ValidRate, second: ValidRate, ranges: seq<Range>) {
    var a, b := MatchesRanges(first, ranges), MatchesRanges(second, ranges);
    a.Some? && b.Some? ==> a.value.Fps() >= b.value.Fps() + 0.01
  }

  ghost predicate MatchesDescend(common: seq<Item>, ranges: seq<Range>) {
    forall i, j :: 0 <= i < j < |common| ==> InOrder(common[i].fps, common[j].fps, ranges)
  }

  ghost predicate AllInOrder(first: ValidRate, common: seq<Item>, ranges: seq<Range>) {
    forall j :: 0 <= j < |common| ==> InOrder(first, common[j].fps, ranges)
  }

  lemma MatchesDescendCons(c: Item, rest: seq<Item>, ranges: seq<Range>)
    ensures MatchesDescend([c] + rest, ranges) <==> MatchesDescend(rest, ranges) && AllInOrder(c.fps, rest, ranges)
  {
    var common := [c] + rest;
    assert forall j :: 0 < j < |common| ==> common[j] == rest[j - 1];
    if MatchesDescend(common, ranges) {
      forall i, j | 0 <= i < j < |rest|
        ensures InOrder(rest[i].fps, rest[j].fps, ranges)
      {
        assert InOrder(common[i + 1].fps, common[j + 1].fps, ranges);
      }
      forall j | 0 <= j < |rest|
        ensures InOrder(c.fps, rest[j].fps, ranges)
      {
        assert InOrder(common[0].fps, common[j + 1].fps, ranges);
      }
    }
  }

  lemma AllInOrderCons(first: ValidRate, c: Item, rest: seq<Item>, ranges: seq<Range>)
    ensures AllInOrder(first, [c] + rest, ranges) <==> InOrder(first, c.fps, ranges) && AllInOrder(first, rest, ranges)
  {
    var common := [c] + rest;
    assert forall j :: 0 < j < |common| ==> common[j] == rest[j - 1];
    if AllInOrder(first, common, ranges) {
      assert InOrder(first, common[0].fps, ranges);
      forall j | 0 <= j < |rest|
        ensures InOrder(first, rest[j].fps, ranges)
      {
        assert InOrder(first, common[j + 1].fps, ranges);
      }
    }
  }

  ghost predicate AllSlower(items: seq<Item>, fps: ValidRate) {
    forall i :: 0 <= i < |items| ==> fps.Fps() >= items[i].fps.Fps() + 0.01
  }

  lemma SlowerConcat(a: seq<Item>, b: seq<Item>, fps: ValidRate)
    ensures AllSlower(a + b, fps) <==> AllSlower(a, fps) && AllSlower(b, fps)
  {
    assert forall i :: 0 <= i < |a| ==> (a + b)[i] == a[i];
    assert forall i :: 0 <= i < |b| ==> (a + b)[|a| + i] == b[i];
  }

  lemma DescendsCons(x: Item, items: seq<Item>)
    ensures Descending([x] + items) <==> AllSlower(items, x.fps) && Descending(items)
  {
    var all := [x] + items;
    if Descending(all) {
      forall i | 0 <= i < |items|
        ensures x.fps.Fps() >= items[i].fps.Fps() + 0.01
      {
        assert all[0] == x && all[i + 1] == items[i];
      }
      forall i, j | 0 <= i < j < |items|
        ensures items[i].fps.Fps() >= items[j].fps.Fps() + 0.01
      {
        assert all[i + 1] == items[i] && all[j + 1] == items[j];
      }
    }
  }

  lemma MatchedSlower(c: Item, ranges: seq<Range>, first: ValidRate)
    requires MatchesRanges(first, ranges).Some?
    ensures AllSlower(Matched(c, ranges), MatchesRanges(first, ranges).value) <==> InOrder(first, c.fps, ranges)
  {
    var best := MatchesRanges(c.fps, ranges);
    if best.Some? {
      assert Matched(c, ranges)[0].fps == best.value;
    }
  }

  lemma {:induction false} SlowerMatches(common: seq<Item>, ranges: seq<Range>, first: ValidRate)
    requires MatchesRanges(first, ranges).Some?
    ensures AllSlower(Supported(common, ranges), MatchesRanges(first, ranges).value) <==> AllInOrder(first, common, ranges)
  {
    if common != [] {
      var c, rest := common[0], common[1..];
      assert common == [c] + rest;
      SlowerMatches(rest, ranges, first);
      AllInOrderCons(first, c, rest, ranges);
      MatchedSlower(c, ranges, first);
      SlowerConcat(Matched(c, ranges), Supported(rest, ranges), MatchesRanges(first, ranges).value);
    }
  }

  lemma {:induction false} SupportedDescendsExactly(common: seq<Item>, ranges: seq<Range>)
    ensures Descending(Supported(common, ranges)) <==> MatchesDescend(common, ranges)
  {
    if common != [] {
      var c, rest := common[0], common[1..];
      assert common == [c] + rest;
      SupportedDescendsExactly(rest, ranges);
      MatchesDescendCons(c, rest, ranges);
      FirstDescends(c, rest, ranges, Supported(rest, ranges));
    }
  }

  lemma FirstDescends(c: Item, rest: seq<Item>, ranges: seq<Range>, left: seq<Item>)
    requires left == Supported(rest, ranges)
    ensures Descending(Matched(c, ranges) + left) <==> Descending(left) && AllInOrder(c.fps, rest, ranges)
  {
    if MatchesRanges(c.fps, ranges).Some? {
      SlowerMatches(rest, ranges, c.fps);
      DescendsCons(Matched(c, ranges)[0], left);
      assert Matched(c, ranges) == [Matched(c, ranges)[0]];
    } else {
      assert Matched(c, ranges) + left == left;
    }
  }

  /** The list offered is descending with gaps of at least 0.01 exactly if, of any two common rates
      that are supported, the first is replaced by a rate at least 0.01 above the second's. */
  lemma OfferedDescends(ranges: seq<Range>)
    ensures Descending(Added(Supported(COMMON_FPS, ranges), ranges)) <==> MatchesDescend(COMMON_FPS, ranges)
  {
    SupportedDescendsExactly(COMMON_FPS, ranges);
    AddingKeepsOrder(Supported(COMMON_FPS, ranges), ranges);
  }

  /** In particular it is descending unless a common rate lies just outside a range. */
  lemma NoNearMissDescends(ranges: seq<Range>)
    requires NoNearMiss(COMMON_FPS, ranges)
    ensures Descending(Added(Supported(COMMON_FPS, ranges), ranges))
  {
    CommonDescends();
    forall i | 0 <= i < |COMMON_FPS|
      ensures var best := MatchesRanges(COMMON_FPS[i].fps, ranges); best.Some? ==> best.value == COMMON_FPS[i].fps
    {
      MatchExactly(COMMON_FPS[i].fps, ranges);
    }
    OfferedDescends(ranges);
  }

  /** A near miss at the fast end of a range is taken for its slow end: with rates from 1 to 59.9999
      the entry named 60 stands for 1 and comes before the faster rest, and so it stays. */
  lemma NearMissSpoilsOrder()
    ensures var one: ValidRate, sixty: ValidRate := Rate(1, 1), Rate(60, 1);
            var ranges := [Range(one, Rate(599999, 10000))];
            && MatchesRanges(sixty, ranges) == Some(one)
            && !Descending(Added(Supported(COMMON_FPS, ranges), ranges))
  {
    var one: ValidRate, sixty: ValidRate, next: ValidRate := Rate(1, 1), Rate(60, 1), Rate(60000, 1001);
    var ranges := [Range(one, Rate(599999, 10000))];
    assert ranges[1..] == [];
    assert !InRange(sixty, ranges[0]);
    assert Distance(ranges[0].high.Interval(), sixty.Interval()) < sixty.Interval() * 0.00001;
    assert MatchesRanges(sixty, ranges) == BestMatch(sixty, ranges[1..], Some(one)) == Some(one);
    assert InRange(next, ranges[0]);
    assert COMMON_FPS[0].fps == sixty && COMMON_FPS[1].fps == next;
    SupportedFront(COMMON_FPS, ranges, one, next);
    AddingKeepsOrder(Supported(COMMON_FPS, ranges), ranges);
  }

  lemma SupportedFront(common: seq<Item>, ranges: seq<Range>, first: ValidRate, second: ValidRate)
    requires |common| >= 2 && MatchesRanges(common[0].fps, ranges) == Some(first)
    requires MatchesRanges(common[1].fps, ranges) == Some(second) && first.Fps() < second.Fps()
    ensures !Descending(Supported(common, ranges))
  {
    var rest := common[1..];
    assert rest[0] == common[1];
    var tail := Supported(rest, ranges);
    assert tail != [] && tail[0].fps == second;
    var items := Supported(common, ranges);
    assert items == [Item(common[0].name, first)] + tail;
    assert items[0].fps == first && items[1].fps == second;
  }

  /** A device with every rate from 1 to 100 has the nine common rates under their names. */
  lemma EverythingOffered()
    ensures var low: ValidRate, high: ValidRate := Rate(1, 1), Rate(100, 1);
            Supported(COMMON_FPS, [Range(low, high)]) ==
            [Item(Some("60"), Rate(60, 1)), Item(Some("59.94"), Rate(60000, 1001)), Item(Some("50"), Rate(50, 1)),
             Item(Some("48"), Rate(48, 1)), Item(Some("30"), Rate(30, 1)), Item(Some("29.97"), Rate(30000, 1001)),
             Item(Some("25"), Rate(25, 1)), Item(Some("24"), Rate(24, 1)), Item(Some("23.976"), Rate(24000, 1001))]
  {
    var low: ValidRate, high: ValidRate := Rate(1, 1), Rate(100, 1);
    var ranges := [Range(low, high)];
    forall c | c in COMMON_FPS
      ensures MatchesRanges(c.fps, ranges) == Some(c.fps)
    {
      InRangeExactly(c.fps, ranges[0]);
      assert ranges[0] in ranges;
      MatchExactly(c.fps, ranges);
    }
    AllSupported(COMMON_FPS, ranges);
  }

  lemma {:induction false} AllSupported(common: seq<Item>, ranges: seq<Range>)
    requires forall c :: c in common ==> MatchesRanges(c.fps, ranges) == Some(c.fps)
    ensures Supported(common, ranges) == common
  {
    if common != [] {
      assert common == [common[0]] + common[1..];
      AllSupported(common[1..], ranges);
    }
  }
}
