/** The "up" and "down" buttons of an editable list property.

    Both handlers take and reinsert rows of the list while they scan it.  Up below gives the
    list that one press of "up" produces; the class runs the original loops over the list and is
    proved against it.
 */
module EditableList {
  import opened Sequences
  import opened QtList

  datatype Row<T> = Row(item: T, selected: bool)

  // ---------------------------------------------------------------- one press of "up"

  /** The selected rows at the top stay; past the first unselected row, every selected row
      changes places with the row above it. */
  function Up<T>(s: seq<Row<T>>): seq<Row<T>> {
    if s == [] then []
    else if s[0].selected then [s[0]] + Up(s[1..])
    else Sink(s[0], s[1..])
  }

  /** The unselected row u sinks past the selected rows that follow it. */
  function Sink<T>(u: Row<T>, s: seq<Row<T>>): seq<Row<T>>
    decreases |s|
  {
    if s == [] then [u]
    else if s[0].selected then [s[0]] + Sink(u, s[1..])
    else [u] + Sink(s[0], s[1..])
  }

  function Down<T>(s: seq<Row<T>>): seq<Row<T>> {
    Reverse(Up(Reverse(s)))
  }

  // ---------------------------------------------------------------- the handlers

  class WidgetInfo<T> {
    const list: ListWidget<Row<T>>

    constructor (list: ListWidget<Row<T>>)
      ensures this.list == list
    {
      this.list := list;
    }

    method EditListUp()
      modifies list
      ensures list.items == Up(old(list.items))
    {
      var lastItemRow := -1;
      var i := 0;
      while i < |list.items|
        invariant 0 <= i <= |list.items|
        invariant UpProgress(old(list.items), list.items, i, lastItemRow)
      {
        var item := list.items[i];
        UpStep(old(list.items), list.items, i, lastItemRow);
        if item.selected {
          var row := i;
          if row - 1 != lastItemRow {
            lastItemRow := row - 1;
            TakeInsert(list.items, row, lastItemRow);
            var taken := list.TakeItem(row);
            list.InsertItem(lastItemRow, Row(taken.item, true));
          } else {
            lastItemRow := row;
          }
        }
        i := i + 1;
      }
      UpDone(old(list.items), list.items, lastItemRow);
    }

    method EditListDown()
      modifies list
      ensures list.items == Down(old(list.items))
    {
      var lastItemRow := |list.items|;
      var i := |list.items| - 1;
      while i >= 0
        invariant -1 <= i < |list.items|
        invariant DownProgress(old(list.items), list.items, i, lastItemRow)
      {
        var item := list.items[i];
        DownStep(old(list.items), list.items, i, lastItemRow);
        if item.selected {
          var row := i;
          if row + 1 != lastItemRow {
            lastItemRow := row + 1;
            TakeInsert(list.items, row, lastItemRow);
            var taken := list.TakeItem(row);
            list.InsertItem(lastItemRow, Row(taken.item, true));
          } else {
            lastItemRow := row;
          }
        }
        i := i - 1;
      }
      DownDone(old(list.items), list.items, lastItemRow);
    }
  }

  // ---------------------------------------------------------------- the loops

  function Swapped<T>(s: seq<T>, i: nat, j: nat): seq<T>
    requires i < |s| && j < |s|
  {
    s[i := s[j]][j := s[i]]
  }

  /** Taking a row and inserting it one place away swaps two neighbours. */
  lemma TakeInsert<T>(s: seq<T>, row: nat, target: nat)
    requires row < |s| && target < |s| && (target == row - 1 || target == row + 1)
    ensures InsertedAt(RemovedAt(s, row), target, s[row]) == Swapped(s, row, target)
  {
  }

  /** What "up" has done when row i is next: the rows from i on are untouched, and the rest of the
      work is still to be done behind the rows already settled.  lastItemRow falls behind i - 1 as
      soon as an unselected row has been seen, which then is row i - 1. */
  ghost predicate UpProgress<T>(before: seq<Row<T>>, rows: seq<Row<T>>, i: int, lastItemRow: int) {
    && 0 <= i <= |rows| == |before|
    && rows[i..] == before[i..]
    && -1 <= lastItemRow < i
    && if lastItemRow == i - 1 then Up(before) == rows[..i] + Up(rows[i..])
       else i > 0 && !rows[i - 1].selected && Up(before) == rows[..i - 1] + Sink(rows[i - 1], rows[i..])
  }

  lemma UpStep<T>(before: seq<Row<T>>, rows: seq<Row<T>>, i: nat, lastItemRow: int)
    requires i < |rows| && UpProgress(before, rows, i, lastItemRow)
    ensures !rows[i].selected ==> UpProgress(before, rows, i + 1, lastItemRow)
    ensures rows[i].selected && lastItemRow == i - 1 ==> UpProgress(before, rows, i + 1, i)
    ensures rows[i].selected && lastItemRow != i - 1 ==> i > 0 && UpProgress(before, Swapped(rows, i, i - 1), i + 1, i - 1)
  {
    assert rows[i..] == [rows[i]] + rows[i + 1..];
    assert before[i..][1..] == before[i + 1..];
    if lastItemRow == i - 1 {
      assert rows[..i + 1] == rows[..i] + [rows[i]];
    } else {
      assert rows[..i] == rows[..i - 1] + [rows[i - 1]];
      var t := Swapped(rows, i, i - 1);
      assert t[i + 1..] == rows[i + 1..];
      assert t[..i] == rows[..i - 1] + [rows[i]];
    }
  }

  ghost predicate DownProgress<T>(before: seq<Row<T>>, rows: seq<Row<T>>, i: int, lastItemRow: int) {
    UpProgress(Reverse(before), Reverse(rows), |rows| - 1 - i, |rows| - 1 - lastItemRow)
  }

  lemma DownStep<T>(before: seq<Row<T>>, rows: seq<Row<T>>, i: nat, lastItemRow: int)
    requires i < |rows| && DownProgress(before, rows, i, lastItemRow)
    ensures !rows[i].selected ==> DownProgress(before, rows, i - 1, lastItemRow)
    ensures rows[i].selected && lastItemRow == i + 1 ==> DownProgress(before, rows, i - 1, i)
    ensures rows[i].selected && lastItemRow != i + 1 ==>
              i + 1 < |rows| && DownProgress(before, Swapped(rows, i, i + 1), i - 1, i + 1)
  {
    var j := |rows| - 1 - i;
    UpStep(Reverse(before), Reverse(rows), j, |rows| - 1 - lastItemRow);
    if rows[i].selected && lastItemRow != i + 1 {
      assert Reverse(Swapped(rows, i, i + 1)) == Swapped(Reverse(rows), j, j - 1);
    }
  }

  lemma DownDone<T>(before: seq<Row<T>>, rows: seq<Row<T>>, lastItemRow: int)
    requires DownProgress(before, rows, -1, lastItemRow)
    ensures rows == Down(before)
  {
    UpDone(Reverse(before), Reverse(rows), |rows| - 1 - lastItemRow);
    assert Reverse(Reverse(rows)) == rows;
  }

  lemma UpDone<T>(before: seq<Row<T>>, rows: seq<Row<T>>, lastItemRow: int)
    requires UpProgress(before, rows, |rows|, lastItemRow)
    ensures rows == Up(before)
  {
    assert rows[|rows|..] == [];
    if lastItemRow == |rows| - 1 {
      assert rows[..|rows|] == rows;
    } else {
      assert rows == rows[..|rows| - 1] + [rows[|rows| - 1]];
    }
  }

  // ---------------------------------------------------------------- sequences of row numbers

  function Max(a: int, b: int): int { if a > b then a else b }

  /** Each of the places moves up by one, but not above the place that its rank gives it. */
  function MovedUp(p: seq<int>, first: int, n: nat): (q: seq<int>)
    ensures |q| == |p| && forall k :: 0 <= k < |p| ==> q[k] == Max(first + k, p[k] - n)
  {
    seq(|p|, k requires 0 <= k < |p| => Max(first + k, p[k] - n))
  }

  function MovedDown(p: seq<int>, count: int): (q: seq<int>)
    ensures |q| == |p| && forall k :: 0 <= k < |p| ==> q[k] == Min(count - |p| + k, p[k] + 1)
  {
    seq(|p|, k requires 0 <= k < |p| => Min(count - |p| + k, p[k] + 1))
  }

  function Shifted(p: seq<int>, d: int): (q: seq<int>)
    ensures |q| == |p| && forall k :: 0 <= k < |p| ==> q[k] == p[k] + d
  {
    seq(|p|, k requires 0 <= k < |p| => p[k] + d)
  }

  function Mirrored(p: seq<int>, count: int): (q: seq<int>)
    ensures |q| == |p| && forall k :: 0 <= k < |p| ==> q[k] == count - 1 - p[|p| - 1 - k]
  {
    seq(|p|, k requires 0 <= k < |p| => count - 1 - p[|p| - 1 - k])
  }

  ghost predicate Within(p: seq<int>, first: int, count: int) {
    forall k :: 0 <= k < |p| ==> first + k <= p[k] <= first + count - |p| + k
  }

  lemma MirroredMoves(p: seq<int>, count: int)
    ensures Mirrored(MovedUp(Mirrored(p, count), 0, 1), count) == MovedDown(p, count)
  {
    var q := Mirrored(p, count);
    var u := MovedUp(q, 0, 1);
    forall k | 0 <= k < |p|
      ensures Mirrored(u, count)[k] == MovedDown(p, count)[k]
    {
      assert u[|p| - 1 - k] == Max(|p| - 1 - k, q[|p| - 1 - k] - 1);
    }
  }

  lemma MirroredCons(below: seq<int>, count: nat, selected: bool)
    ensures Mirrored((if selected then [0] else []) + Shifted(below, 1), count + 1) ==
            Mirrored(below, count) + if selected then [count] else []
  {
  }

  lemma MovedUpCons(p: seq<int>, first: int)
    ensures MovedUp([first] + p, first, 1) == [first] + MovedUp(p, first + 1, 1)
  {
  }

  // ---------------------------------------------------------------- what a press does

  /** The rows with the given selection bit, in list order. */
  function Kept<T>(s: seq<Row<T>>, selected: bool): seq<Row<T>> {
    if s == [] then [] else (if s[0].selected == selected then [s[0]] else []) + Kept(s[1..], selected)
  }

  /** Where the selected rows are, if the list starts at row first. */
  function Positions<T>(s: seq<Row<T>>, first: int): seq<int>
    decreases |s|
  {
    if s == [] then [] else (if s[0].selected then [first] else []) + Positions(s[1..], first + 1)
  }

  function UpTimes<T>(s: seq<Row<T>>, n: nat): seq<Row<T>> {
    if n == 0 then s else Up(UpTimes(s, n - 1))
  }

  function Partitioned<T>(s: seq<Row<T>>): seq<Row<T>> {
    Kept(s, true) + Kept(s, false)
  }

  lemma {:induction false} PlacesWithin<T>(s: seq<Row<T>>, first: int)
    ensures |Positions(s, first)| == |Kept(s, true)| == |s| - |Kept(s, false)|
    ensures Within(Positions(s, first), first, |s|)
    decreases |s|
  {
    if s != [] {
      PlacesWithin(s[1..], first + 1);
    }
  }

  lemma AddedAbove<T>(x: Row<T>, s: seq<Row<T>>, first: int, selected: bool)
    ensures Positions([x] + s, first) == (if x.selected then [first] else []) + Positions(s, first + 1)
    ensures Kept([x] + s, selected) == (if x.selected == selected then [x] else []) + Kept(s, selected)
  {
    assert ([x] + s)[1..] == s;
  }

  lemma {:induction false} AddedBelow<T>(s: seq<Row<T>>, x: Row<T>, first: int, selected: bool)
    ensures Positions(s + [x], first) == Positions(s, first) + if x.selected then [first + |s|] else []
    ensures Kept(s + [x], selected) == Kept(s, selected) + if x.selected == selected then [x] else []
    decreases |s|
  {
    if s == [] {
      AddedAbove(x, [], first, selected);
      assert s + [x] == [x] == [x] + [];
    } else {
      AddedBelow(s[1..], x, first + 1, selected);
      AddedAbove(s[0], s[1..] + [x], first, selected);
      assert s + [x] == [s[0]] + (s[1..] + [x]);
      Associative(if s[0].selected then [first] else [], Positions(s[1..], first + 1),
                  if x.selected then [first + |s|] else []);
      Associative(if s[0].selected == selected then [s[0]] else [], Kept(s[1..], selected),
                  if x.selected == selected then [x] else []);
    }
  }

  /** Neither the selected nor the unselected rows change their relative order. */
  lemma {:induction false} UpKeepsOrder<T>(s: seq<Row<T>>, selected: bool)
    ensures Kept(Up(s), selected) == Kept(s, selected)
  {
    if s != [] {
      if s[0].selected {
        UpKeepsOrder(s[1..], selected);
        AddedAbove(s[0], Up(s[1..]), 0, selected);
      } else {
        SinkKeepsOrder(s[0], s[1..], selected);
      }
    }
  }

  lemma {:induction false} SinkKeepsOrder<T>(u: Row<T>, s: seq<Row<T>>, selected: bool)
    requires !u.selected
    ensures Kept(Sink(u, s), selected) == (if selected then [] else [u]) + Kept(s, selected)
    decreases |s|
  {
    if s == [] {
      AddedAbove(u, [], 0, selected);
    } else if s[0].selected {
      SinkKeepsOrder(u, s[1..], selected);
      AddedAbove(s[0], Sink(u, s[1..]), 0, selected);
    } else {
      SinkKeepsOrder(s[0], s[1..], selected);
      AddedAbove(u, Sink(s[0], s[1..]), 0, selected);
    }
  }

  lemma {:induction false} RowsAreKept<T>(s: seq<Row<T>>)
    ensures multiset(s) == multiset(Kept(s, true)) + multiset(Kept(s, false))
    ensures |s| == |Kept(s, true)| + |Kept(s, false)|
  {
    if s != [] {
      RowsAreKept(s[1..]);
      assert s == [s[0]] + s[1..];
    }
  }

  /** No row is lost or duplicated. */
  lemma UpKeepsRows<T>(s: seq<Row<T>>)
    ensures |Up(s)| == |s| && multiset(Up(s)) == multiset(s)
  {
    UpKeepsOrder(s, true);
    UpKeepsOrder(s, false);
    RowsAreKept(s);
    RowsAreKept(Up(s));
  }

  /** The k-th selected row moves from row p to row max(k, p - 1). */
  lemma UpMovesEachByOne<T>(s: seq<Row<T>>)
    ensures Positions(Up(s), 0) == MovedUp(Positions(s, 0), 0, 1)
  {
    UpPositions(s, 0);
  }

  lemma {:induction false} UpPositions<T>(s: seq<Row<T>>, first: int)
    ensures Positions(Up(s), first) == MovedUp(Positions(s, first), first, 1)
    decreases |s|
  {
    if s != [] {
      var below := Positions(s[1..], first + 1);
      if s[0].selected {
        UpPositions(s[1..], first + 1);
        AddedAbove(s[0], Up(s[1..]), first, true);
        MovedUpCons(below, first);
      } else {
        SinkPositions(s[0], s[1..], first);
        PlacesWithin(s[1..], first + 1);
        assert Shifted(below, -1) == MovedUp(below, first, 1);
      }
    }
  }

  lemma {:induction false} SinkPositions<T>(u: Row<T>, s: seq<Row<T>>, first: int)
    requires !u.selected
    ensures Positions(Sink(u, s), first) == Shifted(Positions(s, first + 1), -1)
    decreases |s|
  {
    if s == [] {
      AddedAbove(u, [], first, true);
    } else if s[0].selected {
      SinkPositions(u, s[1..], first + 1);
      AddedAbove(s[0], Sink(u, s[1..]), first, true);
    } else {
      SinkPositions(s[0], s[1..], first + 1);
      AddedAbove(u, Sink(s[0], s[1..]), first, true);
    }
  }

  /** A list is determined by its selected rows, its unselected rows and the places of the
      selected ones. */
  lemma {:induction false} SamePlacesSameList<T>(s: seq<Row<T>>, t: seq<Row<T>>, first: int)
    requires Kept(s, true) == Kept(t, true) && Kept(s, false) == Kept(t, false)
    requires Positions(s, first) == Positions(t, first)
    ensures s == t
    decreases |s|
  {
    PlacesWithin(s, first);
    PlacesWithin(t, first);
    if s != [] {
      SameFirstRow(s, t, first);
      SamePlacesSameList(s[1..], t[1..], first + 1);
      assert s == [s[0]] + s[1..] && t == [t[0]] + t[1..];
    }
  }

  lemma SameFirstRow<T>(s: seq<Row<T>>, t: seq<Row<T>>, first: int)
    requires s != [] && t != []
    requires Kept(s, true) == Kept(t, true) && Kept(s, false) == Kept(t, false)
    requires Positions(s, first) == Positions(t, first)
    ensures s[0] == t[0]
    ensures Kept(s[1..], true) == Kept(t[1..], true) && Kept(s[1..], false) == Kept(t[1..], false)
    ensures Positions(s[1..], first + 1) == Positions(t[1..], first + 1)
  {
    PlacesWithin(s[1..], first + 1);
    PlacesWithin(t[1..], first + 1);
    var p := Positions(s, first);
    assert s[0].selected <==> p != [] && p[0] == first;
    assert t[0].selected <==> p != [] && p[0] == first;
    var a, b := Kept(s, s[0].selected), Kept(t, t[0].selected);
    assert a == [s[0]] + Kept(s[1..], s[0].selected) && b == [t[0]] + Kept(t[1..], s[0].selected);
    assert a[0] == b[0] && a[1..] == Kept(s[1..], s[0].selected) && b[1..] == Kept(t[1..], s[0].selected);
    var drop := if s[0].selected then 1 else 0;
    assert p[drop..] == Positions(s[1..], first + 1);
    assert p[drop..] == Positions(t[1..], first + 1);
    assert Kept(s, !s[0].selected) == Kept(s[1..], !s[0].selected);
    assert Kept(t, !s[0].selected) == Kept(t[1..], !s[0].selected);
  }

  lemma {:induction false} UpTimesKeepsOrder<T>(s: seq<Row<T>>, n: nat, selected: bool)
    ensures Kept(UpTimes(s, n), selected) == Kept(s, selected)
  {
    if n > 0 {
      UpTimesKeepsOrder(s, n - 1, selected);
      UpKeepsOrder(UpTimes(s, n - 1), selected);
    }
  }

  lemma {:induction false} UpTimesMoves<T>(s: seq<Row<T>>, n: nat)
    ensures Positions(UpTimes(s, n), 0) == MovedUp(Positions(s, 0), 0, n)
  {
    PlacesWithin(s, 0);
    if n == 0 {
      assert MovedUp(Positions(s, 0), 0, 0) == Positions(s, 0);
    } else {
      UpTimesMoves(s, n - 1);
      UpMovesEachByOne(UpTimes(s, n - 1));
      var q := MovedUp(Positions(s, 0), 0, n - 1);
      assert MovedUp(q, 0, 1) == MovedUp(Positions(s, 0), 0, n);
    }
  }

  lemma {:induction false} KeptUniform<T>(s: seq<Row<T>>, selected: bool)
    requires forall r :: r in s ==> r.selected == selected
    ensures Kept(s, selected) == s && Kept(s, !selected) == []
  {
    if s != [] {
      KeptUniform(s[1..], selected);
    }
  }

  lemma {:induction false} KeptOfConcat<T>(a: seq<Row<T>>, b: seq<Row<T>>, selected: bool)
    ensures Kept(a + b, selected) == Kept(a, selected) + Kept(b, selected)
  {
    if a == [] {
      assert a + b == b;
    } else {
      var x, t := a[0], a[1..];
      KeptOfConcat(t, b, selected);
      assert a + b == [x] + (t + b);
      AddedAbove(x, t + b, 0, selected);
      Associative(if x.selected == selected then [x] else [], Kept(t, selected), Kept(b, selected));
    }
  }

  lemma {:induction false} PlacesOfPartitioned<T>(a: seq<Row<T>>, b: seq<Row<T>>, first: int)
    requires (forall r :: r in a ==> r.selected) && (forall r :: r in b ==> !r.selected)
    ensures Positions(a + b, first) == seq(|a|, k => first + k)
    decreases |a|
  {
    if a == [] {
      KeptUniform(b, false);
      PlacesWithin(b, first);
      assert a + b == b;
    } else {
      PlacesOfPartitioned(a[1..], b, first + 1);
      AddedAbove(a[0], a[1..] + b, first, true);
      assert a + b == [a[0]] + (a[1..] + b);
    }
  }

  lemma PartitionedAgain<T>(s: seq<Row<T>>)
    ensures Kept(Partitioned(s), true) == Kept(s, true) && Kept(Partitioned(s), false) == Kept(s, false)
    ensures Positions(Partitioned(s), 0) == seq(|Kept(s, true)|, k => 0 + k)
  {
    var a, b := Kept(s, true), Kept(s, false);
    KeptHasBit(s, true);
    KeptHasBit(s, false);
    KeptUniform(a, true);
    KeptUniform(b, false);
    KeptOfConcat(a, b, true);
    KeptOfConcat(a, b, false);
    PlacesOfPartitioned(a, b, 0);
  }

  lemma {:induction false} KeptHasBit<T>(s: seq<Row<T>>, selected: bool)
    ensures forall r :: r in Kept(s, selected) ==> r.selected == selected
  {
    if s != [] {
      KeptHasBit(s[1..], selected);
    }
  }

  /** Pressing "up" as often as there are rows gathers the selected rows at the top. */
  lemma UpReachesStablePartition<T>(s: seq<Row<T>>)
    ensures UpTimes(s, |s|) == Partitioned(s)
  {
    var t := UpTimes(s, |s|);
    UpTimesKeepsOrder(s, |s|, true);
    UpTimesKeepsOrder(s, |s|, false);
    UpTimesMoves(s, |s|);
    PlacesWithin(s, 0);
    PartitionedAgain(s);
    assert Positions(t, 0) == Positions(Partitioned(s), 0);
    SamePlacesSameList(t, Partitioned(s), 0);
  }

  /** The lists on which "up" does nothing are exactly the gathered ones. */
  lemma UpFixedPoints<T>(s: seq<Row<T>>)
    ensures Up(s) == s <==> s == Partitioned(s)
  {
    if Up(s) == s {
      StaysForever(s, |s|);
      UpReachesStablePartition(s);
    }
    if s == Partitioned(s) {
      PartitionedAgain(s);
      UpMovesEachByOne(s);
      UpKeepsOrder(s, true);
      UpKeepsOrder(s, false);
      assert Positions(Up(s), 0) == Positions(s, 0);
      SamePlacesSameList(Up(s), s, 0);
    }
  }

  lemma {:induction false} StaysForever<T>(s: seq<Row<T>>, n: nat)
    requires Up(s) == s
    ensures UpTimes(s, n) == s
  {
    if n > 0 {
      StaysForever(s, n - 1);
    }
  }

  // ---------------------------------------------------------------- "down" mirrors "up"

  lemma ShiftedConcat(p: seq<int>, q: seq<int>, d: int)
    ensures Shifted(p + q, d) == Shifted(p, d) + Shifted(q, d)
  {
  }

  lemma ShiftedOne(x: int, d: int)
    ensures Shifted([x], d) == [x + d] && Shifted([], d) == []
  {
  }

  lemma {:induction false} ShiftedPlaces<T>(s: seq<Row<T>>, first: int)
    ensures Positions(s, first + 1) == Shifted(Positions(s, first), 1)
    decreases |s|
  {
    ShiftedOne(first, 1);
    if s != [] {
      ShiftedPlaces(s[1..], first + 1);
      ShiftedConcat(if s[0].selected then [first] else [], Positions(s[1..], first + 1), 1);
    }
  }

  lemma {:induction false} MirrorPlaces<T>(s: seq<Row<T>>)
    ensures Positions(Reverse(s), 0) == Mirrored(Positions(s, 0), |s|)
  {
    if s != [] {
      var x, t := s[0], s[1..];
      MirrorPlaces(t);
      ShiftedPlaces(t, 0);
      AddedBelow(Reverse(t), x, 0, true);
      MirroredCons(Positions(t, 0), |t|, x.selected);
      assert Reverse(s) == Reverse(t) + [x];
    }
  }

  lemma {:induction false} MirrorOrder<T>(s: seq<Row<T>>, selected: bool)
    ensures Kept(Reverse(s), selected) == Reverse(Kept(s, selected))
  {
    if s != [] {
      MirrorOrder(s[1..], selected);
      MirrorStep(s[0], s[1..], selected);
      assert s == [s[0]] + s[1..];
    }
  }

  lemma MirrorStep<T>(x: Row<T>, s: seq<Row<T>>, selected: bool)
    requires Kept(Reverse(s), selected) == Reverse(Kept(s, selected))
    ensures Kept(Reverse([x] + s), selected) == Reverse(Kept([x] + s, selected))
  {
    ReverseCons(x, s);
    AddedBelow(Reverse(s), x, 0, selected);
    AddedAbove(x, s, 0, selected);
    if x.selected == selected {
      ReverseCons(x, Kept(s, selected));
    } else {
      NothingAround(Kept(s, selected), Kept(Reverse(s), selected));
    }
  }

  lemma NothingAround<T>(a: seq<T>, b: seq<T>)
    ensures [] + a == a && b + [] == b
  {
  }

  /** "Down" moves the k-th of m selected rows from row p to min(count - m + k, p + 1). */
  lemma DownMovesEachByOne<T>(s: seq<Row<T>>)
    ensures Positions(Down(s), 0) == MovedDown(Positions(s, 0), |s|)
  {
    var r := Reverse(s);
    MirrorPlaces(s);
    UpMovesEachByOne(r);
    UpKeepsRows(r);
    MirrorPlaces(Up(r));
    MirroredMoves(Positions(s, 0), |s|);
  }

  lemma DownKeepsOrder<T>(s: seq<Row<T>>, selected: bool)
    ensures Kept(Down(s), selected) == Kept(s, selected)
  {
    var r := Reverse(s);
    MirrorOrder(s, selected);
    UpKeepsOrder(r, selected);
    MirrorOrder(Up(r), selected);
    assert Reverse(Reverse(Kept(s, selected))) == Kept(s, selected);
  }

  lemma DownKeepsRows<T>(s: seq<Row<T>>)
    ensures |Down(s)| == |s| && multiset(Down(s)) == multiset(s)
  {
    DownKeepsOrder(s, true);
    DownKeepsOrder(s, false);
    RowsAreKept(s);
    RowsAreKept(Down(s));
  }

  ghost predicate AllSelected<T>(s: seq<Row<T>>) {
    forall r :: r in s ==> r.selected
  }

  /** "Down" undoes "up" exactly when the first row is unselected, or when there is nothing the
      selected rows could move past. */
  lemma DownUndoesUp<T>(s: seq<Row<T>>)
    ensures Down(Up(s)) == s <==> AllSelected(s) || !s[0].selected
  {
    var t := Down(Up(s));
    UpMovesEachByOne(s);
    UpKeepsRows(s);
    DownMovesEachByOne(Up(s));
    UpKeepsOrder(s, true);
    UpKeepsOrder(s, false);
    DownKeepsOrder(Up(s), true);
    DownKeepsOrder(Up(s), false);
    RestoredIff(s, t);
  }

  lemma RestoredIff<T>(s: seq<Row<T>>, t: seq<Row<T>>)
    requires Kept(t, true) == Kept(s, true) && Kept(t, false) == Kept(s, false)
    requires Positions(t, 0) == MovedDown(MovedUp(Positions(s, 0), 0, 1), |s|)
    ensures t == s <==> AllSelected(s) || !s[0].selected
  {
    PlacesWithin(s, 0);
    SelectedCount(s);
    if Positions(t, 0) == Positions(s, 0) {
      SamePlacesSameList(t, s, 0);
    }
    if s != [] { FirstPlace(s); }
    RestoredPlaces(Positions(s, 0), |s|);
  }

  lemma RestoredPlaces(p: seq<int>, count: int)
    requires Within(p, 0, count) && |p| <= count
    ensures |p| == count || Within(p, 1, count - 1) ==> MovedDown(MovedUp(p, 0, 1), count) == p
    ensures |p| < count && p != [] && p[0] == 0 ==> MovedDown(MovedUp(p, 0, 1), count)[0] == 1
  {
  }

  lemma FirstPlace<T>(s: seq<Row<T>>)
    requires s != []
    ensures if s[0].selected then Positions(s, 0) != [] && Positions(s, 0)[0] == 0
            else Within(Positions(s, 0), 1, |s| - 1)
  {
    if !s[0].selected {
      PlacesWithin(s[1..], 1);
      assert Positions(s, 0) == Positions(s[1..], 1);
    }
  }

  lemma {:induction false} SelectedCount<T>(s: seq<Row<T>>)
    ensures AllSelected(s) <==> |Positions(s, 0)| == |s|
  {
    if s != [] {
      SelectedCount(s[1..]);
      ShiftedPlaces(s[1..], 0);
      PlacesWithin(s[1..], 0);
      assert s == [s[0]] + s[1..];
      assert AllSelected(s) <==> s[0].selected && AllSelected(s[1..]);
    }
  }

  /** "Up" undoes "down" exactly when the last row is unselected, or all are selected. */
  lemma UpUndoesDown<T>(s: seq<Row<T>>)
    ensures Up(Down(s)) == s <==> AllSelected(s) || !s[|s| - 1].selected
  {
    var r := Reverse(s);
    DownUndoesUp(r);
    MirroredRoundTrip(s, r, Up(Down(s)), Down(Up(r)));
  }

  lemma MirroredRoundTrip<T>(s: seq<Row<T>>, r: seq<Row<T>>, a: seq<Row<T>>, b: seq<Row<T>>)
    requires r == Reverse(s) && b == Reverse(a)
    ensures a == s <==> b == r
    ensures AllSelected(s) <==> AllSelected(r)
    ensures |s| == |r| && (s != [] ==> s[|s| - 1] == r[0])
  {
    assert Reverse(b) == a && Reverse(r) == s;
    assert forall i :: 0 <= i < |s| ==> s[i] == r[|s| - 1 - i];
  }
}
