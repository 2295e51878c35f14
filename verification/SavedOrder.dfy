/** What loading a saved order achieves when some of the saved names no longer exist: always the
    right order among the named items, and the named items in front exactly when no missing name
    precedes one that exists, or nothing else is in the list. */
module SavedOrder {
  import opened Sequences
  import opened ListOrder

  /** The items of s that are in the order, as they are in s. */
  ghost function Among<T>(s: seq<T>, order: seq<T>): seq<T> {
    if s == [] then [] else (if s[0] in order then [s[0]] else []) + Among(s[1..], order)
  }

  lemma {:induction false} AmongConcat<T>(a: seq<T>, b: seq<T>, order: seq<T>)
    ensures Among(a + b, order) == Among(a, order) + Among(b, order)
  {
    if a == [] {
      assert a + b == b;
    } else {
      AmongConcat(a[1..], b, order);
      assert (a + b)[1..] == a[1..] + b;
      Associative(if a[0] in order then [a[0]] else [], Among(a[1..], order), Among(b, order));
    }
  }

  lemma AmongSnoc<T>(a: seq<T>, x: T, order: seq<T>)
    ensures Among(a + [x], order) == Among(a, order) + if x in order then [x] else []
  {
    AmongConcat(a, [x], order);
    assert Among([x], order) == if x in order then [x] else [];
  }

  /** An item that is not named makes no difference. */
  lemma AmongDropped<T>(a: seq<T>, x: T, b: seq<T>, order: seq<T>)
    requires x !in order
    ensures Among(a + [x] + b, order) == Among(a + b, order)
  {
    AmongConcat(a + [x], b, order);
    AmongSnoc(a, x, order);
    AmongConcat(a, b, order);
  }

  lemma {:induction false} AmongMore<T>(s: seq<T>, order: seq<T>, x: T)
    requires x !in s
    ensures Among(s, order + [x]) == Among(s, order)
  {
    if s != [] {
      AmongMore(s[1..], order, x);
    }
  }

  lemma {:induction false} AmongNone<T>(s: seq<T>, order: seq<T>)
    requires forall x :: x in s ==> x !in order
    ensures Among(s, order) == []
  {
    if s != [] {
      AmongNone(s[1..], order);
    }
  }

  lemma {:induction false} AmongLength<T>(s: seq<T>, order: seq<T>)
    ensures |Among(s, order)| + |Without(s, order)| == |s|
    ensures |Among(s, order)| == |s| <==> forall x :: x in s ==> x in order
    ensures |Among(s, order)| == |s| ==> Among(s, order) == s
  {
    if s != [] {
      AmongLength(s[1..], order);
      assert s == [s[0]] + s[1..];
    }
  }

  // ---------------------------------------------------------------- the sweep

  /** The items placed so far lie in the front u, in the saved order. */
  ghost predicate InPlace<T>(u: seq<T>, v: seq<T>, done: seq<T>, names: seq<T>) {
    Among(u, done) == names && forall y :: y in v ==> y !in done
  }

  lemma OnlyPlace<T>(t: seq<T>, a: seq<T>, x: T, b: seq<T>)
    requires Distinct(t) && t == a + [x] + b
    ensures x !in a && x !in b
  {
    DistinctApart(t, |a|);
    DistinctApart(t, |a| + 1);
    assert t[..|a|] == a && t[|a|] == x && t[|a| + 1..] == b;
    assert x in t[..|a| + 1] && x in t[|a|..];
  }

  lemma SameSplit<T>(u: seq<T>, v: seq<T>, a: seq<T>, b: seq<T>)
    requires u + v == a + b && |u| == |a|
    ensures u == a && v == b
  {
    assert (u + v)[..|u|] == u && (u + v)[|u|..] == v;
    assert (a + b)[..|a|] == a && (a + b)[|a|..] == b;
  }

  /** The placed item comes from the front or from right behind it. */
  lemma Forward<T>(u: seq<T>, v: seq<T>, a: seq<T>, x: T, b: seq<T>, c: seq<T>, done: seq<T>, names: seq<T>)
    requires u + v == a + [x] + b + c && InPlace(u, v, done, names) && x !in done
    requires if v == [] then c == [] else |a + b| == |u|
    requires x !in a + b && x !in c
    ensures InPlace(a + b + [x], c, done + [x], names + [x])
  {
    var w := a + [x] + b;
    if v == [] {
      SameSplit(u, v, w, c);
    } else {
      assert u + v == u + [v[0]] + v[1..];
      SameSplit(u + [v[0]], v[1..], w, c);
      AmongSnoc(u, v[0], done);
    }
    AmongDropped(a, x, b, done);
    AmongMore(a + b, done, x);
    AmongSnoc(a + b, x, done + [x]);
  }

  /** The placed item comes from further behind. */
  lemma Backward<T>(u: seq<T>, v: seq<T>, a: seq<T>, b: seq<T>, x: T, c: seq<T>, done: seq<T>, names: seq<T>)
    requires u + v == a + b + [x] + c && InPlace(u, v, done, names)
    requires |a| == |u| && x !in a && x !in b + c
    ensures InPlace(a + [x], b + c, done + [x], names + [x])
  {
    assert a + b + [x] + c == a + (b + [x] + c);
    SameSplit(u, v, a, b + [x] + c);
    AmongMore(a, done, x);
    AmongSnoc(a, x, done + [x]);
  }

  lemma MoveStep<T>(t: seq<T>, u: seq<T>, v: seq<T>, x: T, k: nat, done: seq<T>, names: seq<T>)
    returns (u': seq<T>, v': seq<T>)
    requires Distinct(t) && t == u + v && |u| == Min(k, |t|) && InPlace(u, v, done, names)
    requires x in t && x !in done
    ensures MoveTo(t, x, k) == u' + v' && |u'| == Min(k + 1, |t|)
    ensures InPlace(u', v', done + [x], names + [x])
  {
    var i, j := IndexOf(t, x), Clamped(k, |t| - 1);
    var a, b, c := MovedParts(t, i, j);
    if i <= j {
      u', v' := a + b + [x], c;
      Associative(a + [x], b, c);
      OnlyPlace(t, a, x, b + c);
      Forward(u, v, a, x, b, c, done, names);
    } else {
      u', v' := a + [x], b + c;
      Associative(a + [x], b, c);
      OnlyPlace(t, a + b, x, c);
      Backward(u, v, a, b, x, c, done, names);
    }
  }

  lemma StayStep<T>(u: seq<T>, v: seq<T>, x: T, done: seq<T>, names: seq<T>) returns (u': seq<T>, v': seq<T>)
    requires InPlace(u, v, done, names) && x !in u + v
    ensures u' + v' == u + v && |u'| == if v == [] then |u| else |u| + 1
    ensures InPlace(u', v', done + [x], names)
  {
    if v == [] {
      u', v' := u, v;
    } else {
      u', v' := u + [v[0]], v[1..];
      AmongSnoc(u, v[0], done);
    }
    AmongMore(u', done, x);
  }

  lemma {:induction false} PlacedInPlace<T>(s: seq<T>, order: seq<T>, k: nat) returns (u: seq<T>, v: seq<T>)
    requires Distinct(s) && Distinct(order) && k <= |order|
    ensures Placed(s, order, k) == u + v && |u| == Min(k, |s|)
    ensures InPlace(u, v, order[..k], Among(order[..k], s))
  {
    if k == 0 {
      u, v := [], s;
    } else {
      var t, x := Placed(s, order, k - 1), order[k - 1];
      u, v := PlacedInPlace(s, order, k - 1);
      PlacedKeepsTheRest(s, order, k - 1);
      DistinctRearranged(s, t);
      RearrangedLength(s, t);
      assert order[..k] == order[..k - 1] + [x];
      AmongSnoc(order[..k - 1], x, s);
      if x in s {
        u, v := MoveStep(t, u, v, x, k - 1, order[..k - 1], Among(order[..k - 1], s));
      } else {
        u, v := StayStep(u, v, x, order[..k - 1], Among(order[..k - 1], s));
      }
    }
  }

  /** Whatever names are missing, the items that are named end up in the saved order relative to
      each other, and the others keep theirs. */
  lemma NamedItemsInOrder<T>(s: seq<T>, order: seq<T>)
    requires Distinct(s) && Distinct(order)
    ensures Among(Placed(s, order, |order|), order) == Among(order, s)
    ensures Without(Placed(s, order, |order|), order) == Without(s, order)
  {
    var u, v := PlacedInPlace(s, order, |order|);
    assert order[..|order|] == order;
    AmongConcat(u, v, order);
    AmongNone(v, order);
    PlacedKeepsTheRest(s, order, |order|);
  }

  // ---------------------------------------------------------------- when the named items come first

  /** No missing name precedes one that exists. */
  ghost predicate KnownFirst<T>(s: seq<T>, order: seq<T>) {
    forall i, j :: 0 <= i < j < |order| && order[j] in s ==> order[i] in s
  }

  lemma {:induction false} KnownPrefix<T>(s: seq<T>, order: seq<T>)
    requires KnownFirst(s, order)
    ensures var m := |Among(order, s)|;
            && m <= |order| && order[..m] == Among(order, s)
            && (forall i :: 0 <= i < m ==> order[i] in s)
            && (forall i :: m <= i < |order| ==> order[i] !in s)
  {
    if order != [] {
      var front, x := order[..|order| - 1], order[|order| - 1];
      assert order == front + [x];
      KnownPrefix(s, front);
      AmongSnoc(front, x, s);
      AmongLength(order, s);
      AmongLength(front, s);
      if x in s {
        assert forall y :: y in front ==> y in s;
      }
    }
  }

  /** The last name that exists, if a missing one precedes some that does. */
  lemma {:induction false} LastKnown<T>(s: seq<T>, order: seq<T>) returns (last: nat)
    requires !KnownFirst(s, order)
    ensures last < |order| && order[last] in s && forall i :: last < i < |order| ==> order[i] !in s
    ensures exists i :: 0 <= i < last && order[i] !in s
  {
    var front, x := order[..|order| - 1], order[|order| - 1];
    if x in s {
      last := |order| - 1;
      var i, j :| 0 <= i < j < |order| && order[j] in s && order[i] !in s;
    } else {
      var i, j :| 0 <= i < j < |order| && order[j] in s && order[i] !in s;
      assert front[i] !in s && front[j] in s;
      last := LastKnown(s, front);
    }
  }

  /** Then it is placed below all rows that the named items need. */
  lemma TooLow<T>(s: seq<T>, order: seq<T>)
    requires Distinct(s) && Distinct(order) && !KnownFirst(s, order) && Without(s, order) != []
    ensures Placed(s, order, |order|) != Among(order, s) + Without(s, order)
  {
    var last := LastKnown(s, order);
    var x, t := order[last], Placed(s, order, last);
    var m := |Among(order, s)|;
    NamesUpTo(s, order, last);
    PlacedKeepsTheRest(s, order, last);
    RearrangedLength(s, t);
    NothingToPlace(s, order, last + 1, |order|);
    SomeRoomLeft(s, order);
    var r := Placed(s, order, |order|);
    assert r == MoveTo(t, x, last);
    var row := Clamped(last, |t| - 1);
    assert r[row] == x && row >= m;
    DistinctRearranged(s, t);
    MoveKeepsItems(t, x, last);
    DistinctRearranged(t, r);
    TwoRows(r, m - 1, row);
  }

  lemma TwoRows<T>(r: seq<T>, i: nat, j: nat)
    requires Distinct(r) && i < j < |r|
    ensures r[i] != r[j]
  {
    assert r[j] !in r[..j];
    assert r[..j][i] == r[i];
  }

  lemma NamesUpTo<T>(s: seq<T>, order: seq<T>, last: nat)
    requires last < |order| && order[last] in s && forall i :: last < i < |order| ==> order[i] !in s
    requires exists i :: 0 <= i < last && order[i] !in s
    ensures var m := |Among(order, s)|; 0 < m <= last && Among(order, s)[m - 1] == order[last]
  {
    var front, x, rest := order[..last], order[last], order[last + 1..];
    assert order == front + [x] + rest;
    AmongConcat(front + [x], rest, s);
    AmongSnoc(front, x, s);
    AmongNone(rest, s);
    AmongLength(front, s);
    var i :| 0 <= i < last && order[i] !in s;
    assert front[i] in front;
  }

  lemma SomeRoomLeft<T>(s: seq<T>, order: seq<T>)
    requires Distinct(s) && Distinct(order) && Without(s, order) != []
    ensures |Among(order, s)| < |s|
  {
    NamedItemsInOrder(s, order);
    PlacedKeepsTheRest(s, order, |order|);
    AmongLength(Placed(s, order, |order|), order);
  }

  /** The result is the saved order followed by the remaining items exactly if no missing name
      precedes one that exists, or there are no remaining items. */
  lemma SavedOrderComesFirst<T>(s: seq<T>, order: seq<T>)
    requires Distinct(s) && Distinct(order)
    ensures Placed(s, order, |order|) == Among(order, s) + Without(s, order) <==>
              KnownFirst(s, order) || Without(s, order) == []
  {
    if Without(s, order) == [] {
      var t := Placed(s, order, |order|);
      NamedItemsInOrder(s, order);
      AmongLength(t, order);
      assert t == Among(order, s) + [];
    } else if KnownFirst(s, order) {
      KnownPrefix(s, order);
      PlacedIsOrderThenRest(s, order, |Among(order, s)|);
    } else {
      TooLow(s, order);
    }
  }
}
