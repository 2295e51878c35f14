/** Sequence vocabulary shared by the list models. */
module Sequences {

  function Reverse<T>(s: seq<T>): (r: seq<T>)
    ensures |r| == |s|
    ensures forall k :: 0 <= k < |s| ==> r[k] == s[|s| - 1 - k]
  {
    seq(|s|, k requires 0 <= k < |s| => s[|s| - 1 - k])
  }

  lemma ReverseSnoc<T>(s: seq<T>, x: T)
    ensures Reverse(s + [x]) == [x] + Reverse(s)
  {
  }

  lemma ReverseCons<T>(x: T, s: seq<T>)
    ensures Reverse([x] + s) == Reverse(s) + [x]
  {
  }

  lemma ReverseMembers<T>(s: seq<T>, x: T)
    ensures x in Reverse(s) <==> x in s
  {
    if x in s {
      var k :| 0 <= k < |s| && s[k] == x;
      assert Reverse(s)[|s| - 1 - k] == x;
    }
  }

  lemma ReverseTwice<T>(s: seq<T>)
    ensures Reverse(Reverse(s)) == s
  {
  }

  function RemovedAt<T>(s: seq<T>, i: nat): seq<T>
    requires i < |s|
  {
    seq(|s| - 1, k requires 0 <= k < |s| - 1 => if k < i then s[k] else s[k + 1])
  }

  /** A row beyond either end of the list means that end. */
  function InsertedAt<T>(s: seq<T>, row: int, x: T): seq<T> {
    var at := Clamped(row, |s|);
    seq(|s| + 1, k requires 0 <= k <= |s| => if k < at then s[k] else if k == at then x else s[k - 1])
  }

  function Clamped(row: int, count: nat): (r: nat)
    ensures r <= count
  {
    if row < 0 then 0 else if row > count then count else row
  }

  function Min(a: int, b: int): (m: int)
    ensures a >= 0 && b >= 0 ==> m >= 0
  {
    if a < b then a else b
  }

  /** The first place of x. */
  ghost function IndexOf<T>(s: seq<T>, x: T): (i: nat)
    requires x in s
    ensures i < |s| && s[i] == x && x !in s[..i]
  {
    FirstExists(s, x);
    var i :| 0 <= i < |s| && s[i] == x && x !in s[..i];
    i
  }

  lemma {:induction false} FirstExists<T>(s: seq<T>, x: T)
    requires x in s
    ensures exists i :: 0 <= i < |s| && s[i] == x && x !in s[..i]
  {
    var n := |s| - 1;
    var front := s[..n];
    assert s == front + [s[n]];
    if x in front {
      FirstExists(front, x);
      var i :| 0 <= i < n && front[i] == x && x !in front[..i];
      assert front[..i] == s[..i];
    }
  }

  lemma FirstIsIndex<T>(a: seq<T>, x: T, b: seq<T>)
    requires x !in a
    ensures IndexOf(a + [x] + b, x) == |a|
  {
    var s := a + [x] + b;
    var i := IndexOf(s, x);
    assert s[|a|] == x && forall k :: 0 <= k < |a| ==> s[k] == a[k];
    assert forall k :: 0 <= k < i ==> s[k] == s[..i][k];
  }

  /** No item occurs a second time. */
  ghost predicate Distinct<T>(s: seq<T>) {
    forall i {:trigger s[..i]} :: 0 <= i < |s| ==> s[i] !in s[..i]
  }

  lemma Associative<T>(a: seq<T>, b: seq<T>, c: seq<T>)
    ensures a + (b + c) == (a + b) + c
  {
  }

  lemma DistinctPrefix<T>(s: seq<T>, n: nat)
    requires Distinct(s) && n <= |s|
    ensures Distinct(s[..n])
  {
    forall i | 0 <= i < n
      ensures s[..n][i] !in s[..n][..i]
    {
      assert s[..n][..i] == s[..i];
    }
  }

  lemma DistinctTail<T>(s: seq<T>)
    requires Distinct(s) && s != []
    ensures s[0] !in s[1..] && Distinct(s[1..])
  {
    var t := s[1..];
    forall i {:trigger t[..i]} | 0 <= i < |t|
      ensures t[i] !in t[..i] && t[i] != s[0]
    {
      assert s[i + 1] !in s[..i + 1];
      assert s[..i + 1] == [s[0]] + t[..i];
    }
    DistinctApart(s, 1);
    assert s[0] in s[..1];
  }

  lemma DistinctCons<T>(x: T, t: seq<T>)
    requires Distinct(t) && x !in t
    ensures Distinct([x] + t)
  {
    var s := [x] + t;
    forall i {:trigger s[..i]} | 0 <= i < |s|
      ensures s[i] !in s[..i]
    {
      if i > 0 {
        assert s[..i] == [x] + t[..i - 1];
        assert t[i - 1] !in t[..i - 1];
      }
    }
  }

  lemma DistinctSnoc<T>(s: seq<T>, x: T)
    requires Distinct(s) && x !in s
    ensures Distinct(s + [x])
  {
    var t := s + [x];
    forall j {:trigger t[..j]} | 0 <= j < |t|
      ensures t[j] !in t[..j]
    {
      assert t[..j] == s[..j];
      assert s[..|s|] == s;
    }
  }

  lemma DistinctRemoved<T>(s: seq<T>, i: nat)
    requires Distinct(s) && i < |s|
    ensures Distinct(RemovedAt(s, i))
  {
    var t := RemovedAt(s, i);
    assert t == s[..i] + s[i + 1..];
    forall j {:trigger t[..j]} | 0 <= j < |t|
      ensures t[j] !in t[..j]
    {
      if j < i {
        assert t[..j] == s[..j];
      } else {
        assert s[j + 1] !in s[..j + 1];
        assert s[..j + 1] == s[..i] + [s[i]] + s[i + 1..j + 1];
        assert t[..j] == s[..i] + s[i + 1..j + 1];
      }
    }
  }

  lemma {:induction false} CountInDistinct<T>(s: seq<T>, x: T)
    requires Distinct(s)
    ensures multiset(s)[x] <= 1
  {
    if s != [] {
      var n := |s| - 1;
      DistinctPrefix(s, n);
      CountInDistinct(s[..n], x);
      assert s == s[..n] + [s[n]];
    }
  }

  lemma RepeatedCount<T>(t: seq<T>, j: nat)
    requires j < |t| && t[j] in t[..j]
    ensures multiset(t)[t[j]] >= 2
  {
    assert t == t[..j] + [t[j]] + t[j + 1..];
  }

  /** Rearranging a list keeps its items distinct. */
  lemma DistinctRearranged<T>(s: seq<T>, t: seq<T>)
    requires Distinct(s) && multiset(s) == multiset(t)
    ensures Distinct(t)
  {
    forall j {:trigger t[..j]} | 0 <= j < |t|
      ensures t[j] !in t[..j]
    {
      CountInDistinct(s, t[j]);
      if t[j] in t[..j] {
        RepeatedCount(t, j);
      }
    }
  }

  lemma DistinctApart<T>(s: seq<T>, m: nat)
    requires Distinct(s) && m <= |s|
    ensures forall x :: x in s[..m] ==> x !in s[m..]
  {
    forall j | m <= j < |s|
      ensures s[j] !in s[..m]
    {
      assert s[j] !in s[..j];
      assert s[..m] == s[..j][..m];
    }
  }

  lemma RearrangedLength<T>(s: seq<T>, t: seq<T>)
    requires multiset(s) == multiset(t)
    ensures |s| == |t|
    ensures forall x :: x in s <==> x in t
  {
    assert |multiset(s)| == |multiset(t)|;
    assert forall x :: x in s <==> x in multiset(s);
    assert forall x :: x in t <==> x in multiset(t);
  }

  lemma {:induction false} ReverseKeepsItems<T>(s: seq<T>)
    ensures multiset(Reverse(s)) == multiset(s)
    ensures forall x :: x in Reverse(s) <==> x in s
  {
    if s != [] {
      var t := s[..|s| - 1];
      ReverseKeepsItems(t);
      assert Reverse(s) == [s[|s| - 1]] + Reverse(t);
      assert s == t + [s[|s| - 1]];
    }
  }

  lemma IndexBeforeTail<T>(s: seq<T>, x: T, m: nat)
    requires x in s && m <= |s| && x !in s[m..]
    ensures IndexOf(s, x) < m
  {
    forall j | m <= j < |s|
      ensures s[j] != x
    {
      assert s[j] == s[m..][j - m];
    }
  }

  lemma IndexAfterHead<T>(s: seq<T>, x: T, m: nat)
    requires x in s && m <= |s| && x !in s[..m]
    ensures IndexOf(s, x) >= m
  {
    forall j | 0 <= j < m
      ensures s[j] != x
    {
      assert s[j] == s[..m][j];
    }
  }
}
