/** The orders of the scene list, the source list and the filter lists.

    All of them are kept in step with another order by moving one item at a time: find it, take it
    out, insert it at the row it should have.  The results below say what whole sweeps of such
    moves amount to.
 */
module ListOrder {
  import opened Sequences
  import opened QtList

  /** The item at row i goes to row j; the rows between them close up. */
  function Moved<T>(s: seq<T>, i: nat, j: nat): seq<T>
    requires i < |s| && j < |s|
  {
    seq(|s|, k requires 0 <= k < |s| =>
      if k == j then s[i] else if i <= k < j then s[k + 1] else if j < k <= i then s[k - 1] else s[k])
  }

  /** One move: the first occurrence of x goes to the target row, or to the end of the list that
      the target lies beyond; an unknown item is ignored. */
  ghost function MoveTo<T>(s: seq<T>, x: T, target: int): seq<T> {
    if x in s then Moved(s, IndexOf(s, x), Clamped(target, |s| - 1)) else s
  }

  method ReorderItem<T(==)>(list: ListWidget<T>, x: T, target: int)
    modifies list
    ensures list.items == MoveTo(old(list.items), x, target)
  {
    var count := |list.items|;
    for i := 0 to count
      invariant list.items == old(list.items)
      invariant x !in list.items[..i]
    {
      var item := list.items[i];
      if item == x {
        assert list.items == list.items[..i] + [x] + list.items[i + 1..];
        FirstIsIndex(list.items[..i], x, list.items[i + 1..]);
        assert Moved(list.items, i, i) == list.items;
        TakenAndInserted(list.items, i, target);
        if target != i {
          item := list.TakeItem(i);
          list.InsertItem(target, item);
        }
        return;
      }
    }
    assert list.items[..count] == list.items;
  }

  lemma TakenAndInserted<T>(s: seq<T>, i: nat, target: int)
    requires i < |s|
    ensures InsertedAt(RemovedAt(s, i), target, s[i]) == Moved(s, i, Clamped(target, |s| - 1))
  {
  }

  /** A move in terms of the parts of the list: x jumps over b. */
  lemma MovedParts<T>(s: seq<T>, i: nat, j: nat) returns (a: seq<T>, b: seq<T>, c: seq<T>)
    requires i < |s| && j < |s|
    ensures if i <= j then s == a + [s[i]] + b + c && Moved(s, i, j) == a + b + [s[i]] + c
            else s == a + b + [s[i]] + c && Moved(s, i, j) == a + [s[i]] + b + c
    ensures |a| == if i <= j then i else j
    ensures |a + b| == if i <= j then j else i
  {
    if i <= j {
      a, b, c := s[..i], s[i + 1..j + 1], s[j + 1..];
    } else {
      a, b, c := s[..j], s[j..i], s[i + 1..];
    }
  }

  lemma MovedKeepsItems<T>(s: seq<T>, i: nat, j: nat)
    requires i < |s| && j < |s|
    ensures multiset(Moved(s, i, j)) == multiset(s)
  {
    var a, b, c := MovedParts(s, i, j);
    assert multiset(a + [s[i]] + b + c) == multiset(a + b + [s[i]] + c);
  }

  lemma MoveKeepsItems<T>(s: seq<T>, x: T, target: int)
    ensures multiset(MoveTo(s, x, target)) == multiset(s) && |MoveTo(s, x, target)| == |s|
  {
    if x in s {
      MovedKeepsItems(s, IndexOf(s, x), Clamped(target, |s| - 1));
    }
  }

  /** A move in full: the first occurrence of x is taken out and put back in front of the row that
      then has the target's number, at the top for a negative target and at the end for one beyond
      the list; an item that is not there changes nothing. */
  lemma MoveInFull<T>(a: seq<T>, x: T, b: seq<T>, target: int)
    requires x !in a
    ensures var rest := a + b;
            MoveTo(a + [x] + b, x, target) ==
            if target <= 0 then [x] + rest
            else if target >= |rest| then rest + [x]
            else rest[..target] + [x] + rest[target..]
  {
    FirstIsIndex(a, x, b);
    TakenOut(a, x, b);
    TakenAndInserted(a + [x] + b, |a|, target);
    InsertedInFull(a + b, target, x);
  }

  lemma InsertedInFull<T>(s: seq<T>, row: int, x: T)
    ensures InsertedAt(s, row, x) ==
            if row <= 0 then [x] + s else if row >= |s| then s + [x] else s[..row] + [x] + s[row..]
  {
  }

  lemma TakenOut<T>(a: seq<T>, x: T, b: seq<T>)
    ensures RemovedAt(a + [x] + b, |a|) == a + b && (a + [x] + b)[|a|] == x
  {
  }

  lemma UnknownStays<T>(s: seq<T>, x: T, target: int)
    requires x !in s
    ensures MoveTo(s, x, target) == s
  {
  }

  // ---------------------------------------------------------------- sweeps to the front

  /** The list after the first k items of the order have been moved to the rows 0, 1, ... */
  ghost function Placed<T>(s: seq<T>, order: seq<T>, k: nat): seq<T>
    requires k <= |order|
  {
    if k == 0 then s else MoveTo(Placed(s, order, k - 1), order[k - 1], k - 1)
  }

  /** The items of s that are not in the order, as they are in s. */
  ghost function Without<T>(s: seq<T>, order: seq<T>): seq<T> {
    if s == [] then [] else (if s[0] in order then [] else [s[0]]) + Without(s[1..], order)
  }

  lemma {:induction false} WithoutConcat<T>(a: seq<T>, b: seq<T>, order: seq<T>)
    ensures Without(a + b, order) == Without(a, order) + Without(b, order)
  {
    if a == [] {
      assert a + b == b;
    } else {
      WithoutConcat(a[1..], b, order);
      assert (a + b)[1..] == a[1..] + b;
      Associative(if a[0] in order then [] else [a[0]], Without(a[1..], order), Without(b, order));
    }
  }

  lemma WithoutAdded<T>(a: seq<T>, x: T, b: seq<T>, order: seq<T>)
    requires x in order
    ensures Without(a + [x] + b, order) == Without(a + b, order)
  {
    WithoutConcat(a + [x], b, order);
    WithoutConcat(a, [x], order);
    WithoutConcat(a, b, order);
    assert Without([x], order) == [];
  }

  lemma WithoutMoved<T>(s: seq<T>, i: nat, j: nat, order: seq<T>)
    requires i < |s| && j < |s| && s[i] in order
    ensures Without(Moved(s, i, j), order) == Without(s, order)
  {
    var a, b, c := MovedParts(s, i, j);
    var x := s[i];
    Associative(a + [x], b, c);
    WithoutAdded(a, x, b + c, order);
    WithoutAdded(a + b, x, c, order);
    Associative(a, b, c);
  }

  /** Whatever the saved order contains, no item is lost or duplicated, and the items that it does
      not name keep their relative order. */
  lemma {:induction false} PlacedKeepsTheRest<T>(s: seq<T>, order: seq<T>, k: nat)
    requires k <= |order|
    ensures multiset(Placed(s, order, k)) == multiset(s) && |Placed(s, order, k)| == |s|
    ensures Without(Placed(s, order, k), order) == Without(s, order)
  {
    if k > 0 {
      PlacedKeepsTheRest(s, order, k - 1);
      MoveKeepsItems(Placed(s, order, k - 1), order[k - 1], k - 1);
      var t := Placed(s, order, k - 1);
      if order[k - 1] in t {
        WithoutMoved(t, IndexOf(t, order[k - 1]), Clamped(k - 1, |t| - 1), order);
      }
    }
  }

  /** The moved item settles below the rows that are settled already. */
  lemma MoveSettles<T>(s: seq<T>, x: T, k: nat)
    requires k <= |s| && x in s && x !in s[..k]
    ensures k < |s| && MoveTo(s, x, k)[..k + 1] == s[..k] + [x]
  {
    IndexAfterHead(s, x, k);
  }

  ghost predicate DistinctUpTo<T>(s: seq<T>, n: nat) {
    n <= |s| && forall i {:trigger s[..i]} :: 0 <= i < n ==> s[i] !in s[..i]
  }

  lemma PlacedItems<T>(s: seq<T>, order: seq<T>, k: nat, x: T)
    requires k <= |order|
    ensures |Placed(s, order, k)| == |s| && (x in s <==> x in Placed(s, order, k))
  {
    PlacedKeepsTheRest(s, order, k);
    RearrangedLength(s, Placed(s, order, k));
  }

  lemma PlacedStep<T>(s: seq<T>, order: seq<T>, k: nat)
    requires k < |order| && k <= |Placed(s, order, k)| && Placed(s, order, k)[..k] == order[..k]
    requires order[k] !in order[..k] && order[k] in Placed(s, order, k)
    requires |Placed(s, order, k + 1)| == |Placed(s, order, k)|
    ensures k < |Placed(s, order, k)| && Placed(s, order, k + 1)[..k + 1] == order[..k + 1]
  {
    MoveSettles(Placed(s, order, k), order[k], k);
    PrefixSnoc(order, k + 1);
  }

  lemma {:induction false} PlacedSettles<T>(s: seq<T>, order: seq<T>, k: nat)
    requires DistinctUpTo(order, k)
    requires forall i :: 0 <= i < k ==> order[i] in s
    ensures k <= |s| == |Placed(s, order, k)| && Placed(s, order, k)[..k] == order[..k]
  {
    if k > 0 {
      PlacedSettles(s, order, k - 1);
      PlacedItems(s, order, k - 1, order[k - 1]);
      PlacedItems(s, order, k, order[k - 1]);
      assert order[k - 1] !in order[..k - 1];
      PlacedStep(s, order, k - 1);
    }
  }

  lemma PrefixSnoc<T>(s: seq<T>, k: nat)
    requires 0 < k <= |s|
    ensures s[..k] == s[..k - 1] + [s[k - 1]]
  {
  }

  lemma {:induction false} NothingToPlace<T>(s: seq<T>, order: seq<T>, k: nat, n: nat)
    requires k <= n <= |order| && forall i :: k <= i < n ==> order[i] !in s
    ensures Placed(s, order, n) == Placed(s, order, k)
  {
    if k < n {
      NothingToPlace(s, order, k, n - 1);
      PlacedKeepsTheRest(s, order, n - 1);
      RearrangedLength(s, Placed(s, order, n - 1));
    }
  }

  lemma {:induction false} WithoutNone<T>(s: seq<T>, order: seq<T>)
    requires forall x :: x in s ==> x !in order
    ensures Without(s, order) == s
  {
    if s != [] {
      WithoutNone(s[1..], order);
    }
  }

  lemma {:induction false} WithoutAll<T>(s: seq<T>, order: seq<T>)
    requires forall x :: x in s ==> x in order
    ensures Without(s, order) == []
  {
    if s != [] {
      WithoutAll(s[1..], order);
    }
  }

  /** A sweep over an order whose names are distinct and all in the list, save for unknown names at
      its end, yields that order followed by the remaining items as they were. */
  lemma PlacedIsOrderThenRest<T>(s: seq<T>, order: seq<T>, present: nat)
    requires Distinct(s) && DistinctUpTo(order, present)
    requires forall i :: 0 <= i < present ==> order[i] in s
    requires forall i :: present <= i < |order| ==> order[i] !in s
    ensures Placed(s, order, |order|) == order[..present] + Without(s, order)
  {
    NothingToPlace(s, order, present, |order|);
    PlacedSettles(s, order, present);
    PlacedKeepsTheRest(s, order, present);
    SettledThenRest(s, Placed(s, order, present), order, present);
  }

  lemma SettledThenRest<T>(s: seq<T>, t: seq<T>, order: seq<T>, present: nat)
    requires present <= |order| && present <= |t| && Distinct(s) && multiset(s) == multiset(t)
    requires t[..present] == order[..present] && Without(t, order) == Without(s, order)
    requires forall i :: present <= i < |order| ==> order[i] !in s
    ensures t == order[..present] + Without(s, order)
  {
    DistinctRearranged(s, t);
    RearrangedLength(s, t);
    DistinctApart(t, present);
    RestUnnamed(s, t[present..], order, present);
    assert t == t[..present] + t[present..];
    SplitWithout(t[..present], t[present..], order);
  }

  lemma RestUnnamed<T>(s: seq<T>, b: seq<T>, order: seq<T>, present: nat)
    requires present <= |order|
    requires forall x :: x in b ==> x in s
    requires forall x :: x in order[..present] ==> x !in b
    requires forall i :: present <= i < |order| ==> order[i] !in s
    ensures forall x :: x in b ==> x !in order
    ensures forall x :: x in order[..present] ==> x in order
  {
    assert order == order[..present] + order[present..];
  }

  lemma SplitWithout<T>(a: seq<T>, b: seq<T>, order: seq<T>)
    requires forall x :: x in a ==> x in order
    requires forall x :: x in b ==> x !in order
    ensures Without(a + b, order) == b
  {
    WithoutConcat(a, b, order);
    WithoutAll(a, order);
    WithoutNone(b, order);
  }

  /** A saved name that no longer exists, ahead of one that does, spoils the order: the later names
      aim at rows that are too low. */
  lemma MissingNameSpoilsOrder()
    ensures Placed(["A", "B", "C"], ["X", "C"], 2) == ["A", "C", "B"]
  {
    var s, order := ["A", "B", "C"], ["X", "C"];
    assert Placed(s, order, 0) == s;
    assert Placed(s, order, 1) == s;
    FirstIsIndex(["A", "B"], "C", []);
    assert s == ["A", "B"] + ["C"] + [];
    assert Moved(s, 2, 1) == ["A", "C", "B"];
    assert Placed(s, order, 2) == MoveTo(s, "C", 1);
  }

  /** The scene list takes the order saved in the scene collection. */
  method LoadSceneListOrder(scenes: ListWidget<string>, saved: seq<string>)
    modifies scenes
    ensures scenes.items == Placed(old(scenes.items), saved, |saved|)
  {
    for i := 0 to |saved|
      invariant scenes.items == Placed(old(scenes.items), saved, i)
    {
      ReorderItem(scenes, saved[i], i);
    }
  }

  // ---------------------------------------------------------------- filter lists

  datatype Filter = Filter(id: int, async: bool)

  function Select(chain: seq<Filter>, async: bool): seq<Filter> {
    if chain == [] then [] else (if chain[0].async == async then [chain[0]] else []) + Select(chain[1..], async)
  }

  /** One pass over the filter chain serves both lists, each with its own row counter. */
  method ReorderFilters(asyncFilters: ListWidget<Filter>, effectFilters: ListWidget<Filter>, chain: seq<Filter>)
    requires asyncFilters != effectFilters
    modifies asyncFilters, effectFilters
    ensures asyncFilters.items == FilterList(old(asyncFilters.items), chain, true)
    ensures effectFilters.items == FilterList(old(effectFilters.items), chain, false)
  {
    var asyncIdx, effectIdx := 0, 0;
    for i := 0 to |chain|
      invariant asyncIdx == |Select(chain[..i], true)| && effectIdx == |Select(chain[..i], false)|
      invariant asyncFilters.items == FilterList(old(asyncFilters.items), chain[..i], true)
      invariant effectFilters.items == FilterList(old(effectFilters.items), chain[..i], false)
    {
      var filter := chain[i];
      assert chain[..i + 1] == chain[..i] + [filter];
      NextFilter(old(asyncFilters.items), chain[..i], filter, true);
      NextFilter(old(effectFilters.items), chain[..i], filter, false);
      if filter.async {
        ReorderItem(asyncFilters, filter, asyncIdx);
        asyncIdx := asyncIdx + 1;
      } else {
        ReorderItem(effectFilters, filter, effectIdx);
        effectIdx := effectIdx + 1;
      }
    }
    assert chain[..|chain|] == chain;
  }

  /** The filters of one kind, each moved to its rank among them. */
  ghost function FilterList(list: seq<Filter>, chain: seq<Filter>, async: bool): seq<Filter> {
    Placed(list, Select(chain, async), |Select(chain, async)|)
  }

  lemma {:induction false} SelectSnoc(chain: seq<Filter>, f: Filter, async: bool)
    ensures Select(chain + [f], async) == Select(chain, async) + if f.async == async then [f] else []
  {
    if chain == [] {
      assert chain + [f] == [f] && [f][1..] == [];
    } else {
      SelectSnoc(chain[1..], f, async);
      assert (chain + [f])[1..] == chain[1..] + [f];
      Associative(if chain[0].async == async then [chain[0]] else [], Select(chain[1..], async),
                  if f.async == async then [f] else []);
    }
  }

  lemma {:induction false} PlacedPrefix<T>(s: seq<T>, a: seq<T>, b: seq<T>, k: nat)
    requires k <= |a|
    ensures Placed(s, a + b, k) == Placed(s, a, k)
  {
    if k > 0 {
      PlacedPrefix(s, a, b, k - 1);
    }
  }

  lemma NextFilter(list: seq<Filter>, chain: seq<Filter>, f: Filter, async: bool)
    ensures |Select(chain + [f], async)| == |Select(chain, async)| + if f.async == async then 1 else 0
    ensures FilterList(list, chain + [f], async) ==
            if f.async == async then MoveTo(FilterList(list, chain, async), f, |Select(chain, async)|)
            else FilterList(list, chain, async)
  {
    var order := Select(chain, async);
    SelectSnoc(chain, f, async);
    if f.async == async {
      PlacedPrefix(list, order, [f], |order|);
    } else {
      assert order + [] == order;
    }
  }

  lemma {:induction false} SelectMembers(chain: seq<Filter>, async: bool)
    requires Distinct(chain)
    ensures forall f :: f in Select(chain, async) <==> f in chain && f.async == async
    ensures Distinct(Select(chain, async))
  {
    if chain != [] {
      DistinctTail(chain);
      SelectMembers(chain[1..], async);
      var rest := Select(chain[1..], async);
      DistinctCons(chain[0], rest);
      assert [] + rest == rest;
      assert chain == [chain[0]] + chain[1..];
    }
  }

  /** If a list holds the filters of its kind in any order, it ends up as their subsequence of the
      chain. */
  lemma FilterListFollowsChain(list: seq<Filter>, chain: seq<Filter>, async: bool)
    requires Distinct(chain) && multiset(list) == multiset(Select(chain, async))
    ensures FilterList(list, chain, async) == Select(chain, async)
  {
    var order := Select(chain, async);
    SelectMembers(chain, async);
    DistinctRearranged(order, list);
    RearrangedLength(order, list);
    PlacedIsOrderThenRest(list, order, |order|);
    WithoutAll(list, order);
    assert order[..|order|] + [] == order;
  }

  // ---------------------------------------------------------------- the source list

  /** The list after the first k items of the scene have been moved to the rows that mirror their
      places. */
  ghost function Mirrored<T>(s: seq<T>, scene: seq<T>, k: nat): seq<T>
    requires k <= |scene|
  {
    if k == 0 then s else MoveTo(Mirrored(s, scene, k - 1), scene[k - 1], |s| - k)
  }

  lemma {:induction false} MirroredKeepsItems<T>(s: seq<T>, scene: seq<T>, k: nat)
    requires k <= |scene|
    ensures multiset(Mirrored(s, scene, k)) == multiset(s) && |Mirrored(s, scene, k)| == |s|
  {
    if k > 0 {
      MirroredKeepsItems(s, scene, k - 1);
      MoveKeepsItems(Mirrored(s, scene, k - 1), scene[k - 1], |s| - k);
    }
  }

  /** The last k rows already mirror the first k items of the scene. */
  ghost predicate TailMirrors<T>(s: seq<T>, scene: seq<T>, k: nat) {
    k <= |scene| == |s| && s[|s| - k..] == Reverse(scene[..k])
  }

  lemma MoveInFrontOfTail<T>(s: seq<T>, x: T, m: nat, t: seq<T>)
    requires m <= |s| && x in s && x !in s[m..] && t == MoveTo(s, x, m - 1)
    ensures m > 0 && |t| == |s| && t[m - 1..] == [x] + s[m..]
  {
    IndexBeforeTail(s, x, m);
    RowsBelow(s, IndexOf(s, x), m - 1, t);
    TailFrom(s, x, m, t);
  }

  lemma RowsBelow<T>(s: seq<T>, i: nat, j: nat, t: seq<T>)
    requires i <= j < |s| && t == Moved(s, i, j)
    ensures |t| == |s| && t[j] == s[i] && forall k :: j < k < |s| ==> t[k] == s[k]
  {
  }

  lemma TailFrom<T>(s: seq<T>, x: T, m: nat, t: seq<T>)
    requires 0 < m <= |s| == |t| && t[m - 1] == x && forall k :: m <= k < |s| ==> t[k] == s[k]
    ensures t[m - 1..] == [x] + s[m..]
  {
  }

  lemma MirrorSettles<T>(s: seq<T>, scene: seq<T>, k: nat, t: seq<T>)
    requires TailMirrors(s, scene, k) && k < |scene| && scene[k] !in scene[..k] && scene[k] in s
    requires t == MoveTo(s, scene[k], |s| - k - 1)
    ensures TailMirrors(t, scene, k + 1)
  {
    ReverseMembers(scene[..k], scene[k]);
    MoveInFrontOfTail(s, scene[k], |s| - k, t);
    ReverseOfPrefix(scene, k);
  }

  lemma ReverseOfPrefix<T>(s: seq<T>, k: nat)
    requires k < |s|
    ensures Reverse(s[..k + 1]) == [s[k]] + Reverse(s[..k])
  {
    assert s[..k + 1] == s[..k] + [s[k]];
    ReverseSnoc(s[..k], s[k]);
  }

  lemma AllMirrored<T>(s: seq<T>, scene: seq<T>)
    requires TailMirrors(s, scene, |scene|)
    ensures s == Reverse(scene)
  {
    assert s[0..] == s && scene[..|scene|] == scene;
  }

  lemma {:induction false} MirroredSettles<T>(s: seq<T>, scene: seq<T>, k: nat)
    requires k <= |scene| == |s| && DistinctUpTo(scene, k)
    requires forall x :: x in scene ==> x in s
    ensures TailMirrors(Mirrored(s, scene, k), scene, k)
  {
    if k > 0 {
      MirroredSettles(s, scene, k - 1);
      MirroredItems(s, scene, k - 1, scene[k - 1]);
      assert scene[k - 1] !in scene[..k - 1];
      MirroredStep(s, scene, k - 1);
    } else {
      MirroredNone(s, scene);
    }
  }

  lemma MirroredNone<T>(s: seq<T>, scene: seq<T>)
    requires |scene| == |s|
    ensures TailMirrors(Mirrored(s, scene, 0), scene, 0)
  {
  }

  lemma MirroredStep<T>(s: seq<T>, scene: seq<T>, k: nat)
    requires k < |scene| == |s| == |Mirrored(s, scene, k)| && TailMirrors(Mirrored(s, scene, k), scene, k)
    requires scene[k] !in scene[..k] && scene[k] in Mirrored(s, scene, k)
    ensures TailMirrors(Mirrored(s, scene, k + 1), scene, k + 1)
  {
    MirrorSettles(Mirrored(s, scene, k), scene, k, Mirrored(s, scene, k + 1));
  }

  lemma MirroredItems<T>(s: seq<T>, scene: seq<T>, k: nat, x: T)
    requires k <= |scene|
    ensures |Mirrored(s, scene, k)| == |s| && (x in s <==> x in Mirrored(s, scene, k))
  {
    MirroredKeepsItems(s, scene, k);
    RearrangedLength(s, Mirrored(s, scene, k));
  }

  /** From any arrangement of the scene's items, the sweep makes the list the exact reverse of the
      scene. */
  lemma MirroredIsReverse<T>(s: seq<T>, scene: seq<T>)
    requires Distinct(scene) && multiset(s) == multiset(scene)
    ensures Mirrored(s, scene, |scene|) == Reverse(scene)
  {
    RearrangedLength(s, scene);
    MirroredSettles(s, scene, |scene|);
    AllMirrored(Mirrored(s, scene, |scene|), scene);
  }

  datatype View<T> = View(scene: seq<T>, sources: seq<T>)

  datatype Change<T> =
    | Add(item: T)
    | Remove(item: T)
    | Reorder(scene: seq<T>)
    | Drop(dropped: seq<T>)
    | Show(scene: seq<T>)

  /** Which changes can happen: scenes hold distinct items, and reordering or dropping only
      rearranges them. */
  ghost predicate Possible<T>(v: View<T>, c: Change<T>) {
    match c
    case Add(x) => x !in v.scene
    case Remove(x) => x in v.scene
    case Reorder(order) => multiset(order) == multiset(v.scene)
    case Drop(order) => multiset(order) == multiset(v.sources)
    case Show(scene) => Distinct(scene)
  }

  ghost function After<T>(v: View<T>, c: Change<T>): View<T> {
    match c
    case Add(x) => View(v.scene + [x], [x] + v.sources)
    case Remove(x) => View(Deleted(v.scene, x), Deleted(v.sources, x))
    case Reorder(order) => View(order, Mirrored(v.sources, order, |order|))
    case Drop(order) => View(if order == [] then v.scene else Reverse(order), order)
    case Show(scene) => View(scene, Reverse(scene))
  }

  ghost function Deleted<T>(s: seq<T>, x: T): seq<T> {
    if x in s then RemovedAt(s, IndexOf(s, x)) else s
  }

  /** The sources panel of the main window and the scene that it shows. */
  class SourcesPanel<T(==)> {
    const sources: ListWidget<T>
    var scene: seq<T>
    var ignoreReorder: bool

    constructor (sources: ListWidget<T>, scene: seq<T>)
      ensures this.sources == sources && this.scene == scene && !ignoreReorder
    {
      this.sources, this.scene, ignoreReorder := sources, scene, false;
    }

    ghost function Now(): View<T>
      reads this, sources
    {
      View(scene, sources.items)
    }

    method InsertSceneItem(item: T)
      modifies sources
      ensures sources.items == [item] + old(sources.items)
    {
      sources.InsertItem(0, item);
    }

    /** libobs has put a new item on top of a scene. */
    method SceneItemAdded(item: T, isCurrentScene: bool)
      modifies this, sources
      ensures Now() == if isCurrentScene then After(old(Now()), Add(item)) else old(Now())
      ensures ignoreReorder == old(ignoreReorder)
    {
      if isCurrentScene {
        scene := scene + [item];
        InsertSceneItem(item);
      }
    }

    /** Shows another scene. */
    method UpdateSources(shown: seq<T>)
      modifies this, sources
      ensures Now() == After(old(Now()), Show(shown)) && ignoreReorder == old(ignoreReorder)
    {
      scene := shown;
      sources.items := [];
      for i := 0 to |scene|
        invariant scene == shown && ignoreReorder == old(ignoreReorder)
        invariant sources.items == Reverse(scene[..i])
      {
        assert scene[..i + 1] == scene[..i] + [scene[i]];
        ReverseSnoc(scene[..i], scene[i]);
        InsertSceneItem(scene[i]);
      }
      assert scene[..|scene|] == scene;
    }

    /** libobs has removed an item from the scene. */
    method SceneItemRemoved(item: T, remaining: seq<T>)
      requires remaining == Deleted(scene, item)
      modifies this, sources
      ensures Now() == After(old(Now()), Remove(item)) && ignoreReorder == old(ignoreReorder)
    {
      scene := remaining;
      RemoveSceneItem(item);
    }

    /** libobs has rearranged a scene. */
    method SceneReordered(order: seq<T>, isCurrentScene: bool)
      modifies this, sources
      ensures Now() == if !isCurrentScene then old(Now())
                       else if ignoreReorder then View(order, old(Now()).sources)
                       else After(old(Now()), Reorder(order))
      ensures ignoreReorder == old(ignoreReorder)
    {
      if isCurrentScene {
        scene := order;
      }
      ReorderSources(isCurrentScene);
    }

    method RemoveSceneItem(item: T)
      modifies sources
      ensures sources.items == Deleted(old(sources.items), item)
    {
      for i := 0 to |sources.items|
        invariant sources.items == old(sources.items)
        invariant item !in sources.items[..i]
      {
        if sources.items[i] == item {
          assert sources.items == sources.items[..i] + [item] + sources.items[i + 1..];
          FirstIsIndex(sources.items[..i], item, sources.items[i + 1..]);
          var deleted := sources.TakeItem(i);
          return;
        }
      }
      assert sources.items[..|sources.items|] == sources.items;
    }

    /** The scene's order has changed. */
    method ReorderSources(isCurrentScene: bool)
      modifies sources
      ensures sources.items == if isCurrentScene && !ignoreReorder then Mirrored(old(sources.items), scene, |scene|)
                               else old(sources.items)
    {
      if !isCurrentScene || ignoreReorder { return; }
      for idx := 0 to |scene|
        invariant sources.items == Mirrored(old(sources.items), scene, idx)
      {
        MirroredKeepsItems(old(sources.items), scene, idx);
        ReorderItem(sources, scene[idx], |sources.items| - idx - 1);
      }
    }

    /** An item was dropped in the list: the scene takes over the new order, and the reordering
        signal this causes must not move the list again. */
    method DropEvent(dropped: seq<T>, accepted: bool)
      modifies this, sources
      ensures accepted ==> Now() == After(old(Now()), Drop(dropped))
      ensures !accepted ==> Now() == View(old(scene), dropped)
      ensures ignoreReorder == if accepted && dropped != [] then false else old(ignoreReorder)
    {
      sources.items := dropped;
      if !accepted || |sources.items| == 0 { return; }
      var newOrder := [];
      var i := |sources.items| - 1;
      while i >= 0
        invariant -1 <= i < |sources.items| && sources.items == dropped && unchanged(`scene)
        invariant newOrder == Reverse(dropped[i + 1..])
      {
        assert dropped[i..] == [dropped[i]] + dropped[i + 1..];
        newOrder := newOrder + [sources.items[i]];
        i := i - 1;
      }
      assert dropped[0..] == dropped;
      ignoreReorder := true;
      scene := newOrder;
      ReorderSources(true);
      ignoreReorder := false;
    }
  }

  // ---------------------------------------------------------------- the mirror relation over runs

  ghost predicate InMirror<T>(v: View<T>) {
    Distinct(v.scene) && v.sources == Reverse(v.scene)
  }

  lemma MirroredIndex<T>(scene: seq<T>, x: T)
    requires Distinct(scene) && x in scene
    ensures x in Reverse(scene) && IndexOf(Reverse(scene), x) == |scene| - 1 - IndexOf(scene, x)
  {
    var i := IndexOf(scene, x);
    var a, b := scene[..i], scene[i + 1..];
    assert scene == a + [x] + b;
    assert scene[i..] == [x] + b;
    DistinctApart(scene, i + 1);
    assert x in scene[..i + 1];
    ReverseKeepsItems(b);
    assert Reverse(scene) == Reverse(b) + [x] + Reverse(a);
    FirstIsIndex(Reverse(b), x, Reverse(a));
  }

  lemma DeletedMirrors<T>(scene: seq<T>, x: T)
    requires Distinct(scene) && x in scene
    ensures Distinct(Deleted(scene, x)) && Deleted(Reverse(scene), x) == Reverse(Deleted(scene, x))
  {
    MirroredIndex(scene, x);
    DistinctRemoved(scene, IndexOf(scene, x));
    RemovedMirrors(scene, IndexOf(scene, x));
  }

  lemma RemovedMirrors<T>(s: seq<T>, i: nat)
    requires i < |s|
    ensures RemovedAt(Reverse(s), |s| - 1 - i) == Reverse(RemovedAt(s, i))
  {
  }

  lemma ChangeKeepsMirror<T>(v: View<T>, c: Change<T>)
    requires InMirror(v) && Possible(v, c)
    ensures InMirror(After(v, c))
  {
    ReverseKeepsItems(v.scene);
    match c {
      case Add(x) =>
        DistinctSnoc(v.scene, x);
        ReverseSnoc(v.scene, x);
      case Remove(x) =>
        DeletedMirrors(v.scene, x);
      case Reorder(order) =>
        DistinctRearranged(v.scene, order);
        MirroredIsReverse(v.sources, order);
      case Drop(order) =>
        RearrangedLength(order, v.sources);
        ReverseKeepsItems(order);
        DistinctRearranged(v.scene, Reverse(order));
        ReverseTwice(order);
      case Show(_) =>
    }
  }

  /** What each change does to a scene and its list: new items come last in the scene and first in the
      list, removing takes out the item from both, and whatever rearranges one of them turns the
      other into its reverse. */
  lemma ChangesInFull<T>(v: View<T>, a: seq<T>, x: T, b: seq<T>, order: seq<T>)
    requires InMirror(v) && v.scene == a + [x] + b
    ensures forall y :: After(v, Add(y)) == View(v.scene + [y], [y] + v.sources)
    ensures After(v, Remove(x)) == View(a + b, Reverse(b) + Reverse(a))
    ensures multiset(order) == multiset(v.scene) ==> After(v, Reorder(order)) == View(order, Reverse(order))
    ensures multiset(order) == multiset(v.scene) ==> After(v, Drop(order)) == View(Reverse(order), order)
    ensures After(v, Show(order)) == View(order, Reverse(order))
  {
    OnlyPlaceOf(v.scene, a, x, b);
    FirstIsIndex(a, x, b);
    assert RemovedAt(v.scene, |a|) == a + b;
    DeletedMirrors(v.scene, x);
    assert Reverse(a + b) == Reverse(b) + Reverse(a);
    if multiset(order) == multiset(v.scene) {
      ReverseKeepsItems(v.scene);
      DistinctRearranged(v.scene, order);
      MirroredIsReverse(v.sources, order);
      RearrangedLength(order, v.scene);
    }
  }

  lemma OnlyPlaceOf<T>(s: seq<T>, a: seq<T>, x: T, b: seq<T>)
    requires Distinct(s) && s == a + [x] + b
    ensures x !in a && x in s
  {
    assert s[..|a|] == a && s[|a|] == x && x !in s[..|a|];
  }

  ghost predicate PossibleRun<T>(v: View<T>, changes: seq<Change<T>>)
    decreases |changes|
  {
    changes == [] || (Possible(v, changes[0]) && PossibleRun(After(v, changes[0]), changes[1..]))
  }

  ghost function AfterAll<T>(v: View<T>, changes: seq<Change<T>>): View<T>
    decreases |changes|
  {
    if changes == [] then v else AfterAll(After(v, changes[0]), changes[1..])
  }

  /** Adding, removing, reordering and dropping items keeps the list the mirror of the scene. */
  lemma {:induction false} RunKeepsMirror<T>(v: View<T>, changes: seq<Change<T>>)
    requires InMirror(v) && PossibleRun(v, changes)
    ensures InMirror(AfterAll(v, changes))
    decreases |changes|
  {
    if changes != [] {
      ChangeKeepsMirror(v, changes[0]);
      RunKeepsMirror(After(v, changes[0]), changes[1..]);
    }
  }
}
