/** The hotkey editor: one widget per hotkey, one row per key combination.

    A row is a line edit with a revert, a clear and a remove button.  The edits, the revert and the
    remove buttons live in three vectors of their own, and the rows with their clear buttons in the
    widget's layout.  Signals reach the widgets of the row they were connected for, so every widget
    here carries the number of its row.
 */
module HotkeyEditor {
  import opened Sequences

  datatype Combo = Combo(modifiers: nat, key: nat)

  const NO_KEY := Combo(0, 0)

  predicate IsEmpty(c: Combo) {
    c.modifiers == 0 && c.key == 0
  }

  datatype Edit = Edit(row: nat, original: Combo, key: Combo, changed: bool)

  datatype Button = Button(row: nat, enabled: bool)

  /** The state of a widget; bindings are those it last read from or wrote to the hotkey, and
      created counts the rows made so far. */
  datatype State = State(
    id: nat,
    edits: seq<Edit>,
    revertButtons: seq<Button>,
    clearButtons: seq<Button>,
    removeButtons: seq<Button>,
    changed: bool,
    ignoreChangedBindings: bool,
    created: nat,
    bindings: seq<Combo>)

  function Keys(edits: seq<Edit>): (r: seq<Combo>)
    ensures |r| == |edits|
  {
    seq(|edits|, i requires 0 <= i < |edits| => edits[i].key)
  }

  function Originals(edits: seq<Edit>): (r: seq<Combo>)
    ensures |r| == |edits|
  {
    seq(|edits|, i requires 0 <= i < |edits| => edits[i].original)
  }

  function Rows(edits: seq<Edit>): seq<nat> {
    seq(|edits|, i requires 0 <= i < |edits| => edits[i].row)
  }

  function ButtonRows(buttons: seq<Button>): seq<nat> {
    seq(|buttons|, i requires 0 <= i < |buttons| => buttons[i].row)
  }

  function NonEmpty(combos: seq<Combo>): seq<Combo> {
    if combos == [] then []
    else NonEmpty(combos[..|combos| - 1]) + Kept(combos[|combos| - 1])
  }

  function Kept(c: Combo): seq<Combo> {
    if IsEmpty(c) then [] else [c]
  }

  function Combinations(s: State): seq<Combo> {
    NonEmpty(Keys(s.edits))
  }

  ghost predicate Changed(s: State) {
    s.changed || exists e :: e in s.edits && e.changed
  }

  /** The place of a row, or the length of the list if it is gone. */
  function Find(rows: seq<nat>, row: nat): (i: nat)
    ensures i <= |rows| && (i < |rows| <==> row in rows)
    ensures i < |rows| ==> rows[i] == row
  {
    if rows == [] then 0
    else if rows[0] == row then 0
    else 1 + Find(rows[1..], row)
  }

  // ---------------------------------------------------------------- one row

  function Fresh(row: nat, combo: Combo): Edit {
    Edit(row, combo, combo, false)
  }

  function WithKey(e: Edit, combo: Combo): Edit {
    if combo == e.key || IsEmpty(combo) then e else e.(key := combo, changed := true)
  }

  function Reset(e: Edit): Edit {
    e.(key := e.original, changed := false)
  }

  function Cleared(e: Edit): Edit {
    e.(key := NO_KEY, changed := true)
  }

  /** The buttons after setting the one of a row. */
  function Set(buttons: seq<Button>, row: nat, on: bool): seq<Button> {
    seq(|buttons|, i requires 0 <= i < |buttons| => if buttons[i].row == row then Button(row, on) else buttons[i])
  }

  predicate Enabled(buttons: seq<Button>, row: nat) {
    Button(row, true) in buttons
  }

  function SetFirst(buttons: seq<Button>, on: bool): seq<Button> {
    if |buttons| == 1 then [buttons[0].(enabled := on)] else buttons
  }

  /** An edit announces its key: its own buttons follow. */
  function KeyChanged(s: State, i: nat, e: Edit): State
    requires i < |s.edits|
  {
    s.(edits := s.edits[i := e],
       revertButtons := Set(s.revertButtons, e.row, e.original != e.key),
       clearButtons := Set(s.clearButtons, e.row, !IsEmpty(e.key)))
  }

  // ---------------------------------------------------------------- rows of the widget

  predicate SameLength(s: State) {
    |s.edits| == |s.revertButtons| == |s.clearButtons| == |s.removeButtons|
  }

  function Place<T>(list: seq<T>, idx: int): int {
    if idx == -1 then |list| else idx
  }

  function Added(s: State, combo: Combo, idx: int): State
    requires -1 <= idx <= |s.edits|
  {
    var row := s.created;
    s.(edits := InsertedAt(s.edits, Place(s.edits, idx), Fresh(row, combo)),
       revertButtons := InsertedAt(s.revertButtons, Place(s.revertButtons, idx), Button(row, false)),
       clearButtons := InsertedAt(s.clearButtons, Place(s.clearButtons, idx), Button(row, !IsEmpty(combo))),
       removeButtons := InsertedAt(SetFirst(s.removeButtons, true), Place(s.removeButtons, idx),
                                   Button(row, |s.removeButtons| > 0)),
       created := row + 1)
  }

  function Removed(s: State, idx: nat, signal: bool): State
    requires SameLength(s) && idx < |s.edits|
  {
    s.(edits := RemovedAt(s.edits, idx),
       revertButtons := RemovedAt(s.revertButtons, idx),
       clearButtons := RemovedAt(s.clearButtons, idx),
       removeButtons := SetFirst(RemovedAt(s.removeButtons, idx), false),
       changed := s.changed || (signal && !IsEmpty(s.edits[idx].original)))
  }

  function Applied(s: State): State {
    s.(edits := seq(|s.edits|, i requires 0 <= i < |s.edits| => s.edits[i].(original := s.edits[i].key, changed := false)),
       revertButtons := seq(|s.revertButtons|, i requires 0 <= i < |s.revertButtons| => s.revertButtons[i].(enabled := false)),
       changed := false)
  }

  function Saved(s: State): State {
    Applied(s).(bindings := Combinations(s), ignoreChangedBindings := false)
  }

  /** The rows taken away one by one from the end. */
  function Emptied(s: State): State
    requires SameLength(s)
    decreases |s.edits|
  {
    if s.edits == [] then s else Emptied(Removed(s, |s.edits| - 1, false))
  }

  function Filled(s: State, combos: seq<Combo>): State {
    if combos == [] then s
    else Added(Filled(s, combos[..|combos| - 1]), combos[|combos| - 1], -1)
  }

  /** An empty list of combinations still shows one empty row. */
  function Shown(combos: seq<Combo>): seq<Combo> {
    if combos == [] then [NO_KEY] else combos
  }

  function Loaded(s: State, combos: seq<Combo>): State
    requires SameLength(s)
  {
    Filled(Emptied(s).(bindings := combos), Shown(combos))
  }

  function Rebound(s: State, id: nat, combos: seq<Combo>): State
    requires SameLength(s)
  {
    if s.ignoreChangedBindings || s.id != id then s else Loaded(s, combos)
  }

  function Initial(id: nat, combos: seq<Combo>): (s: State)
    ensures SameLength(s)
  {
    var s := State(id, [], [], [], [], false, false, 0, combos);
    FilledLength(s, Shown(combos));
    Filled(s, Shown(combos))
  }

  // ---------------------------------------------------------------- the widget

  class HotkeyWidget {
    const id: nat
    var edits: seq<Edit>
    var revertButtons: seq<Button>
    var clearButtons: seq<Button>
    var removeButtons: seq<Button>
    var changed: bool
    var ignoreChangedBindings: bool
    var created: nat
    var bindings: seq<Combo>

    function View(): State
      reads this
    {
      State(id, edits, revertButtons, clearButtons, removeButtons, changed, ignoreChangedBindings, created, bindings)
    }

    constructor (id: nat, combos: seq<Combo>)
      ensures View() == Initial(id, combos)
    {
      this.id := id;
      edits, revertButtons, clearButtons, removeButtons := [], [], [], [];
      changed, ignoreChangedBindings, created, bindings := false, false, 0, combos;
      new;
      SetKeyCombinations(combos);
    }

    method SetKeyCombinations(combos: seq<Combo>)
      modifies this
      ensures View() == Filled(old(View()), Shown(combos))
    {
      if combos == [] {
        AddEdit(NO_KEY, -1);
        FilledOne(old(View()), NO_KEY);
      }
      for n := 0 to |combos|
        invariant combos != [] ==> View() == Filled(old(View()), combos[..n])
        invariant combos == [] ==> View() == Filled(old(View()), [NO_KEY])
      {
        assert combos[..n + 1][..n] == combos[..n];
        AddEdit(combos[n], -1);
      }
      assert combos[..|combos|] == combos;
    }

    method AddEdit(combo: Combo, idx: int)
      requires -1 <= idx <= |edits|
      modifies this
      ensures View() == Added(old(View()), combo, idx)
    {
      var row := created;
      created := created + 1;
      var remove := Button(row, |removeButtons| > 0);
      if |removeButtons| == 1 {
        removeButtons := [removeButtons[0].(enabled := true)];
      }
      revertButtons := InsertedAt(revertButtons, Place(revertButtons, idx), Button(row, false));
      clearButtons := InsertedAt(clearButtons, Place(clearButtons, idx), Button(row, !IsEmpty(combo)));
      removeButtons := InsertedAt(removeButtons, Place(removeButtons, idx), remove);
      edits := InsertedAt(edits, Place(edits, idx), Fresh(row, combo));
    }

    method RemoveEdit(idx: nat, signal: bool)
      requires SameLength(View()) && idx < |edits|
      modifies this
      ensures View() == Removed(old(View()), idx, signal)
    {
      if !IsEmpty(edits[idx].original) && signal {
        changed := true;
      }
      revertButtons := RemovedAt(revertButtons, idx);
      removeButtons := RemovedAt(removeButtons, idx);
      edits := RemovedAt(edits, idx);
      clearButtons := RemovedAt(clearButtons, idx);
      if |removeButtons| == 1 {
        removeButtons := [removeButtons[0].(enabled := false)];
      }
    }

    method CurrentIndex(row: nat) returns (i: nat)
      ensures i == Find(ButtonRows(removeButtons), row)
    {
      var rows := ButtonRows(removeButtons);
      i := 0;
      while i < |removeButtons| && removeButtons[i].row != row
        invariant i <= |rows| && Find(rows, row) == i + Find(rows[i..], row)
      {
        assert rows[i..][1..] == rows[i + 1..];
        i := i + 1;
      }
    }

    method AddClicked(row: nat)
      requires SameLength(View()) && row in ButtonRows(removeButtons)
      modifies this
      ensures View() == Next(old(View()), Add(row))
    {
      var i := CurrentIndex(row);
      AddEdit(NO_KEY, i + 1);
    }

    method RemoveClicked(row: nat)
      requires SameLength(View()) && row in ButtonRows(removeButtons)
      requires removeButtons[Find(ButtonRows(removeButtons), row)].enabled
      modifies this
      ensures View() == Next(old(View()), Remove(row))
    {
      var i := CurrentIndex(row);
      RemoveEdit(i, true);
    }

    method HandleNewKey(i: nat, combo: Combo)
      requires i < |edits|
      modifies this
      ensures View() == if WithKey(old(edits)[i], combo) == old(edits)[i] then old(View())
                        else KeyChanged(old(View()), i, WithKey(old(edits)[i], combo))
    {
      var e := edits[i];
      if combo == e.key || IsEmpty(combo) {
        return;
      }
      e := e.(key := combo, changed := true);
      EmitKeyChanged(i, e);
    }

    method EmitKeyChanged(i: nat, e: Edit)
      requires i < |edits|
      modifies this
      ensures View() == KeyChanged(old(View()), i, e)
    {
      edits := edits[i := e];
      clearButtons := Set(clearButtons, e.row, !IsEmpty(e.key));
      revertButtons := Set(revertButtons, e.row, e.original != e.key);
    }

    method ResetKey(i: nat)
      requires i < |edits|
      modifies this
      ensures View() == KeyChanged(old(View()), i, Reset(old(edits)[i]))
    {
      EmitKeyChanged(i, edits[i].(key := edits[i].original, changed := false));
    }

    method ClearKey(i: nat)
      requires i < |edits|
      modifies this
      ensures View() == KeyChanged(old(View()), i, Cleared(old(edits)[i]))
    {
      EmitKeyChanged(i, edits[i].(key := NO_KEY, changed := true));
    }

    method Apply()
      modifies this
      ensures View() == Applied(old(View()))
    {
      for n := 0 to |edits|
        invariant View() == old(View()).(edits := edits) && |edits| == |old(edits)|
        invariant forall i :: 0 <= i < n ==> edits[i] == old(edits)[i].(original := old(edits)[i].key, changed := false)
        invariant forall i :: n <= i < |edits| ==> edits[i] == old(edits)[i]
      {
        edits := edits[n := edits[n].(original := edits[n].key, changed := false)];
      }
      changed := false;
      for n := 0 to |revertButtons|
        invariant View() == Applied(old(View())).(revertButtons := revertButtons)
        invariant |revertButtons| == |old(revertButtons)|
        invariant forall i :: 0 <= i < n ==> revertButtons[i] == old(revertButtons)[i].(enabled := false)
        invariant forall i :: n <= i < |revertButtons| ==> revertButtons[i] == old(revertButtons)[i]
      {
        revertButtons := revertButtons[n := revertButtons[n].(enabled := false)];
      }
    }

    method GetCombinations() returns (combinations: seq<Combo>)
      ensures combinations == Combinations(View())
    {
      combinations := [];
      ghost var keys := Keys(edits);
      for n := 0 to |edits|
        invariant combinations == NonEmpty(keys[..n])
      {
        assert keys[..n + 1][..n] == keys[..n];
        if !IsEmpty(edits[n].key) {
          combinations := combinations + [edits[n].key];
        }
      }
      assert keys[..|edits|] == keys;
    }

    /** Writing the bindings makes the hotkey announce them at once, to this widget too, which
        ignores them while it saves. */
    method Save() returns (combinations: seq<Combo>)
      requires SameLength(View())
      modifies this
      ensures View() == Saved(old(View()))
      ensures combinations == Combinations(old(View()))
    {
      combinations := GetCombinations();
      Apply();
      ignoreChangedBindings := true;
      bindings := combinations;
      HandleChangedBindings(id, combinations);
      ignoreChangedBindings := false;
    }

    method HandleChangedBindings(id_: nat, current: seq<Combo>)
      requires SameLength(View())
      modifies this
      ensures View() == Rebound(old(View()), id_, current)
    {
      if ignoreChangedBindings || id != id_ {
        return;
      }
      while |edits| > 0
        invariant SameLength(View())
        invariant Emptied(View()) == Emptied(old(View()))
        decreases |edits|
      {
        RemoveEdit(|edits| - 1, false);
      }
      bindings := current;
      SetKeyCombinations(current);
    }
  }

  lemma FilledOne(s: State, c: Combo)
    ensures Filled(s, [c]) == Added(s, c, -1)
  {
    assert [c][..0] == [];
    assert Filled(s, []) == s;
  }

  // ---------------------------------------------------------------- what can happen

  /** What the user does to the widgets of a row, saving, and the hotkey's own announcements.
      A disabled button takes no click, and the widgets of a removed row take nothing. */
  datatype Action =
    | Press(row: nat, combo: Combo)
    | Revert(row: nat)
    | Clear(row: nat)
    | Add(row: nat)
    | Remove(row: nat)
    | Save
    | Rebind(id: nat, combos: seq<Combo>)

  function Next(s: State, a: Action): (s': State)
    requires SameLength(s)
    ensures SameLength(s')
  {
    match a
    case Press(row, combo) =>
      var i := Find(Rows(s.edits), row);
      if i == |s.edits| || WithKey(s.edits[i], combo) == s.edits[i] then s
      else KeyChanged(s, i, WithKey(s.edits[i], combo))
    case Revert(row) =>
      var i := Find(Rows(s.edits), row);
      if i == |s.edits| || !Enabled(s.revertButtons, row) then s else KeyChanged(s, i, Reset(s.edits[i]))
    case Clear(row) =>
      var i := Find(Rows(s.edits), row);
      if i == |s.edits| || !Enabled(s.clearButtons, row) then s else KeyChanged(s, i, Cleared(s.edits[i]))
    case Add(row) =>
      var i := Find(ButtonRows(s.removeButtons), row);
      if i == |s.edits| then s else Added(s, NO_KEY, i + 1)
    case Remove(row) =>
      var i := Find(ButtonRows(s.removeButtons), row);
      if i == |s.edits| || !s.removeButtons[i].enabled then s else Removed(s, i, true)
    case Save => Saved(s)
    case Rebind(id, combos) =>
      LoadedLength(s, combos);
      Rebound(s, id, combos)
  }

  function Run(s: State, actions: seq<Action>): (s': State)
    requires SameLength(s)
    ensures SameLength(s')
  {
    if actions == [] then s else Next(Run(s, actions[..|actions| - 1]), actions[|actions| - 1])
  }

  lemma {:induction false} EmptiedHasNoRows(s: State)
    requires SameLength(s)
    ensures var e := Emptied(s);
            SameLength(e) && e.edits == [] && e == s.(edits := [], revertButtons := [], clearButtons := [], removeButtons := [])
    decreases |s.edits|
  {
    if s.edits != [] {
      EmptiedHasNoRows(Removed(s, |s.edits| - 1, false));
    }
  }

  lemma {:induction false} FilledLength(s: State, combos: seq<Combo>)
    requires SameLength(s)
    ensures SameLength(Filled(s, combos)) && |Filled(s, combos).edits| == |s.edits| + |combos|
  {
    if combos != [] {
      FilledLength(s, combos[..|combos| - 1]);
    }
  }

  lemma LoadedLength(s: State, combos: seq<Combo>)
    requires SameLength(s)
    ensures SameLength(Loaded(s, combos))
  {
    EmptiedHasNoRows(s);
    FilledLength(Emptied(s).(bindings := combos), Shown(combos));
  }

  // ---------------------------------------------------------------- rows and buttons in step

  /** The buttons at a row's place are its own and tell its state. */
  predicate RowFits(s: State, i: nat)
    requires SameLength(s) && i < |s.edits|
  {
    var e := s.edits[i];
    && s.revertButtons[i] == Button(e.row, e.key != e.original)
    && s.clearButtons[i] == Button(e.row, !IsEmpty(e.key))
    && s.removeButtons[i] == Button(e.row, |s.edits| >= 2)
    && e.row < s.created
  }

  ghost predicate InStep(s: State) {
    && SameLength(s)
    && (forall i :: 0 <= i < |s.edits| ==> RowFits(s, i))
    && (forall i, j :: 0 <= i < j < |s.edits| ==> s.edits[i].row != s.edits[j].row)
  }

  lemma AddKeepsStep(s: State, combo: Combo, idx: int)
    requires InStep(s) && -1 <= idx <= |s.edits|
    ensures InStep(Added(s, combo, idx))
  {
    var t := Added(s, combo, idx);
    var at := Place(s.edits, idx);
    forall i | 0 <= i < |t.edits|
      ensures RowFits(t, i)
    {
      if i < at {
        assert RowFits(s, i);
      } else if i > at {
        assert RowFits(s, i - 1);
      }
    }
    forall i, j | 0 <= i < j < |t.edits|
      ensures t.edits[i].row != t.edits[j].row
    {
      assert i < at ==> RowFits(s, i);
      assert j > at ==> RowFits(s, j - 1);
    }
  }

  lemma RemoveKeepsStep(s: State, idx: nat, signal: bool)
    requires InStep(s) && idx < |s.edits|
    ensures InStep(Removed(s, idx, signal))
  {
    var t := Removed(s, idx, signal);
    forall i | 0 <= i < |t.edits|
      ensures RowFits(t, i)
    {
      assert RowFits(s, if i < idx then i else i + 1);
    }
  }

  lemma KeyKeepsStep(s: State, i: nat, e: Edit)
    requires InStep(s) && i < |s.edits| && e.row == s.edits[i].row
    ensures InStep(KeyChanged(s, i, e))
  {
    var t := KeyChanged(s, i, e);
    forall k | 0 <= k < |t.edits|
      ensures RowFits(t, k)
    {
      assert RowFits(s, k);
    }
  }

  lemma ApplyKeepsStep(s: State)
    requires InStep(s)
    ensures InStep(Saved(s))
  {
    forall k | 0 <= k < |s.edits|
      ensures RowFits(Saved(s), k)
    {
      assert RowFits(s, k);
    }
  }

  lemma {:induction false} FillKeepsStep(s: State, combos: seq<Combo>)
    requires InStep(s)
    ensures InStep(Filled(s, combos))
  {
    if combos != [] {
      FillKeepsStep(s, combos[..|combos| - 1]);
      AddKeepsStep(Filled(s, combos[..|combos| - 1]), combos[|combos| - 1], -1);
    }
  }

  lemma LoadKeepsStep(s: State, combos: seq<Combo>)
    requires SameLength(s)
    ensures InStep(Loaded(s, combos)) && Loaded(s, combos).edits != []
  {
    EmptiedHasNoRows(s);
    var e := Emptied(s).(bindings := combos);
    FillKeepsStep(e, Shown(combos));
    FilledLength(e, Shown(combos));
  }

  // ---------------------------------------------------------------- changes are noticed

  /** A row that has not changed shows its original, and as long as no bound row was removed the
      originals are the bindings last saved or loaded. */
  ghost predicate Tracked(s: State) {
    && (forall e :: e in s.edits && !e.changed ==> e.key == e.original)
    && (!s.changed ==> NonEmpty(Originals(s.edits)) == NonEmpty(s.bindings))
  }

  lemma NonEmptySnoc(c: seq<Combo>, x: Combo)
    ensures NonEmpty(c + [x]) == NonEmpty(c) + Kept(x)
  {
    assert (c + [x])[..|c|] == c;
  }

  lemma {:induction false} NonEmptyConcat(a: seq<Combo>, b: seq<Combo>)
    ensures NonEmpty(a + b) == NonEmpty(a) + NonEmpty(b)
  {
    if b == [] {
      assert a + b == a;
    } else {
      var front, last := b[..|b| - 1], b[|b| - 1];
      NonEmptyConcat(a, front);
      assert b == front + [last];
      ConcatSnoc(a, front, last, NonEmpty(a), NonEmpty(front));
    }
  }

  lemma ConcatSnoc(a: seq<Combo>, front: seq<Combo>, last: Combo, na: seq<Combo>, nf: seq<Combo>)
    requires NonEmpty(a + front) == na + nf && NonEmpty(front) == nf
    ensures NonEmpty(a + (front + [last])) == na + NonEmpty(front + [last])
  {
    Associative(a, front, [last]);
    NonEmptySnoc(a + front, last);
    NonEmptySnoc(front, last);
    Associative(na, nf, Kept(last));
  }

  lemma EmptyBetween(a: seq<Combo>, x: Combo, b: seq<Combo>)
    requires IsEmpty(x)
    ensures NonEmpty(a + [x] + b) == NonEmpty(a + b)
  {
    NonEmptyConcat(a + [x], b);
    NonEmptySnoc(a, x);
    NonEmptyConcat(a, b);
  }

  /** Taking away or putting in an empty combination goes unnoticed. */
  lemma EmptyMakesNoDifference(c: seq<Combo>, i: nat, rest: seq<Combo>)
    requires i < |c| && IsEmpty(c[i]) && rest == RemovedAt(c, i)
    ensures NonEmpty(rest) == NonEmpty(c)
  {
    EmptyBetween(c[..i], c[i], c[i + 1..]);
    RemovedParts(c, i);
  }

  lemma RemovedParts<T>(c: seq<T>, i: nat)
    requires i < |c|
    ensures RemovedAt(c, i) == c[..i] + c[i + 1..]
    ensures c == c[..i] + [c[i]] + c[i + 1..]
  {
  }

  lemma {:induction false} NonEmptyTwice(c: seq<Combo>)
    ensures NonEmpty(NonEmpty(c)) == NonEmpty(c)
  {
    if c != [] {
      var front, last := NonEmpty(c[..|c| - 1]), c[|c| - 1];
      NonEmptyTwice(c[..|c| - 1]);
      if IsEmpty(last) {
        assert NonEmpty(c) == front;
      } else {
        NonEmptySnoc(front, last);
      }
    }
  }

  lemma {:induction false} NonEmptyIsShorter(c: seq<Combo>)
    ensures |NonEmpty(c)| <= |c|
    ensures |NonEmpty(c)| == |c| <==> forall x :: x in c ==> !IsEmpty(x)
  {
    if c != [] {
      NonEmptyIsShorter(c[..|c| - 1]);
      assert c == c[..|c| - 1] + [c[|c| - 1]];
    }
  }

  lemma {:induction false} NonEmptyIsSame(c: seq<Combo>)
    requires |NonEmpty(c)| == |c|
    ensures NonEmpty(c) == c
  {
    if c != [] {
      NonEmptyIsShorter(c[..|c| - 1]);
      NonEmptyIsSame(c[..|c| - 1]);
      assert c == c[..|c| - 1] + [c[|c| - 1]];
    }
  }

  lemma AddKeepsTracked(s: State, idx: int)
    requires Tracked(s) && -1 <= idx <= |s.edits|
    ensures Tracked(Added(s, NO_KEY, idx))
  {
    var t := Added(s, NO_KEY, idx);
    var at := Place(s.edits, idx);
    var before, after := Originals(s.edits), Originals(t.edits);
    assert RemovedAt(after, at) == before;
    EmptyMakesNoDifference(after, at, before);
  }

  lemma RemoveKeepsTracked(s: State, idx: nat)
    requires Tracked(s) && SameLength(s) && idx < |s.edits|
    ensures Tracked(Removed(s, idx, true))
  {
    var before, after := Originals(s.edits), Originals(Removed(s, idx, true).edits);
    assert after == RemovedAt(before, idx);
    if IsEmpty(before[idx]) {
      EmptyMakesNoDifference(before, idx, after);
    }
  }

  lemma KeyKeepsTracked(s: State, i: nat, e: Edit)
    requires Tracked(s) && i < |s.edits|
    requires e.original == s.edits[i].original && (!e.changed ==> e.key == e.original)
    ensures Tracked(KeyChanged(s, i, e))
  {
    assert Originals(KeyChanged(s, i, e).edits) == Originals(s.edits);
  }

  lemma SaveTracks(s: State)
    ensures Tracked(Saved(s)) && !Changed(Saved(s)) && Keys(Saved(s).edits) == Keys(s.edits)
  {
    var t := Saved(s);
    assert Originals(t.edits) == Keys(s.edits);
    NonEmptyTwice(Keys(s.edits));
  }

  lemma {:induction false} FilledRows(s: State, combos: seq<Combo>)
    requires s.edits == []
    ensures var t := Filled(s, combos);
            && Keys(t.edits) == Originals(t.edits) == combos
            && (forall e :: e in t.edits ==> !e.changed)
            && t.bindings == s.bindings && t.changed == s.changed
  {
    if combos != [] {
      var front := combos[..|combos| - 1];
      FilledRows(s, front);
      var t := Filled(s, combos);
      assert combos == front + [combos[|combos| - 1]];
      assert Originals(t.edits) == combos && Keys(t.edits) == combos;
    }
  }

  /** Loading shows exactly the given combinations, none of them changed; an earlier removal
      still counts as a change. */
  lemma LoadShowsBindings(s: State, combos: seq<Combo>)
    requires SameLength(s)
    ensures var t := Loaded(s, combos);
            && Keys(t.edits) == Shown(combos) && t.bindings == combos && Tracked(t)
            && (Changed(t) <==> s.changed)
  {
    EmptiedHasNoRows(s);
    FilledRows(Emptied(s).(bindings := combos), Shown(combos));
    assert NonEmpty([NO_KEY]) == NonEmpty([]) by {
      assert NonEmpty([NO_KEY]) == NonEmpty([NO_KEY][..0]);
    }
    var t := Loaded(s, combos);
    forall e | e in t.edits
      ensures e.key == e.original
    {
      var i :| 0 <= i < |t.edits| && t.edits[i] == e;
      assert Keys(t.edits)[i] == Originals(t.edits)[i];
    }
  }

  // ---------------------------------------------------------------- over every run

  /** What holds between any two actions. */
  ghost predicate Consistent(s: State) {
    InStep(s) && s.edits != [] && Tracked(s) && !s.ignoreChangedBindings
  }

  lemma FindRow(s: State)
    requires InStep(s)
    ensures Rows(s.edits) == ButtonRows(s.revertButtons) == ButtonRows(s.clearButtons) == ButtonRows(s.removeButtons)
  {
    forall i | 0 <= i < |s.edits|
      ensures s.edits[i].row == s.revertButtons[i].row == s.clearButtons[i].row == s.removeButtons[i].row
    {
      assert RowFits(s, i);
    }
  }

  lemma RowKeeps(s: State, i: nat, e: Edit)
    requires Consistent(s) && i < |s.edits| && e.row == s.edits[i].row
    requires e.original == s.edits[i].original && (!e.changed ==> e.key == e.original)
    ensures Consistent(KeyChanged(s, i, e))
  {
    KeyKeepsStep(s, i, e);
    KeyKeepsTracked(s, i, e);
  }

  lemma AddKeeps(s: State, idx: nat)
    requires Consistent(s) && idx <= |s.edits|
    ensures Consistent(Added(s, NO_KEY, idx))
  {
    AddKeepsStep(s, NO_KEY, idx);
    AddKeepsTracked(s, idx);
  }

  lemma RemoveKeeps(s: State, idx: nat)
    requires Consistent(s) && idx < |s.edits| && s.removeButtons[idx].enabled
    ensures Consistent(Removed(s, idx, true))
  {
    assert RowFits(s, idx);
    RemoveKeepsStep(s, idx, true);
    RemoveKeepsTracked(s, idx);
  }

  lemma RebindKeeps(s: State, id: nat, combos: seq<Combo>)
    requires Consistent(s)
    ensures Consistent(Rebound(s, id, combos))
  {
    EmptiedHasNoRows(s);
    FilledIgnores(Emptied(s).(bindings := combos), Shown(combos));
    LoadKeepsStep(s, combos);
    LoadShowsBindings(s, combos);
  }

  lemma {:induction false} FilledIgnores(s: State, combos: seq<Combo>)
    ensures Filled(s, combos).ignoreChangedBindings == s.ignoreChangedBindings
  {
    if combos != [] {
      FilledIgnores(s, combos[..|combos| - 1]);
    }
  }

  lemma EditKeeps(s: State, a: Action)
    requires Consistent(s) && (a.Press? || a.Revert? || a.Clear?)
    ensures Consistent(Next(s, a))
  {
    FindRow(s);
    var i := Find(Rows(s.edits), a.row);
    if i < |s.edits| {
      if a.Press? {
        RowKeeps(s, i, WithKey(s.edits[i], a.combo));
      } else if a.Revert? {
        RowKeeps(s, i, Reset(s.edits[i]));
      } else {
        RowKeeps(s, i, Cleared(s.edits[i]));
      }
    }
  }

  lemma RowsKeep(s: State, a: Action)
    requires Consistent(s) && (a.Add? || a.Remove?)
    ensures Consistent(Next(s, a))
  {
    var i := Find(ButtonRows(s.removeButtons), a.row);
    if i < |s.edits| {
      if a.Add? {
        AddKeeps(s, i + 1);
      } else if s.removeButtons[i].enabled {
        RemoveKeeps(s, i);
      }
    }
  }

  lemma SaveKeeps(s: State)
    requires Consistent(s)
    ensures Consistent(Saved(s))
  {
    ApplyKeepsStep(s);
    SaveTracks(s);
  }

  lemma NextKeeps(s: State, a: Action)
    requires Consistent(s)
    ensures Consistent(Next(s, a))
  {
    match a
    case Save => SaveKeeps(s);
    case Rebind(id, combos) => RebindKeeps(s, id, combos);
    case Press(_, _) => EditKeeps(s, a);
    case Revert(_) => EditKeeps(s, a);
    case Clear(_) => EditKeeps(s, a);
    case Add(_) => RowsKeep(s, a);
    case Remove(_) => RowsKeep(s, a);
  }

  lemma InitialIsConsistent(id: nat, combos: seq<Combo>)
    ensures Consistent(Initial(id, combos))
  {
    var s := State(id, [], [], [], [], false, false, 0, combos);
    assert Emptied(s) == s;
    LoadKeepsStep(s, combos);
    LoadShowsBindings(s, combos);
    FilledIgnores(s, Shown(combos));
  }

  lemma {:induction false} RunKeeps(s: State, actions: seq<Action>)
    requires Consistent(s)
    ensures Consistent(Run(s, actions))
  {
    if actions != [] {
      RunKeeps(s, actions[..|actions| - 1]);
      NextKeeps(Run(s, actions[..|actions| - 1]), actions[|actions| - 1]);
    }
  }

  /** In every reachable state the three vectors and the layout hold the same rows in the same
      order, a row can be removed exactly when it is not the only one, reverted exactly when its
      key is not the original, and cleared exactly when its key is not empty. */
  lemma ReachableButtons(id: nat, combos: seq<Combo>, actions: seq<Action>, i: nat)
    requires i < |Run(Initial(id, combos), actions).edits|
    ensures var s := Run(Initial(id, combos), actions);
            && s.edits[i].row == s.revertButtons[i].row == s.clearButtons[i].row == s.removeButtons[i].row
            && (s.removeButtons[i].enabled <==> |s.edits| >= 2)
            && (s.revertButtons[i].enabled <==> s.edits[i].key != s.edits[i].original)
            && (s.clearButtons[i].enabled <==> !IsEmpty(s.edits[i].key))
  {
    InitialIsConsistent(id, combos);
    RunKeeps(Initial(id, combos), actions);
    assert RowFits(Run(Initial(id, combos), actions), i);
  }

  /** A reachable widget that reports no change holds the bindings last saved or loaded, up to
      empty ones, which it never hands out; exactly so when there were none. */
  lemma UnchangedMeansSaved(id: nat, combos: seq<Combo>, actions: seq<Action>)
    requires !Changed(Run(Initial(id, combos), actions))
    ensures var s := Run(Initial(id, combos), actions);
            && Combinations(s) == NonEmpty(s.bindings)
            && (Combinations(s) == s.bindings <==> forall c :: c in s.bindings ==> !IsEmpty(c))
  {
    InitialIsConsistent(id, combos);
    RunKeeps(Initial(id, combos), actions);
    var s := Run(Initial(id, combos), actions);
    forall i | 0 <= i < |s.edits|
      ensures s.edits[i].key == s.edits[i].original
    {
      assert s.edits[i] in s.edits;
    }
    assert Keys(s.edits) == Originals(s.edits);
    NonEmptyIsShorter(s.bindings);
    if |NonEmpty(s.bindings)| == |s.bindings| {
      NonEmptyIsSame(s.bindings);
    }
  }

  function Reverts(rows: seq<nat>): (r: seq<Action>)
    ensures |r| == |rows|
  {
    seq(|rows|, i requires 0 <= i < |rows| => Revert(rows[i]))
  }

  /** What reverting the first n rows leaves. */
  ghost predicate Reverted(s: State, n: nat, t: State) {
    && Consistent(t) && t.changed == s.changed && t.bindings == s.bindings
    && Rows(t.edits) == Rows(s.edits) && Originals(t.edits) == Originals(s.edits)
    && n <= |t.edits| && forall i :: 0 <= i < n ==> t.edits[i].key == t.edits[i].original
  }

  lemma {:induction false} RevertsRestoreRows(s: State, n: nat)
    requires Consistent(s) && n <= |s.edits|
    ensures Reverted(s, n, Run(s, Reverts(Rows(s.edits)[..n])))
  {
    if n == 0 {
      NothingReverted(s, Reverts(Rows(s.edits)[..n]));
    } else {
      RevertsRestoreRows(s, n - 1);
      RevertsRun(s, n - 1, Reverts(Rows(s.edits)[..n - 1]), Reverts(Rows(s.edits)[..n]));
    }
  }

  lemma NothingReverted(s: State, actions: seq<Action>)
    requires Consistent(s) && actions == []
    ensures Reverted(s, 0, Run(s, actions))
  {
  }

  lemma RevertsSnoc(rows: seq<nat>, n: nat)
    requires n < |rows|
    ensures Reverts(rows[..n + 1]) == Reverts(rows[..n]) + [Revert(rows[n])]
  {
  }

  lemma RunSnoc(s: State, actions: seq<Action>, a: Action)
    requires SameLength(s)
    ensures Run(s, actions + [a]) == Next(Run(s, actions), a)
  {
    assert (actions + [a])[..|actions|] == actions;
  }

  lemma RevertsRun(s: State, n: nat, front: seq<Action>, actions: seq<Action>)
    requires SameLength(s) && Reverted(s, n, Run(s, front)) && n < |s.edits|
    requires front == Reverts(Rows(s.edits)[..n]) && actions == Reverts(Rows(s.edits)[..n + 1])
    ensures Reverted(s, n + 1, Run(s, actions))
  {
    RevertsSnoc(Rows(s.edits), n);
    RunSnoc(s, front, Revert(Rows(s.edits)[n]));
    RevertsOneMore(s, n, Run(s, front));
  }

  lemma RevertsOneMore(s: State, n: nat, t: State)
    requires Reverted(s, n, t) && n < |s.edits|
    ensures Reverted(s, n + 1, Next(t, Revert(Rows(s.edits)[n])))
  {
    assert |Rows(t.edits)| == |t.edits| && |Rows(s.edits)| == |s.edits|;
    assert Rows(t.edits)[n] == t.edits[n].row;
    NextKeeps(t, Revert(t.edits[n].row));
    RevertRestoresRow(t, n);
  }

  lemma RevertRestoresRow(s: State, i: nat)
    requires Consistent(s) && i < |s.edits|
    ensures var t := Next(s, Revert(s.edits[i].row));
            && t.changed == s.changed && t.bindings == s.bindings
            && Rows(t.edits) == Rows(s.edits) && Originals(t.edits) == Originals(s.edits)
            && t.edits[i].key == t.edits[i].original
            && forall k :: 0 <= k < |s.edits| && k != i ==> t.edits[k] == s.edits[k]
  {
    FindRow(s);
    var j := Find(Rows(s.edits), s.edits[i].row);
    assert Rows(s.edits)[i] == s.edits[i].row;
    assert s.edits[j].row == s.edits[i].row;
    assert RowFits(s, i);
    assert s.revertButtons[i] in s.revertButtons;
  }

  /** As long as no bound row was removed, reverting every row brings back the bindings last saved
      or loaded, whatever was typed, cleared or added. */
  lemma RevertingAllRestores(s: State)
    requires Consistent(s) && !s.changed
    ensures Combinations(Run(s, Reverts(Rows(s.edits)))) == NonEmpty(s.bindings)
  {
    RevertsRestoreRows(s, |s.edits|);
    assert Rows(s.edits)[..|s.edits|] == Rows(s.edits);
    var t := Run(s, Reverts(Rows(s.edits)));
    assert |Rows(t.edits)| == |t.edits|;
    assert Keys(t.edits) == Originals(t.edits);
  }

  // ---------------------------------------------------------------- what the user sees

  /** A row is found by its number, and so are its buttons. */
  lemma RowAt(s: State, i: nat)
    requires InStep(s) && i < |s.edits|
    ensures Find(Rows(s.edits), s.edits[i].row) == i == Find(ButtonRows(s.removeButtons), s.edits[i].row)
  {
    FindRow(s);
    var rows, row := Rows(s.edits), s.edits[i].row;
    assert |rows| == |s.edits| && rows[i] == row;
    var j := Find(rows, row);
    assert s.edits[j].row == rows[j] == row;
  }

  lemma ButtonsAt(s: State, i: nat)
    requires InStep(s) && i < |s.edits|
    ensures Enabled(s.revertButtons, s.edits[i].row) <==> s.edits[i].key != s.edits[i].original
    ensures Enabled(s.clearButtons, s.edits[i].row) <==> s.edits[i].key != Combo(0, 0)
  {
    assert RowFits(s, i);
    forall j | 0 <= j < |s.edits| && j != i
      ensures s.revertButtons[j].row != s.edits[i].row && s.clearButtons[j].row != s.edits[i].row
    {
      assert RowFits(s, j);
    }
    assert s.revertButtons[i] in s.revertButtons && s.clearButtons[i] in s.clearButtons;
  }

  /** Only row i is another one, with the same number and the same original. */
  ghost predicate OnlyRow(s: State, t: State, i: nat) {
    && |t.edits| == |s.edits| && (forall k :: 0 <= k < |s.edits| && k != i ==> t.edits[k] == s.edits[k])
    && (i < |s.edits| ==> t.edits[i].row == s.edits[i].row && t.edits[i].original == s.edits[i].original)
    && t.changed == s.changed && t.bindings == s.bindings
  }

  lemma KeysOfOnlyRow(s: State, t: State, i: nat)
    requires OnlyRow(s, t, i) && i < |s.edits|
    ensures Keys(t.edits) == Keys(s.edits)[i := t.edits[i].key]
  {
  }

  /** A pressed combination is shown in its row, whatever was shown there, and makes the row changed
      if it is a new one; an empty one is ignored. */
  lemma PressShows(s: State, i: nat, c: Combo)
    requires Consistent(s) && i < |s.edits|
    ensures var t := Next(s, Press(s.edits[i].row, c));
            if c.modifiers == 0 && c.key == 0 then t == s
            else Keys(t.edits) == Keys(s.edits)[i := c] && OnlyRow(s, t, i) &&
                 t.edits[i].changed == (s.edits[i].changed || c != s.edits[i].key)
  {
    RowAt(s, i);
    KeysOfOnlyRow(s, Next(s, Press(s.edits[i].row, c)), i);
  }

  /** Clearing empties the row and makes it changed, unless it is empty already. */
  lemma ClearEmpties(s: State, i: nat)
    requires Consistent(s) && i < |s.edits|
    ensures var t := Next(s, Clear(s.edits[i].row));
            && Keys(t.edits) == Keys(s.edits)[i := Combo(0, 0)] && OnlyRow(s, t, i)
            && t.edits[i].changed == (s.edits[i].changed || s.edits[i].key != Combo(0, 0))
  {
    RowAt(s, i);
    ButtonsAt(s, i);
    KeysOfOnlyRow(s, Next(s, Clear(s.edits[i].row)), i);
  }

  /** Reverting shows the row's original and makes it unchanged, unless it shows its original
      already. */
  lemma RevertShows(s: State, i: nat)
    requires Consistent(s) && i < |s.edits|
    ensures var t := Next(s, Revert(s.edits[i].row));
            && Keys(t.edits) == Keys(s.edits)[i := s.edits[i].original] && OnlyRow(s, t, i)
            && t.edits[i].changed == (s.edits[i].changed && s.edits[i].key == s.edits[i].original)
  {
    RowAt(s, i);
    ButtonsAt(s, i);
    KeysOfOnlyRow(s, Next(s, Revert(s.edits[i].row)), i);
  }

  /** Adding puts an empty, unchanged row of its own right below the clicked one. */
  lemma AddGoesBelow(s: State, i: nat)
    requires Consistent(s) && i < |s.edits|
    ensures var t := Next(s, Add(s.edits[i].row));
            && |t.edits| == |s.edits| + 1 && t.changed == s.changed && t.bindings == s.bindings
            && t.edits[..i + 1] == s.edits[..i + 1] && t.edits[i + 2..] == s.edits[i + 1..]
            && t.edits[i + 1].key == t.edits[i + 1].original == Combo(0, 0) && !t.edits[i + 1].changed
            && forall k :: 0 <= k < |s.edits| ==> s.edits[k].row != t.edits[i + 1].row
  {
    RowAt(s, i);
    InsertedBelow(s.edits, i, Fresh(s.created, NO_KEY));
    forall k | 0 <= k < |s.edits|
      ensures s.edits[k].row < s.created
    {
      assert RowFits(s, k);
    }
  }

  lemma InsertedBelow<T>(list: seq<T>, i: nat, x: T)
    requires i < |list|
    ensures var t := InsertedAt(list, i + 1, x);
            |t| == |list| + 1 && t[..i + 1] == list[..i + 1] && t[i + 1] == x && t[i + 2..] == list[i + 1..]
  {
  }

  /** Removing takes the clicked row out, and marks a change if its original is a combination; the
      only row stays. */
  lemma RemoveTakesRow(s: State, i: nat)
    requires Consistent(s) && i < |s.edits|
    ensures var t := Next(s, Remove(s.edits[i].row));
            if |s.edits| == 1 then t == s
            else && t.edits == s.edits[..i] + s.edits[i + 1..] && t.bindings == s.bindings
                 && t.changed == (s.changed || s.edits[i].original != Combo(0, 0))
  {
    RemovedAtRow(s, i);
    RemovedParts(s.edits, i);
  }

  lemma RemovedAtRow(s: State, i: nat)
    requires InStep(s) && i < |s.edits|
    ensures Next(s, Remove(s.edits[i].row)) == if |s.edits| == 1 then s else Removed(s, i, true)
  {
    RowAt(s, i);
    assert RowFits(s, i);
  }

  /** What is handed out are the keys shown in their order, without those that are empty. */
  lemma HandedOut(a: seq<Combo>, c: Combo, b: seq<Combo>)
    ensures NonEmpty([]) == []
    ensures NonEmpty(a + [c] + b) == NonEmpty(a) + (if c.modifiers == 0 && c.key == 0 then [] else [c]) + NonEmpty(b)
  {
    NonEmptyConcat(a + [c], b);
    NonEmptySnoc(a, c);
  }

  /** Saving binds the hotkey to the keys that are shown. */
  lemma SaveBindsShown(s: State)
    requires SameLength(s)
    ensures Combinations(s) == NonEmpty(Keys(s.edits)) == Next(s, Save).bindings
    ensures Keys(Next(s, Save).edits) == Keys(s.edits) && !Changed(Next(s, Save))
  {
    SaveTracks(s);
  }

  /** Announcements of other hotkeys change nothing; one's own shows the new bindings, unchanged
      rows all of them, or a single empty row. */
  lemma RebindShows(s: State, id: nat, combos: seq<Combo>)
    requires Consistent(s)
    ensures var t := Next(s, Rebind(id, combos));
            if id != s.id then t == s
            else && Keys(t.edits) == Originals(t.edits) == (if combos == [] then [Combo(0, 0)] else combos)
                 && (forall e :: e in t.edits ==> !e.changed) && t.bindings == combos && t.changed == s.changed
  {
    EmptiedHasNoRows(s);
    FilledRows(Emptied(s).(bindings := combos), Shown(combos));
  }

  // ---------------------------------------------------------------- a change that outlives its cause

  /** A click that removes a row whose original is a real combination. */
  predicate TakesBoundRow(s: State, a: Action)
    requires SameLength(s)
  {
    a.Remove? &&
    var i := Find(ButtonRows(s.removeButtons), a.row);
    i < |s.edits| && s.removeButtons[i].enabled && !IsEmpty(s.edits[i].original)
  }

  lemma {:induction false} FilledKeepsFlag(s: State, combos: seq<Combo>)
    ensures Filled(s, combos).changed == s.changed
  {
    if combos != [] {
      FilledKeepsFlag(s, combos[..|combos| - 1]);
    }
  }

  /** Only removing a bound row sets the widget's flag, and only saving clears it. */
  lemma FlagAfter(s: State, a: Action)
    requires SameLength(s)
    ensures Next(s, a).changed <==> !a.Save? && (s.changed || TakesBoundRow(s, a))
  {
    if a.Rebind? {
      EmptiedHasNoRows(s);
      FilledKeepsFlag(Emptied(s).(bindings := a.combos), Shown(a.combos));
    }
  }

  /** Once a bound row is removed a change is reported until the next saving, whatever is reloaded,
      reverted or typed. */
  lemma {:induction false} RemovalOutlives(s: State, actions: seq<Action>)
    requires SameLength(s) && s.changed && Save !in actions
    ensures Changed(Run(s, actions)) && Run(s, actions).changed
  {
    if actions != [] {
      var front, last := actions[..|actions| - 1], actions[|actions| - 1];
      assert last in actions && forall a :: a in front ==> a in actions;
      RemovalOutlives(s, front);
      FlagAfter(Run(s, front), last);
    }
  }

  lemma TwoActions(s: State, a: Action, b: Action)
    requires SameLength(s)
    ensures Run(s, [a, b]) == Next(Next(s, a), b)
  {
    assert [a, b] == [a] + [b] && [a] == [] + [a];
    RunSnoc(s, [], a);
    RunSnoc(s, [a], b);
  }

  lemma RemovalSetsFlag(s: State, row: nat)
    requires SameLength(s) && TakesBoundRow(s, Remove(row))
    ensures var t := Next(s, Remove(row));
            t.changed && t.id == s.id && t.ignoreChangedBindings == s.ignoreChangedBindings
  {
  }

  lemma AllReal(combos: seq<Combo>)
    requires forall c :: c in combos ==> !IsEmpty(c)
    ensures NonEmpty(combos) == combos
  {
    NonEmptyIsShorter(combos);
    NonEmptyIsSame(combos);
  }

  lemma ReloadAfterRemoval(s: State, combos: seq<Combo>)
    requires SameLength(s) && s.changed && !s.ignoreChangedBindings && combos != []
    ensures var t := Next(s, Rebind(s.id, combos)); Changed(t) && t.bindings == combos == Keys(t.edits)
  {
    LoadShowsBindings(s, combos);
  }

  /** So a widget may report a change although it shows exactly what its hotkey is bound to: remove
      the first of two rows, and let the hotkey announce bindings then, even the old ones. */
  lemma StaleChange(id: nat, a: Combo, b: Combo, combos: seq<Combo>)
    requires !IsEmpty(a) && combos != [] && forall c :: c in combos ==> !IsEmpty(c)
    ensures var s := Run(Initial(id, [a, b]), [Remove(0), Rebind(id, combos)]);
            Changed(s) && s.bindings == combos == Combinations(s)
  {
    var s := Initial(id, [a, b]);
    TwoRows(id, a, b);
    RemovalSetsFlag(s, 0);
    AllReal(combos);
    ReloadAfterRemoval(Next(s, Remove(0)), combos);
    TwoActions(s, Remove(0), Rebind(id, combos));
  }

  lemma TwoRows(id: nat, a: Combo, b: Combo)
    requires !IsEmpty(a)
    ensures var s := Initial(id, [a, b]);
            s.id == id && !s.ignoreChangedBindings && TakesBoundRow(s, Remove(0))
  {
    var s := State(id, [], [], [], [], false, false, 0, [a, b]);
    assert [a, b][..1] == [a] && [a][..0] == [];
    FilledOne(s, a);
    var t := Added(s, a, -1);
    assert Initial(id, [a, b]) == Added(t, b, -1);
    assert t.edits == [Fresh(0, a)] && t.removeButtons == [Button(0, false)];
  }
}
