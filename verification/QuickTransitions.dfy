/** Quick transitions: a list kept next to the transitions on offer, each entry with an id that its
    button and hotkey use to find it again.  The list is saved by transition name and loaded back
    into a new set of transitions. */
module QuickTransitions {
  import opened Sequences
  import opened Wrappers

  /** A reference to a transition source. */
  type Source = nat

  datatype Quick = Quick(source: Source, duration: int, id: int)

  /** What a file holds of a quick transition. */
  datatype Entry = Entry(name: string, duration: int, id: int)

  /** The names of the sources, the transitions on offer, the quick transitions, the next id, and
      the arrays saved so far. */
  datatype State = State(
    names: map<Source, string>,
    transitions: seq<Source>,
    quick: seq<Quick>,
    counter: int,
    files: seq<seq<Entry>>)

  predicate Known(names: map<Source, string>, sources: seq<Source>) {
    forall i :: 0 <= i < |sources| ==> sources[i] in names
  }

  predicate AllNamed(names: map<Source, string>, quick: seq<Quick>) {
    forall i :: 0 <= i < |quick| ==> quick[i].source in names
  }

  /** The first transition of a name. */
  function FindTransition(names: map<Source, string>, transitions: seq<Source>, name: string): (r: Option<Source>)
    requires Known(names, transitions)
    ensures r.Some? ==> r.value in names && names[r.value] == name && r.value in transitions
    ensures r.None? ==> forall i :: 0 <= i < |transitions| ==> names[transitions[i]] != name
  {
    if transitions == [] then None
    else if names[transitions[0]] == name then Some(transitions[0])
    else FindTransition(names, transitions[1..], name)
  }

  function Saved(names: map<Source, string>, quick: seq<Quick>): (r: seq<Entry>)
    requires AllNamed(names, quick)
    ensures |r| == |quick|
    ensures forall i :: 0 <= i < |quick| ==>
              quick[i].source in names && r[i] == Entry(names[quick[i].source], quick[i].duration, quick[i].id)
  {
    seq(|quick|, i requires 0 <= i < |quick| => Entry(names[quick[i].source], quick[i].duration, quick[i].id))
  }

  /** Entries without an id, or whose transition is gone, are passed over. */
  predicate Usable(names: map<Source, string>, transitions: seq<Source>, e: Entry)
    requires Known(names, transitions)
  {
    e.id != 0 && FindTransition(names, transitions, e.name).Some?
  }

  function Loaded(names: map<Source, string>, transitions: seq<Source>, entries: seq<Entry>): seq<Quick>
    requires Known(names, transitions)
  {
    if entries == [] then []
    else
      var e := entries[|entries| - 1];
      Loaded(names, transitions, entries[..|entries| - 1]) +
      if Usable(names, transitions, e) then [Quick(FindTransition(names, transitions, e.name).value, e.duration, e.id)] else []
  }

  function Counter(names: map<Source, string>, transitions: seq<Source>, entries: seq<Entry>): (c: int)
    requires Known(names, transitions)
    ensures c >= 1
  {
    if entries == [] then 1
    else
      var e := entries[|entries| - 1];
      var c := Counter(names, transitions, entries[..|entries| - 1]);
      if Usable(names, transitions, e) && c <= e.id then e.id + 1 else c
  }

  function WithoutSource(quick: seq<Quick>, tr: Source): seq<Quick> {
    if quick == [] then []
    else (if quick[0].source == tr then [] else [quick[0]]) + WithoutSource(quick[1..], tr)
  }

  /** The place of the quick transition with an id, or -1. */
  function IndexOfId(quick: seq<Quick>, id: int): (r: int)
    ensures -1 <= r < |quick|
    ensures r >= 0 ==> quick[r].id == id
    ensures r == -1 ==> forall i :: 0 <= i < |quick| ==> quick[i].id != id
  {
    if quick == [] then -1
    else if quick[0].id == id then 0
    else
      var r := IndexOfId(quick[1..], id);
      assert forall i :: 0 < i < |quick| ==> quick[i] == quick[1..][i - 1];
      if r == -1 then -1 else r + 1
  }

  // ---------------------------------------------------------------- the main window

  class OBSBasic {
    var names: map<Source, string>
    var transitions: seq<Source>
    var quickTransitions: seq<Quick>
    var quickTransitionIdCounter: int
    var files: seq<seq<Entry>>

    function View(): State
      reads this
    {
      State(names, transitions, quickTransitions, quickTransitionIdCounter, files)
    }

    constructor ()
      ensures View() == START
    {
      names, transitions, quickTransitions, quickTransitionIdCounter, files := map[], [], [], 1, [];
    }

    /** Starting over: the scene data is cleared and two defaults are made of the new transitions. */
    method CreateDefaultScene(newNames: map<Source, string>, newTransitions: seq<Source>)
      requires Sound(View()) && Possible(View(), CreateDefault(newNames, newTransitions))
      modifies this
      ensures View() == After(old(View()), CreateDefault(newNames, newTransitions))
    {
      ClearQuickTransitions();
      names, transitions := newNames, newTransitions;
      CreateDefaultQuickTransitions();
    }

    /** Loading a scene collection: the scene data is cleared, and the saved entries are looked up among
        the new transitions. */
    method LoadSceneCollection(file: nat, newNames: map<Source, string>, newTransitions: seq<Source>)
      requires Sound(View()) && Possible(View(), Load(file, newNames, newTransitions))
      modifies this
      ensures View() == After(old(View()), Load(file, newNames, newTransitions))
    {
      ClearQuickTransitions();
      names, transitions := newNames, newTransitions;
      LoadQuickTransitions(files[file]);
    }

    method SaveSceneCollection()
      requires Sound(View())
      modifies this`files
      ensures View() == After(old(View()), Save)
    {
      var entries := SaveQuickTransitions();
      files := files + [entries];
    }

    method CreateDefaultQuickTransitions()
      requires |transitions| >= 2
      modifies this`quickTransitions, this`quickTransitionIdCounter
      ensures quickTransitions == WithDefaults(old(quickTransitions), transitions, old(quickTransitionIdCounter))
      ensures quickTransitionIdCounter == old(quickTransitionIdCounter) + 2
    {
      quickTransitions := quickTransitions + [Quick(transitions[0], 300, quickTransitionIdCounter)];
      quickTransitionIdCounter := quickTransitionIdCounter + 1;
      quickTransitions := quickTransitions + [Quick(transitions[1], 300, quickTransitionIdCounter)];
      quickTransitionIdCounter := quickTransitionIdCounter + 1;
    }

    method LookUp(name: string) returns (r: Option<Source>)
      requires Known(names, transitions)
      ensures r == FindTransition(names, transitions, name)
    {
      for i := 0 to |transitions|
        invariant FindTransition(names, transitions, name) == FindTransition(names, transitions[i..], name)
      {
        if names[transitions[i]] == name {
          return Some(transitions[i]);
        }
        assert transitions[i..][1..] == transitions[i + 1..];
      }
      r := None;
    }

    method LoadQuickTransitions(entries: seq<Entry>)
      requires Known(names, transitions)
      modifies this`quickTransitions, this`quickTransitionIdCounter
      ensures quickTransitions == old(quickTransitions) + Loaded(names, transitions, entries)
      ensures quickTransitionIdCounter == Counter(names, transitions, entries)
    {
      quickTransitionIdCounter := 1;
      for i := 0 to |entries|
        invariant quickTransitions == old(quickTransitions) + Loaded(names, transitions, entries[..i])
        invariant quickTransitionIdCounter == Counter(names, transitions, entries[..i])
      {
        var e := entries[i];
        assert entries[..i + 1][..i] == entries[..i];
        if e.id != 0 {
          var source := LookUp(e.name);
          if source.Some? {
            quickTransitions := quickTransitions + [Quick(source.value, e.duration, e.id)];
            if quickTransitionIdCounter <= e.id {
              quickTransitionIdCounter := e.id + 1;
            }
          }
        }
      }
      assert entries[..|entries|] == entries;
    }

    method SaveQuickTransitions() returns (entries: seq<Entry>)
      requires AllNamed(names, quickTransitions)
      ensures entries == Saved(names, quickTransitions)
    {
      entries := [];
      for i := 0 to |quickTransitions|
        invariant entries == Saved(names, quickTransitions)[..i]
      {
        var qt := quickTransitions[i];
        entries := entries + [Entry(names[qt.source], qt.duration, qt.id)];
      }
    }

    method AddQuickTransition(index: nat, duration: int)
      requires Sound(View()) && index < |transitions|
      modifies this`quickTransitions, this`quickTransitionIdCounter
      ensures View() == After(old(View()), Add(index, duration))
    {
      var id := quickTransitionIdCounter;
      quickTransitionIdCounter := quickTransitionIdCounter + 1;
      quickTransitions := quickTransitions + [Quick(transitions[index], duration, id)];
    }

    method GetQuickTransitionIdx(id: int) returns (idx: int)
      ensures idx == IndexOfId(quickTransitions, id)
    {
      idx := 0;
      while idx < |quickTransitions|
        invariant 0 <= idx <= |quickTransitions|
        invariant var rest := IndexOfId(quickTransitions[idx..], id);
                  IndexOfId(quickTransitions, id) == if rest == -1 then -1 else idx + rest
      {
        if quickTransitions[idx].id == id {
          return;
        }
        assert quickTransitions[idx..][1..] == quickTransitions[idx + 1..];
        idx := idx + 1;
      }
      idx := -1;
    }

    method QuickTransitionRemoveClicked(id: int)
      requires Sound(View())
      modifies this`quickTransitions
      ensures View() == After(old(View()), Remove(id))
    {
      var idx := GetQuickTransitionIdx(id);
      if idx == -1 {
        return;
      }
      quickTransitions := quickTransitions[..idx] + quickTransitions[idx + 1..];
    }

    method QuickTransitionChange(id: int, index: nat)
      requires Sound(View()) && index < |transitions|
      modifies this`quickTransitions
      ensures View() == After(old(View()), Change(id, index))
    {
      var idx := GetQuickTransitionIdx(id);
      if idx != -1 {
        quickTransitions := quickTransitions[idx := quickTransitions[idx].(source := transitions[index])];
      }
    }

    method QuickTransitionChangeDuration(id: int, value: int)
      requires Sound(View())
      modifies this`quickTransitions
      ensures View() == After(old(View()), ChangeDuration(id, value))
    {
      var idx := GetQuickTransitionIdx(id);
      if idx != -1 {
        quickTransitions := quickTransitions[idx := quickTransitions[idx].(duration := value)];
      }
    }

    /** An empty name, or one that is taken, is asked for again. */
    method AddTransitionNamed(source: Source, name: string) returns (added: bool)
      requires Sound(View())
      modifies this`names, this`transitions
      ensures added <==> name != "" && FindTransition(old(names), old(transitions), name).None?
      ensures View() == if added then After(old(View()), AddTransition(source, name)) else old(View())
    {
      var taken := LookUp(name);
      if name == "" || taken.Some? {
        return false;
      }
      names := names[source := name];
      transitions := transitions + [source];
      added := true;
    }

    method RenameTransitionTo(index: nat, name: string) returns (renamed: bool)
      requires Sound(View()) && index < |transitions|
      modifies this`names
      ensures renamed <==> name != "" && FindTransition(old(names), transitions, name).None?
      ensures View() == if renamed then After(old(View()), RenameTransition(index, name)) else old(View())
    {
      var taken := LookUp(name);
      if name == "" || taken.Some? {
        return false;
      }
      names := names[transitions[index] := name];
      renamed := true;
    }

    method RemoveTransition(idx: nat)
      requires Sound(View()) && idx < |transitions|
      modifies this`quickTransitions, this`transitions
      ensures View() == After(old(View()), DropTransition(idx))
    {
      var tr := transitions[idx];
      var i := |quickTransitions|;
      ghost var was := quickTransitions;
      while i > 0
        invariant 0 <= i <= |was| && transitions == old(transitions)
        invariant quickTransitions == was[..i] + WithoutSource(was[i..], tr)
      {
        ErasedStep(was, i, tr);
        if quickTransitions[i - 1].source == tr {
          quickTransitions := quickTransitions[..i - 1] + quickTransitions[i..];
        }
        i := i - 1;
      }
      assert was[0..] == was;
      transitions := transitions[..idx] + transitions[idx + 1..];
    }

    method ClearQuickTransitions()
      modifies this`quickTransitions
      ensures quickTransitions == []
    {
      quickTransitions := [];
    }
  }

  function WithDefaults(quick: seq<Quick>, transitions: seq<Source>, counter: int): seq<Quick>
    requires |transitions| >= 2
  {
    quick + [Quick(transitions[0], 300, counter), Quick(transitions[1], 300, counter + 1)]
  }

  function WithoutId(quick: seq<Quick>, id: int): seq<Quick> {
    var idx := IndexOfId(quick, id);
    if idx == -1 then quick else RemovedAt(quick, idx)
  }

  function WithSource(quick: seq<Quick>, id: int, source: Source): seq<Quick> {
    var idx := IndexOfId(quick, id);
    if idx == -1 then quick else quick[idx := quick[idx].(source := source)]
  }

  function WithDuration(quick: seq<Quick>, id: int, duration: int): seq<Quick> {
    var idx := IndexOfId(quick, id);
    if idx == -1 then quick else quick[idx := quick[idx].(duration := duration)]
  }

  /** One step of the loop that erases from the end. */
  lemma ErasedStep(was: seq<Quick>, i: nat, tr: Source)
    requires 0 < i <= |was|
    ensures var now := was[..i] + WithoutSource(was[i..], tr);
            && now[i - 1] == was[i - 1]
            && was[..i - 1] + WithoutSource(was[i - 1..], tr) ==
               if was[i - 1].source == tr then now[..i - 1] + now[i..] else now
  {
    assert was[i - 1..][1..] == was[i..];
    assert was[..i] == was[..i - 1] + [was[i - 1]];
  }

  // ---------------------------------------------------------------- ids

  /** Ids are positive, below the counter and distinct. */
  ghost predicate IdsFit(quick: seq<Quick>, counter: int) {
    && (forall i :: 0 <= i < |quick| ==> 0 < quick[i].id < counter)
    && (forall i, j :: 0 <= i < j < |quick| ==> quick[i].id != quick[j].id)
  }

  ghost predicate FileFits(entries: seq<Entry>) {
    && (forall i :: 0 <= i < |entries| ==> 0 < entries[i].id)
    && (forall i, j :: 0 <= i < j < |entries| ==> entries[i].id != entries[j].id)
  }

  lemma {:induction false} WithoutSourceKeepsOthers(quick: seq<Quick>, tr: Source)
    ensures forall q :: q in WithoutSource(quick, tr) <==> q in quick && q.source != tr
  {
    if quick != [] {
      WithoutSourceKeepsOthers(quick[1..], tr);
      assert quick == [quick[0]] + quick[1..];
    }
  }

  lemma {:induction false} WithoutSourceKeepsIds(quick: seq<Quick>, tr: Source, counter: int)
    requires IdsFit(quick, counter)
    ensures IdsFit(WithoutSource(quick, tr), counter)
  {
    if quick != [] {
      var rest := quick[1..];
      WithoutSourceKeepsIds(rest, tr, counter);
      WithoutSourceKeepsOthers(rest, tr);
      ConsKeepsIds(quick[0], rest, WithoutSource(rest, tr), counter);
    }
  }

  lemma ConsKeepsIds(q: Quick, rest: seq<Quick>, left: seq<Quick>, counter: int)
    requires 0 < q.id < counter && IdsFit(left, counter)
    requires forall i :: 0 <= i < |rest| ==> rest[i].id != q.id
    requires forall x :: x in left ==> x in rest
    ensures IdsFit([q] + left, counter)
  {
    forall i | 0 <= i < |left|
      ensures left[i].id != q.id
    {
      assert left[i] in rest;
    }
  }

  /** With fitting ids, an id leads back to its own quick transition. */
  lemma LookUpFinds(quick: seq<Quick>, counter: int, i: nat)
    requires IdsFit(quick, counter) && i < |quick|
    ensures IndexOfId(quick, quick[i].id) == i
  {
    var r := IndexOfId(quick, quick[i].id);
    assert r >= 0 && quick[r].id == quick[i].id;
  }

  // ---------------------------------------------------------------- saving and loading

  /** The entries that can be loaded, in order. */
  function Kept(names: map<Source, string>, transitions: seq<Source>, entries: seq<Entry>): seq<Entry>
    requires Known(names, transitions)
  {
    if entries == [] then []
    else
      var e := entries[|entries| - 1];
      Kept(names, transitions, entries[..|entries| - 1]) + if Usable(names, transitions, e) then [e] else []
  }

  lemma {:induction false} LoadedIsKnown(names: map<Source, string>, transitions: seq<Source>, entries: seq<Entry>)
    requires Known(names, transitions)
    ensures AllNamed(names, Loaded(names, transitions, entries))
  {
    if entries != [] {
      LoadedIsKnown(names, transitions, entries[..|entries| - 1]);
    }
  }

  /** Loading and saving again gives back the names, durations and ids of exactly the entries whose
      transition is there. */
  lemma {:induction false} LoadThenSave(names: map<Source, string>, transitions: seq<Source>, entries: seq<Entry>)
    requires Known(names, transitions)
    ensures AllNamed(names, Loaded(names, transitions, entries))
    ensures Saved(names, Loaded(names, transitions, entries)) == Kept(names, transitions, entries)
  {
    LoadedIsKnown(names, transitions, entries);
    if entries != [] {
      var front, e := entries[..|entries| - 1], entries[|entries| - 1];
      LoadThenSave(names, transitions, front);
      if Usable(names, transitions, e) {
        SavedSnoc(names, Loaded(names, transitions, front),
                  Quick(FindTransition(names, transitions, e.name).value, e.duration, e.id));
      }
    }
  }

  lemma SavedSnoc(names: map<Source, string>, quick: seq<Quick>, q: Quick)
    requires AllNamed(names, quick) && q.source in names
    ensures AllNamed(names, quick + [q])
    ensures Saved(names, quick + [q]) == Saved(names, quick) + [Entry(names[q.source], q.duration, q.id)]
  {
  }

  ghost predicate AllUsable(names: map<Source, string>, transitions: seq<Source>, entries: seq<Entry>)
    requires Known(names, transitions)
  {
    forall i :: 0 <= i < |entries| ==> Usable(names, transitions, entries[i])
  }

  lemma {:induction false} KeptLength(names: map<Source, string>, transitions: seq<Source>, entries: seq<Entry>)
    requires Known(names, transitions)
    ensures |Kept(names, transitions, entries)| <= |entries|
    ensures |Kept(names, transitions, entries)| == |entries| <==> AllUsable(names, transitions, entries)
  {
    if entries != [] {
      var front, last := entries[..|entries| - 1], entries[|entries| - 1];
      KeptLength(names, transitions, front);
      assert AllUsable(names, transitions, entries) <==> AllUsable(names, transitions, front) && Usable(names, transitions, last) by {
        assert forall i :: 0 <= i < |front| ==> front[i] == entries[i];
      }
    }
  }

  lemma {:induction false} KeptIsAll(names: map<Source, string>, transitions: seq<Source>, entries: seq<Entry>)
    requires Known(names, transitions) && AllUsable(names, transitions, entries)
    ensures Kept(names, transitions, entries) == entries
  {
    if entries != [] {
      var n := |entries| - 1;
      FrontUsable(names, transitions, entries, n);
      KeptIsAll(names, transitions, entries[..n]);
      assert entries == entries[..n] + [entries[n]];
    }
  }

  lemma FrontUsable(names: map<Source, string>, transitions: seq<Source>, entries: seq<Entry>, n: nat)
    requires Known(names, transitions) && AllUsable(names, transitions, entries) && n < |entries|
    ensures AllUsable(names, transitions, entries[..n]) && Usable(names, transitions, entries[n])
  {
  }

  ghost predicate Offered(names: map<Source, string>, transitions: seq<Source>, name: string)
    requires Known(names, transitions)
  {
    exists i :: 0 <= i < |transitions| && names[transitions[i]] == name
  }

  /** Saved quick transitions come back into a new set of transitions with all their names,
      durations and ids, exactly if a transition of each of the names is on offer. */
  lemma SaveThenLoad(names: map<Source, string>, quick: seq<Quick>, counter: int,
                     names': map<Source, string>, transitions': seq<Source>)
    requires AllNamed(names, quick) && IdsFit(quick, counter) && Known(names', transitions')
    ensures var entries := Saved(names, quick);
            && AllNamed(names', Loaded(names', transitions', entries))
            && (Saved(names', Loaded(names', transitions', entries)) == entries <==>
                  forall i :: 0 <= i < |quick| ==> Offered(names', transitions', names[quick[i].source]))
  {
    var entries := Saved(names, quick);
    LoadThenSave(names', transitions', entries);
    KeptLength(names', transitions', entries);
    forall i | 0 <= i < |entries|
      ensures Usable(names', transitions', entries[i]) <==> Offered(names', transitions', names[quick[i].source])
    {
      OfferedIsFound(names', transitions', entries[i].name);
    }
    if AllUsable(names', transitions', entries) {
      KeptIsAll(names', transitions', entries);
    }
  }

  lemma OfferedIsFound(names: map<Source, string>, transitions: seq<Source>, name: string)
    requires Known(names, transitions)
    ensures FindTransition(names, transitions, name).Some? <==> Offered(names, transitions, name)
  {
    var r := FindTransition(names, transitions, name);
    if r.Some? {
      var i :| 0 <= i < |transitions| && transitions[i] == r.value;
    }
  }

  /** When names are unique, a name leads back to its own transition. */
  lemma UniqueNameFound(names: map<Source, string>, transitions: seq<Source>, i: nat)
    requires Known(names, transitions) && i < |transitions|
    requires forall j :: 0 <= j < |transitions| && j != i ==> names[transitions[j]] != names[transitions[i]]
    ensures FindTransition(names, transitions, names[transitions[i]]) == Some(transitions[i])
  {
    var r := FindTransition(names, transitions, names[transitions[i]]);
    assert r.Some?;
    var j :| 0 <= j < |transitions| && transitions[j] == r.value;
  }

  /** Loading any array at all, the ids fit exactly if those of the entries kept are positive and
      distinct: the counter is always beyond them. */
  lemma LoadedIdsFit(names: map<Source, string>, transitions: seq<Source>, entries: seq<Entry>)
    requires Known(names, transitions)
    ensures IdsFit(Loaded(names, transitions, entries), Counter(names, transitions, entries)) <==>
              FileFits(Kept(names, transitions, entries))
  {
    var quick, counter := Loaded(names, transitions, entries), Counter(names, transitions, entries);
    LoadThenSave(names, transitions, entries);
    IdsBelowCounter(names, transitions, entries);
    var kept := Kept(names, transitions, entries);
    assert forall i :: 0 <= i < |quick| ==> kept[i].id == quick[i].id;
    if IdsFit(quick, counter) {
      forall i, j | 0 <= i < j < |kept|
        ensures kept[i].id != kept[j].id
      {
        assert quick[i].id != quick[j].id;
      }
      forall i | 0 <= i < |kept|
        ensures 0 < kept[i].id
      {
        assert 0 < quick[i].id;
      }
    }
  }

  lemma {:induction false} IdsBelowCounter(names: map<Source, string>, transitions: seq<Source>, entries: seq<Entry>)
    requires Known(names, transitions)
    ensures forall q :: q in Loaded(names, transitions, entries) ==> q.id < Counter(names, transitions, entries)
  {
    if entries != [] {
      IdsBelowCounter(names, transitions, entries[..|entries| - 1]);
    }
  }

  lemma {:induction false} KeptFits(names: map<Source, string>, transitions: seq<Source>, entries: seq<Entry>)
    requires Known(names, transitions) && FileFits(entries)
    ensures FileFits(Kept(names, transitions, entries))
    ensures forall e :: e in Kept(names, transitions, entries) ==> e in entries
  {
    if entries != [] {
      var front, e := entries[..|entries| - 1], entries[|entries| - 1];
      assert FileFits(front) by {
        assert forall i :: 0 <= i < |front| ==> front[i] == entries[i];
      }
      KeptFits(names, transitions, front);
      var kept := Kept(names, transitions, front);
      forall i | 0 <= i < |kept|
        ensures kept[i].id != e.id && kept[i] in entries
      {
        assert kept[i] in front;
      }
    }
  }

  // ---------------------------------------------------------------- every run

  /** What the user does, with the transitions on offer after the scene data was cleared. */
  datatype Action =
    | CreateDefault(names: map<Source, string>, transitions: seq<Source>)
    | Load(file: nat, names: map<Source, string>, transitions: seq<Source>)
    | Save
    | Add(index: nat, duration: int)
    | Remove(id: int)
    | Change(id: int, index: nat)
    | ChangeDuration(id: int, value: int)
    | AddTransition(source: Source, name: string)
    | RenameTransition(index: nat, name: string)
    | DropTransition(index: nat)

  /** Menus offer only what is there, and there are always two transitions without settings. */
  predicate Possible(s: State, a: Action) {
    match a
    case CreateDefault(names, transitions) => Known(names, transitions) && |transitions| >= 2
    case Load(file, names, transitions) => Known(names, transitions) && file < |s.files|
    case Add(index, _) => index < |s.transitions|
    case Change(_, index) => index < |s.transitions|
    case RenameTransition(index, _) => index < |s.transitions|
    case DropTransition(index) => index < |s.transitions|
    case _ => true
  }

  predicate Sound(s: State) {
    Known(s.names, s.transitions) && AllNamed(s.names, s.quick)
  }

  function After(s: State, a: Action): State
    requires Sound(s) && Possible(s, a)
  {
    match a
    case CreateDefault(names, transitions) =>
      State(names, transitions, WithDefaults([], transitions, s.counter), s.counter + 2, s.files)
    case Load(file, names, transitions) =>
      State(names, transitions, Loaded(names, transitions, s.files[file]), Counter(names, transitions, s.files[file]), s.files)
    case Save => s.(files := s.files + [Saved(s.names, s.quick)])
    case Add(index, duration) =>
      s.(quick := s.quick + [Quick(s.transitions[index], duration, s.counter)], counter := s.counter + 1)
    case Remove(id) => s.(quick := WithoutId(s.quick, id))
    case Change(id, index) => s.(quick := WithSource(s.quick, id, s.transitions[index]))
    case ChangeDuration(id, value) => s.(quick := WithDuration(s.quick, id, value))
    case AddTransition(source, name) => s.(names := s.names[source := name], transitions := s.transitions + [source])
    case RenameTransition(index, name) => s.(names := s.names[s.transitions[index] := name])
    case DropTransition(index) =>
      s.(quick := WithoutSource(s.quick, s.transitions[index]), transitions := RemovedAt(s.transitions, index))
  }

  ghost predicate Consistent(s: State) {
    && Sound(s) && s.counter >= 1 && IdsFit(s.quick, s.counter)
    && forall k :: 0 <= k < |s.files| ==> FileFits(s.files[k])
  }

  lemma AfterKeeps(s: State, a: Action)
    requires Consistent(s) && Possible(s, a)
    ensures Consistent(After(s, a))
  {
    match a
    case CreateDefault(names, transitions) =>
    case Load(file, names, transitions) => LoadKeeps(s, file, names, transitions);
    case Save => assert FileFits(Saved(s.names, s.quick));
    case Add(_, _) => EditKeeps(s, a);
    case Remove(_) => EditKeeps(s, a);
    case Change(_, _) => EditKeeps(s, a);
    case ChangeDuration(_, _) => EditKeeps(s, a);
    case AddTransition(source, name) =>
    case RenameTransition(index, name) =>
    case DropTransition(index) => DropKeeps(s, index);
  }

  lemma EditKeeps(s: State, a: Action)
    requires Consistent(s) && Possible(s, a) && (a.Add? || a.Remove? || a.Change? || a.ChangeDuration?)
    ensures Consistent(After(s, a))
  {
    var t := After(s, a);
    assert AllNamed(t.names, t.quick);
    assert IdsFit(t.quick, t.counter);
  }

  lemma LoadKeeps(s: State, file: nat, names: map<Source, string>, transitions: seq<Source>)
    requires Consistent(s) && Possible(s, Load(file, names, transitions))
    ensures Consistent(After(s, Load(file, names, transitions)))
  {
    KeptFits(names, transitions, s.files[file]);
    LoadedIdsFit(names, transitions, s.files[file]);
    LoadedIsKnown(names, transitions, s.files[file]);
  }

  lemma DropKeeps(s: State, index: nat)
    requires Consistent(s) && index < |s.transitions|
    ensures Consistent(After(s, DropTransition(index)))
  {
    var tr := s.transitions[index];
    WithoutSourceKeepsIds(s.quick, tr, s.counter);
    WithoutSourceKeepsOthers(s.quick, tr);
  }

  // ---------------------------------------------------------------- what each action does

  /** Removing takes out exactly the entry of the id, changing gives it the chosen transition, and
      changing the duration gives it the value; all other entries stay, and so does everything else. */
  lemma EditsByPlace(s: State, i: nat, index: nat, value: int)
    requires Consistent(s) && i < |s.quick| && index < |s.transitions|
    ensures After(s, Remove(s.quick[i].id)) == s.(quick := s.quick[..i] + s.quick[i + 1..])
    ensures After(s, Change(s.quick[i].id, index)) ==
            s.(quick := s.quick[i := Quick(s.transitions[index], s.quick[i].duration, s.quick[i].id)])
    ensures After(s, ChangeDuration(s.quick[i].id, value)) ==
            s.(quick := s.quick[i := Quick(s.quick[i].source, value, s.quick[i].id)])
  {
    LookUpFinds(s.quick, s.counter, i);
    assert RemovedAt(s.quick, i) == s.quick[..i] + s.quick[i + 1..];
  }

  /** An id that no entry has changes nothing. */
  lemma UnknownId(s: State, id: int, index: nat, value: int)
    requires Sound(s) && index < |s.transitions| && forall i :: 0 <= i < |s.quick| ==> s.quick[i].id != id
    ensures After(s, Remove(id)) == After(s, Change(id, index)) == After(s, ChangeDuration(id, value)) == s
  {
    assert IndexOfId(s.quick, id) == -1;
  }

  /** A new entry comes last and takes the next id; starting over leaves two entries of 300
      milliseconds with the next two ids. */
  lemma NewEntries(s: State, index: nat, duration: int, names: map<Source, string>, transitions: seq<Source>)
    requires Sound(s) && index < |s.transitions| && Known(names, transitions) && |transitions| >= 2
    ensures After(s, Add(index, duration)) ==
            s.(quick := s.quick + [Quick(s.transitions[index], duration, s.counter)], counter := s.counter + 1)
    ensures After(s, CreateDefault(names, transitions)) ==
            State(names, transitions, [Quick(transitions[0], 300, s.counter), Quick(transitions[1], 300, s.counter + 1)],
                  s.counter + 2, s.files)
  {
  }

  /** The very first entries have the ids one and two. */
  lemma FirstIds(names: map<Source, string>, transitions: seq<Source>)
    requires Known(names, transitions) && |transitions| >= 2
    ensures Next(START, CreateDefault(names, transitions)) ==
            State(names, transitions, [Quick(transitions[0], 300, 1), Quick(transitions[1], 300, 2)], 3, [])
  {
  }

  /** Dropping a transition takes it off the list and keeps the entries of all others in order. */
  lemma DropKeepsOrder(s: State, index: nat, a: seq<Quick>, q: Quick, b: seq<Quick>)
    requires Sound(s) && index < |s.transitions| && s.quick == a + [q] + b
    ensures var t, tr := After(s, DropTransition(index)), s.transitions[index];
            && t.transitions == s.transitions[..index] + s.transitions[index + 1..]
            && t.names == s.names && t.counter == s.counter && t.files == s.files
            && t.quick == WithoutSource(a, tr) + (if q.source == tr then [] else [q]) + WithoutSource(b, tr)
  {
    var tr := s.transitions[index];
    WithoutSourceConcat(a + [q], b, tr);
    WithoutSourceConcat(a, [q], tr);
    assert RemovedAt(s.transitions, index) == s.transitions[..index] + s.transitions[index + 1..];
    assert WithoutSource([q], tr) == if q.source == tr then [] else [q];
  }

  lemma {:induction false} WithoutSourceConcat(a: seq<Quick>, b: seq<Quick>, tr: Source)
    ensures WithoutSource(a + b, tr) == WithoutSource(a, tr) + WithoutSource(b, tr)
  {
    if a == [] {
      assert a + b == b;
    } else {
      WithoutSourceConcat(a[1..], b, tr);
      assert (a + b)[1..] == a[1..] + b;
      Associative(if a[0].source == tr then [] else [a[0]], WithoutSource(a[1..], tr), WithoutSource(b, tr));
    }
  }

  /** The look-up takes the first transition of the name. */
  lemma {:induction false} FirstOfName(names: map<Source, string>, transitions: seq<Source>, i: nat)
    requires Known(names, transitions) && i < |transitions|
    requires forall j :: 0 <= j < i ==> names[transitions[j]] != names[transitions[i]]
    ensures FindTransition(names, transitions, names[transitions[i]]) == Some(transitions[i])
  {
    if i > 0 {
      assert transitions[0] in names && names[transitions[0]] != names[transitions[i]];
      FirstOfName(names, transitions[1..], i - 1);
    }
  }

  /** An entry is loaded exactly if it has an id and a transition of its name is there, and then with
      its duration and its id; the others are passed over. */
  lemma LoadedOneByOne(names: map<Source, string>, transitions: seq<Source>, entries: seq<Entry>, e: Entry)
    requires Known(names, transitions)
    ensures Loaded(names, transitions, []) == []
    ensures var found := FindTransition(names, transitions, e.name);
            && (found.Some? <==> Offered(names, transitions, e.name))
            && Loaded(names, transitions, entries + [e]) ==
               Loaded(names, transitions, entries) + if e.id != 0 && found.Some? then [Quick(found.value, e.duration, e.id)] else []
  {
    OfferedIsFound(names, transitions, e.name);
    assert (entries + [e])[..|entries|] == entries;
  }

  /** The counter goes back to one, or to the id after the largest of those loaded. */
  lemma {:induction false} CounterIsNext(names: map<Source, string>, transitions: seq<Source>, entries: seq<Entry>)
    requires Known(names, transitions)
    ensures var c := Counter(names, transitions, entries);
            && (forall q :: q in Loaded(names, transitions, entries) ==> q.id < c)
            && (c == 1 || exists q :: q in Loaded(names, transitions, entries) && q.id == c - 1)
  {
    IdsBelowCounter(names, transitions, entries);
    if entries != [] {
      var front, e := entries[..|entries| - 1], entries[|entries| - 1];
      CounterIsNext(names, transitions, front);
      var loaded := Loaded(names, transitions, entries);
      if Usable(names, transitions, e) {
        assert loaded[|loaded| - 1].id == e.id;
      }
      assert forall q :: q in Loaded(names, transitions, front) ==> q in loaded;
    }
  }

  /** Loading takes over the new transitions with what is loaded for them and the counter after it;
      saving adds one array, and the lists of transitions change at one place. */
  lemma FilesAndNames(s: State, file: nat, names: map<Source, string>, transitions: seq<Source>, index: nat, name: string)
    requires Sound(s) && Known(names, transitions)
    ensures file < |s.files| ==>
              After(s, Load(file, names, transitions)) ==
              State(names, transitions, Loaded(names, transitions, s.files[file]), Counter(names, transitions, s.files[file]), s.files)
    ensures var t := After(s, Save);
            && t.(files := s.files) == s && |t.files| == |s.files| + 1 && t.files[..|s.files|] == s.files
            && |t.files[|s.files|]| == |s.quick|
            && forall i :: 0 <= i < |s.quick| ==>
                 t.files[|s.files|][i] == Entry(s.names[s.quick[i].source], s.quick[i].duration, s.quick[i].id)
    ensures index < |s.transitions| ==>
              After(s, RenameTransition(index, name)) == s.(names := s.names[s.transitions[index] := name])
    ensures forall tr :: After(s, AddTransition(tr, name)) ==
                         s.(names := s.names[tr := name], transitions := s.transitions + [tr])
  {
  }

  const START := State(map[], [], [], 1, [])

  /** What is not offered does not happen. */
  function Next(s: State, a: Action): State {
    if Sound(s) && Possible(s, a) then After(s, a) else s
  }

  function Run(s: State, actions: seq<Action>): State {
    if actions == [] then s else Next(Run(s, actions[..|actions| - 1]), actions[|actions| - 1])
  }

  lemma {:induction false} RunKeeps(s: State, actions: seq<Action>)
    requires Consistent(s)
    ensures Consistent(Run(s, actions))
  {
    if actions != [] {
      var t, a := Run(s, actions[..|actions| - 1]), actions[|actions| - 1];
      RunKeeps(s, actions[..|actions| - 1]);
      if Possible(t, a) {
        AfterKeeps(t, a);
      }
    }
  }

  /** Over every run the ids are distinct, positive and below the counter, the next id is new, and
      each id leads back to its own quick transition. */
  lemma ReachableIds(actions: seq<Action>)
    ensures var s := Run(START, actions);
            && (forall i :: 0 <= i < |s.quick| ==> 0 < s.quick[i].id < s.counter && IndexOfId(s.quick, s.quick[i].id) == i)
            && IndexOfId(s.quick, s.counter) == -1
  {
    var s := Run(START, actions);
    RunKeeps(START, actions);
    forall i | 0 <= i < |s.quick|
      ensures IndexOfId(s.quick, s.quick[i].id) == i
    {
      LookUpFinds(s.quick, s.counter, i);
    }
  }

  /** Saving in any reachable state and loading into a new set of transitions restores the saved
      names, durations and ids exactly if each of the names is on offer there. */
  lemma ReachableRoundTrip(actions: seq<Action>, names: map<Source, string>, transitions: seq<Source>)
    requires Known(names, transitions)
    ensures var s := Run(START, actions);
            var loaded := Next(Next(s, Save), Load(|s.files|, names, transitions));
            && AllNamed(s.names, s.quick) && AllNamed(names, loaded.quick)
            && (Saved(names, loaded.quick) == Saved(s.names, s.quick) <==>
                  forall i :: 0 <= i < |s.quick| ==> Offered(names, transitions, s.names[s.quick[i].source]))
  {
    RunKeeps(START, actions);
    var s := Run(START, actions);
    SaveThenLoad(s.names, s.quick, s.counter, names, transitions);
    LoadedIsTheSaved(s, names, transitions);
  }

  lemma LoadedIsTheSaved(s: State, names: map<Source, string>, transitions: seq<Source>)
    requires Sound(s) && Known(names, transitions)
    ensures Next(Next(s, Save), Load(|s.files|, names, transitions)).quick ==
            Loaded(names, transitions, Saved(s.names, s.quick))
  {
    assert (s.files + [Saved(s.names, s.quick)])[|s.files|] == Saved(s.names, s.quick);
  }
}
