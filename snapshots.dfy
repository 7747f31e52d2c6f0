/**
 * The in-memory form a compiled machine takes (`SerializableFSMState`) and the
 * file-name check of the serializer.
 *
 * A snapshot copies the symbol, state and final-state sets (as unordered
 * sets), the transition map, and the engine's CURRENT state under the name
 * "initial state". `ToFSM` rebuilds an engine by replaying the operations in
 * the order the Java code uses; the sets are visited in an order the hash
 * tables choose, so the model picks the next element arbitrarily.
 */
module Snapshots {
  import opened Base
  import opened Text
  import opened Engine

  datatype Snapshot = Snapshot(
    symbols: set<string>,
    states: set<string>,
    finalStates: set<string>,
    initialState: Option<string>,
    transitions: map<Key, string>)
  {
    /** A snapshot an engine in a consistent state produces: stored symbols,
        upper-case alphanumeric states, final and initial states among them,
        and transitions between declared names. */
    predicate WellFormed()
    {
      && (forall s :: s in symbols ==> IsStoredSymbol(s))
      && (forall s :: s in states ==> IsStateName(s) && IsUpperCase(s))
      && (forall f :: f in finalStates ==> f in states)
      && (initialState.Some? ==> initialState.value in states)
      && (initialState.None? ==> states == {})
      && (forall k :: k in transitions ==> k.0 in symbols && k.1 in states && transitions[k] in states)
    }

    /** The transition entry `toFSM` would refuse, and the exception it throws. */
    function EntryProblem(k: Key): Option<Error>
      requires k in transitions
    {
      if k.0 !in symbols then Some(InvalidSymbol("Invalid symbol in serialized FSM: " + k.0))
      else if k.1 !in states then Some(InvalidState("Invalid current state in serialized FSM: " + k.1))
      else if transitions[k] !in states then Some(InvalidState("Invalid next state in serialized FSM: " + transitions[k]))
      else None
    }

    /** `toFSM`: adds the symbols, then the states, sets the initial state if
        there is one, adds the final states, then each transition after
        checking its raw names against the snapshot's sets. */
    method ToFSM() returns (r: Result<FSM, Error>)
      ensures r.Ok? ==> fresh(r.value)
      ensures r.Err? <==> exists k :: k in transitions && EntryProblem(k).Some?
      ensures r.Err? ==> exists k :: k in transitions && EntryProblem(k) == Some(r.error)
      ensures r.Ok? ==> r.value.symbols == UpperSymbols(symbols)
      ensures r.Ok? ==> r.value.finalStates == UpperSet(finalStates)
      ensures r.Ok? ==> r.value.Model().Valid() && r.value.Model().Synced()
      ensures r.Ok? && initialState.Some? ==> r.value.initialState == Some(Upper(initialState.value))
      ensures r.Ok? && initialState.None? ==>
                (r.value.initialState.Some? <==> exists s :: s in states && IsStateName(s))
      ensures WellFormed() ==> r.Ok? && Rebuilds(r.value.Model())
    {
      var fsm := new FSM();
      DeclareNames(fsm);
      ghost var declared := fsm.states;
      AddFinalsOf(fsm, finalStates);
      var err := AddTransitionsOf(fsm, this);
      if err.Some? {
        return Err(err.value);
      }
      if WellFormed() {
        WellFormedRebuilt(this);
        assert forall x :: x in declared <==> x in states;
      }
      return Ok(fsm);
    }

    /** The first steps of `toFSM`: the symbols, the states and the initial
        state, on a new engine. */
    method DeclareNames(fsm: FSM)
      requires fsm.Model() == Empty()
      modifies fsm
      ensures fsm.symbols == UpperSymbols(symbols)
      ensures fsm.finalStates == {} && fsm.transitions == map[]
      ensures fsm.Model().Valid() && fsm.Model().Synced()
      ensures forall x :: x in fsm.states <==>
                x in UpperNames(states) || (initialState.Some? && x == Upper(initialState.value))
      ensures initialState.Some? ==> fsm.initialState == Some(Upper(initialState.value))
      ensures initialState.None? ==> (fsm.initialState.Some? <==> exists s :: s in states && IsStateName(s))
    {
      AddSymbolsOf(fsm, symbols);
      AddStatesOf(fsm, states);
      if initialState.None? && exists s :: s in states && IsStateName(s) {
        var s :| s in states && IsStateName(s);
        assert Upper(s) in UpperNames(states);
      }
      if initialState.Some? {
        var _ := fsm.SetInitialState(initialState.value);
      }
    }

    /** The engine `toFSM` builds from a well-formed snapshot: the same sets
        (the states in some order), the same map, and the snapshot's
        initial state as both the initial and the current state. */
    predicate Rebuilds(m: Machine)
    {
      && m.symbols == symbols
      && (set x | x in m.states) == states
      && m.finalStates == finalStates
      && m.initialState == initialState && m.currentState == initialState
      && m.transitions == transitions
    }
  }

  /** The symbol loop of `toFSM`. */
  method AddSymbolsOf(fsm: FSM, xs: set<string>)
    modifies fsm
    ensures fsm.Model() == old(fsm.Model()).(symbols := old(fsm.symbols) + UpperSymbols(xs))
    ensures old(fsm.Model()).Valid() ==> fsm.Model().Valid()
  {
    var todo := xs;
    while todo != {}
      invariant todo <= xs
      invariant fsm.Model() == old(fsm.Model()).(symbols := old(fsm.symbols) + UpperSymbols(xs - todo))
      invariant old(fsm.Model()).Valid() ==> fsm.Model().Valid()
      decreases todo
    {
      var s :| s in todo;
      var _ := fsm.AddSymbol(s);
      assert UpperSymbols(xs - (todo - {s})) == UpperSymbols(xs - todo) + UpperSymbols({s});
      todo := todo - {s};
    }
    assert xs - todo == xs;
  }

  /** The state loop of `toFSM`: the first state added to an engine without
      one becomes its initial state. */
  method AddStatesOf(fsm: FSM, xs: set<string>)
    requires fsm.Model().Valid() && fsm.Model().Synced()
    requires fsm.initialState.None? <==> fsm.states == []
    modifies fsm
    ensures fsm.Model() == old(fsm.Model()).(states := fsm.states, initialState := fsm.initialState,
                                              currentState := fsm.currentState)
    ensures fsm.Model().Valid() && fsm.Model().Synced()
    ensures forall x :: x in fsm.states <==> x in old(fsm.states) || x in UpperNames(xs)
    ensures fsm.initialState.None? <==> fsm.states == []
    ensures old(fsm.initialState).Some? ==> fsm.initialState == old(fsm.initialState)
  {
    var todo := xs;
    while todo != {}
      invariant todo <= xs
      invariant fsm.Model() == old(fsm.Model()).(states := fsm.states, initialState := fsm.initialState,
                                                  currentState := fsm.currentState)
      invariant fsm.Model().Valid() && fsm.Model().Synced()
      invariant forall x :: x in fsm.states <==> x in old(fsm.states) || x in UpperNames(xs - todo)
      invariant fsm.initialState.None? <==> fsm.states == []
      invariant old(fsm.initialState).Some? ==> fsm.initialState == old(fsm.initialState)
      decreases todo
    {
      var s :| s in todo;
      var _ := fsm.AddState(s);
      assert forall x :: x in UpperNames(xs - (todo - {s})) <==>
        x in UpperNames(xs - todo) || (IsStateName(s) && x == Upper(s));
      todo := todo - {s};
    }
    assert xs - todo == xs;
  }

  /** The final-state loop of `toFSM`. */
  method AddFinalsOf(fsm: FSM, xs: set<string>)
    modifies fsm
    ensures fsm.Model() == old(fsm.Model()).(states := fsm.states, finalStates := fsm.finalStates)
    ensures fsm.finalStates == old(fsm.finalStates) + UpperSet(xs)
    ensures forall x :: x in fsm.states <==> x in old(fsm.states) || x in UpperSet(xs)
    ensures old(fsm.Model()).Valid() ==> fsm.Model().Valid()
    ensures old(fsm.Model()).Synced() ==> fsm.Model().Synced()
  {
    var todo := xs;
    while todo != {}
      invariant todo <= xs
      invariant fsm.Model() == old(fsm.Model()).(states := fsm.states, finalStates := fsm.finalStates)
      invariant fsm.finalStates == old(fsm.finalStates) + UpperSet(xs - todo)
      invariant forall x :: x in fsm.states <==> x in old(fsm.states) || x in UpperSet(xs - todo)
      invariant old(fsm.Model()).Valid() ==> fsm.Model().Valid()
      invariant old(fsm.Model()).Synced() ==> fsm.Model().Synced()
      decreases todo
    {
      var f :| f in todo;
      var _ := fsm.AddFinalState(f);
      assert UpperSet(xs - (todo - {f})) == UpperSet(xs - todo) + {Upper(f)};
      todo := todo - {f};
    }
    assert xs - todo == xs;
  }

  /** The transition loop of `toFSM`: each entry is checked against the
      snapshot's raw sets before `addTransition`. */
  method AddTransitionsOf(fsm: FSM, snap: Snapshot) returns (err: Option<Error>)
    requires snap.WellFormed() ==>
      && fsm.symbols == snap.symbols
      && (forall x :: x in fsm.states <==> x in snap.states)
      && fsm.transitions == map[]
    modifies fsm
    ensures OnlyMapChanged(fsm.Model(), old(fsm.Model()))
    ensures err.Some? ==> exists k :: k in snap.transitions && snap.EntryProblem(k) == err
    ensures err.None? ==> EntriesAccepted(snap, snap.transitions.Keys)
    ensures snap.WellFormed() ==> fsm.transitions == snap.transitions
  {
    ghost var m0 := fsm.Model();
    var keys := snap.transitions.Keys;
    ghost var done: set<Key> := {};
    assert Part(snap.transitions, done) == map[];
    while keys != {}
      invariant done == snap.transitions.Keys - keys && keys <= snap.transitions.Keys
      invariant Replayed(fsm.Model(), m0, snap, done)
      decreases keys
    {
      var k :| k in keys;
      err := ReplayEntry(fsm, snap, m0, done, k);
      if err.Some? {
        return;
      }
      keys := keys - {k};
      done := done + {k};
    }
    if snap.WellFormed() {
      PartOfAll(snap.transitions);
    }
    return None;
  }

  /** What the transition loop of `toFSM` keeps after accepting the entries
      `done`: only the map changed, consistency is kept, none of `done` was
      refused and, for a well-formed snapshot, the map holds exactly them. */
  ghost predicate Replayed(m: Machine, m0: Machine, snap: Snapshot, done: set<Key>)
  {
    && OnlyMapChanged(m, m0)
    && EntriesAccepted(snap, done)
    && (snap.WellFormed() ==> done <= snap.transitions.Keys && m.transitions == Part(snap.transitions, done))
  }

  /** One turn of the transition loop of `toFSM`. */
  method ReplayEntry(fsm: FSM, snap: Snapshot, ghost m0: Machine, ghost done: set<Key>, k: Key)
    returns (err: Option<Error>)
    requires k in snap.transitions && k !in done
    requires Replayed(fsm.Model(), m0, snap, done)
    requires snap.WellFormed() ==>
      && m0.symbols == snap.symbols
      && (forall x :: x in m0.states <==> x in snap.states)
    modifies fsm
    ensures err == snap.EntryProblem(k)
    ensures OnlyMapChanged(fsm.Model(), m0)
    ensures err.None? ==> Replayed(fsm.Model(), m0, snap, done + {k})
  {
    err := AddEntry(fsm, snap, k);
    if err.None? && snap.WellFormed() {
      MapOfKeysGrows(snap.transitions, done, k);
    }
  }

  /** `m` is `m0` with another transition map, and consistent if `m0` is. */
  ghost predicate OnlyMapChanged(m: Machine, m0: Machine)
  {
    m == m0.(transitions := m.transitions) && (m0.Valid() ==> m.Valid())
  }

  /** None of the entries `done` is refused. */
  ghost predicate EntriesAccepted(snap: Snapshot, done: set<Key>)
  {
    forall k :: k in done ==> k in snap.transitions && snap.EntryProblem(k).None?
  }

  /** The entries of `t` with keys in `done`. */
  ghost function Part(t: map<Key, string>, done: set<Key>): map<Key, string>
    requires done <= t.Keys
  {
    map x | x in done :: t[x]
  }

  lemma PartOfAll(t: map<Key, string>)
    ensures Part(t, t.Keys) == t
  {
  }

  /** One entry of the transition loop of `toFSM`. */
  method AddEntry(fsm: FSM, snap: Snapshot, k: Key) returns (err: Option<Error>)
    requires k in snap.transitions
    modifies fsm
    ensures err == snap.EntryProblem(k)
    ensures fsm.Model() == old(fsm.Model()).(transitions := fsm.transitions)
    ensures old(fsm.Model()).Valid() ==> fsm.Model().Valid()
    ensures snap.WellFormed() && old(fsm.symbols) == snap.symbols
            && (forall x :: x in old(fsm.states) <==> x in snap.states)
            ==> fsm.transitions == old(fsm.transitions)[k := snap.transitions[k]]
  {
    var to := snap.transitions[k];
    if k.0 !in snap.symbols {
      return Some(InvalidSymbol("Invalid symbol in serialized FSM: " + k.0));
    }
    if k.1 !in snap.states {
      return Some(InvalidState("Invalid current state in serialized FSM: " + k.1));
    }
    if to !in snap.states {
      return Some(InvalidState("Invalid next state in serialized FSM: " + to));
    }
    ghost var before := fsm.Model();
    var _ := fsm.AddTransition(k.0, k.1, to);
    if snap.WellFormed() && before.symbols == snap.symbols && (forall x :: x in before.states <==> x in snap.states) {
      WellFormedEntryIsKept(snap, k, before, fsm.Model());
    }
    return None;
  }

  lemma WellFormedEntryIsKept(snap: Snapshot, k: Key, before: Machine, after: Machine)
    requires snap.WellFormed() && k in snap.transitions
    requires before.symbols == snap.symbols
    requires forall x :: x in before.states <==> x in snap.states
    requires after == before.AddTransition(k.0, k.1, snap.transitions[k]).0
    ensures after.transitions == before.transitions[k := snap.transitions[k]]
  {
    assert Upper(k.0) == k.0 && Upper(k.1) == k.1 && Upper(snap.transitions[k]) == snap.transitions[k];
  }

  lemma MapOfKeysGrows(t: map<Key, string>, done: set<Key>, k: Key)
    requires done <= t.Keys && k in t
    ensures Part(t, done + {k}) == Part(t, done)[k := t[k]]
  {
  }

  /** The declared symbols `addSymbol` makes of some strings. */
  function UpperSymbols(xs: set<string>): set<string>
  {
    set x | x in xs && IsSymbolText(x) :: Upper(x)
  }

  /** The declared states `addState` makes of some strings. */
  function UpperNames(xs: set<string>): set<string>
  {
    set x | x in xs && IsStateName(x) :: Upper(x)
  }

  function UpperSet(xs: set<string>): set<string>
  {
    set x | x in xs :: Upper(x)
  }

  lemma WellFormedRebuilt(snap: Snapshot)
    requires snap.WellFormed()
    ensures UpperSymbols(snap.symbols) == snap.symbols
    ensures UpperNames(snap.states) == snap.states
    ensures UpperSet(snap.finalStates) == snap.finalStates
  {
    assert forall x :: x in snap.symbols ==> Upper(x) == x;
    assert forall x :: x in snap.states ==> Upper(x) == x;
  }

  /** The snapshot of an engine (`new SerializableFSMState(fsm)`). */
  function Capture(m: Machine): Snapshot
  {
    Snapshot(m.symbols, (set x | x in m.states), m.finalStates, m.currentState, m.transitions)
  }

  /** An engine in a consistent state whose states are all alphanumeric and
      that has a current state whenever it has states, gives a well-formed
      snapshot; rebuilding it restores the symbol, state and final-state
      sets and the transition map, and both state fields become the
      original current state. */
  lemma {:induction false} SnapshotRoundTrip(m: Machine, rebuilt: Machine)
    requires m.Valid()
    requires forall i :: 0 <= i < |m.states| ==> IsStateName(m.states[i])
    requires m.currentState.Some? || m.states == []
    ensures Capture(m).WellFormed()
    ensures Capture(m).Rebuilds(rebuilt) ==>
      && rebuilt.symbols == m.symbols
      && (forall x :: x in rebuilt.states <==> x in m.states)
      && rebuilt.finalStates == m.finalStates
      && rebuilt.transitions == m.transitions
      && rebuilt.initialState == m.currentState && rebuilt.currentState == m.currentState
  {
    var snap := Capture(m);
    forall s | s in snap.states ensures IsStateName(s) && IsUpperCase(s) {
      var i :| 0 <= i < |m.states| && m.states[i] == s;
    }
    if m.currentState.None? {
      assert snap.states == {};
    }
    if snap.Rebuilds(rebuilt) {
      var rs := set y | y in rebuilt.states;
      assert rs == snap.states;
      forall x ensures x in rebuilt.states <==> x in m.states {
        assert x in rebuilt.states <==> x in rs;
        assert x in m.states <==> x in snap.states;
      }
    }
  }

  // -----------------------------------------------------------------------
  // File names

  /** The characters the serializer refuses in a file name. */
  predicate IsBadNameChar(c: char)
  {
    c == '\\' || c == '/' || c == ':' || c == '*' || c == '?' || c == '"' || c == '<' || c == '>' || c == '|'
  }

  /** The characters `.` in a Java regular expression does not match. */
  predicate IsLineTerminator(c: char)
  {
    c == '\n' || c == '\r' || c as int == 0x85 || c as int == 0x2028 || c as int == 0x2029
  }

  /** `name.matches(".*[\\\\/:*?\"<>|].*")`: a bad character and, since `.`
      stops at line terminators, no line terminator anywhere. */
  predicate MatchesBadNamePattern(name: string)
  {
    && (exists i :: 0 <= i < |name| && IsBadNameChar(name[i]))
    && (forall i :: 0 <= i < |name| ==> !IsLineTerminator(name[i]))
  }

  /** The file-name check of `serializeFSM` and `deserializeFSM`. */
  function CheckFileName(name: string): (r: Option<Error>)
    ensures r == Some(InvalidFileName("File name cannot be null or empty")) <==> IsBlank(name)
    ensures r == Some(InvalidFileName("File name contains invalid characters")) <==>
              !IsBlank(name) && MatchesBadNamePattern(name)
    ensures r.None? <==> !IsBlank(name) && !MatchesBadNamePattern(name)
  {
    TrimEmptyIffBlank(name);
    if Trim(name) == [] then Some(InvalidFileName("File name cannot be null or empty"))
    else if MatchesBadNamePattern(name) then Some(InvalidFileName("File name contains invalid characters"))
    else None
  }

  /** An accepted name on one line has no path separator, so the file it
      names lies in the working directory. */
  lemma AcceptedNameHasNoSeparator(name: string)
    requires CheckFileName(name).None?
    requires forall i :: 0 <= i < |name| ==> !IsLineTerminator(name[i])
    ensures forall i :: 0 <= i < |name| ==> name[i] != '/' && name[i] != '\\'
  {
  }
}
