/**
 * The deterministic finite-state-machine engine (class `FSM` of the finished
 * program, identical in behaviour to the draft's `FSM` class).
 *
 * `Machine` is the value of an engine: its symbol set, its insertion-ordered
 * state set, its final states, the optional initial and current states, and
 * the transition map keyed by (symbol, from-state). Its member functions give
 * the result of each operation; the class `FSM` holds the same fields and
 * updates them in place, each method proved to agree with the function.
 */
module Engine {
  import opened Base
  import opened Text

  /** A transition key: (symbol, from-state). */
  type Key = (string, string)

  predicate NoDuplicates(xs: seq<string>)
  {
    forall i, j :: 0 <= i < j < |xs| ==> xs[i] != xs[j]
  }

  /** A declared symbol: one upper-case letter or digit. */
  predicate IsStoredSymbol(s: string) { IsSymbolText(s) && IsUpperCase(s) }

  datatype Machine = Machine(
    symbols: set<string>,
    states: seq<string>,
    finalStates: set<string>,
    initialState: Option<string>,
    currentState: Option<string>,
    transitions: map<Key, string>)
  {
    /** What every sequence of operations keeps true. */
    predicate Valid()
    {
      && (forall s :: s in symbols ==> IsStoredSymbol(s))
      && NoDuplicates(states)
      && (forall i :: 0 <= i < |states| ==> IsUpperCase(states[i]))
      && (forall f :: f in finalStates ==> f in states)
      && (initialState.Some? ==> initialState.value in states)
      && (currentState.Some? ==> currentState.value in states)
      && (forall k :: k in transitions ==> k.0 in symbols && k.1 in states && transitions[k] in states)
    }

    /** The two state fields agree; every operation but `SetCurrentState`
        keeps it so. */
    predicate Synced() { currentState == initialState }

    /** `states` with `s` appended unless it is already there. */
    function Declare(s: string): (ss: seq<string>)
      ensures s in ss && |states| <= |ss|
      ensures forall x :: x in ss <==> x in states || x == s
      ensures ss[..|states|] == states
      ensures NoDuplicates(states) ==> NoDuplicates(ss)
    {
      if s in states then states else states + [s]
    }

    /** `addSymbol`: accepts exactly one letter or digit, stores it upper-cased,
        and refuses a symbol already declared. */
    function AddSymbol(symbol: string): (r: (Machine, bool))
      ensures r.1 <==> IsSymbolText(symbol) && Upper(symbol) !in symbols
      ensures r.0.symbols == if r.1 then symbols + {Upper(symbol)} else symbols
      ensures r.0 == this.(symbols := r.0.symbols)
      ensures Valid() ==> r.0.Valid()
    {
      if !IsSymbolText(symbol) then (this, false)
      else
        UpperIdempotent(symbol);
        var s := Upper(symbol);
        if s in symbols then (this, false) else (this.(symbols := symbols + {s}), true)
    }

    /** `addState`: accepts one or more letters or digits, stores the name
        upper-cased at the end of the states, refuses a duplicate; the first
        state added to an engine without an initial state becomes both the
        initial and the current state. */
    function AddState(state: string): (r: (Machine, bool))
      ensures r.1 <==> IsStateName(state) && Upper(state) !in states
      ensures r.0.states == if r.1 then states + [Upper(state)] else states
      ensures r.1 && initialState.None? ==>
                r.0.initialState == Some(Upper(state)) && r.0.currentState == Some(Upper(state))
      ensures !r.1 || initialState.Some? ==> r.0 == this.(states := r.0.states)
      ensures r.0 == this.(states := r.0.states, initialState := r.0.initialState, currentState := r.0.currentState)
      ensures Valid() ==> r.0.Valid()
      ensures Synced() ==> r.0.Synced()
    {
      if !IsStateName(state) then (this, false)
      else
        UpperIdempotent(state);
        var s := Upper(state);
        if s in states then (this, false)
        else if initialState.None? then
          (this.(states := states + [s], initialState := Some(s), currentState := Some(s)), true)
        else (this.(states := states + [s]), true)
    }

    /** `setInitialState`: always succeeds; declares the state if needed and
        makes it both the initial and the current state. */
    function SetInitialState(state: string): (r: (Machine, bool))
      ensures r.1
      ensures r.0.states == Declare(Upper(state))
      ensures r.0.initialState == Some(Upper(state)) && r.0.currentState == Some(Upper(state))
      ensures r.0 == this.(states := r.0.states, initialState := r.0.initialState, currentState := r.0.currentState)
      ensures Valid() ==> r.0.Valid()
      ensures r.0.Synced()
    {
      UpperIdempotent(state);
      var s := Upper(state);
      (this.(states := Declare(s), initialState := Some(s), currentState := Some(s)), true)
    }

    /** `addFinalState`: declares the state if needed and marks it final;
        fails only when it was final already. */
    function AddFinalState(state: string): (r: (Machine, bool))
      ensures r.1 <==> Upper(state) !in finalStates
      ensures r.0.states == Declare(Upper(state))
      ensures r.0.finalStates == finalStates + {Upper(state)}
      ensures r.0 == this.(states := r.0.states, finalStates := r.0.finalStates)
      ensures Valid() ==> r.0.Valid() && r.0.states == Declare(Upper(state))
      ensures Valid() && !r.1 ==> r.0 == this
      ensures Synced() ==> r.0.Synced()
    {
      UpperIdempotent(state);
      var s := Upper(state);
      (this.(states := Declare(s), finalStates := finalStates + {s}), s !in finalStates)
    }

    /** `addTransition`: with the upper-cased symbol and both states declared,
        maps (symbol, from) to `to`, replacing any earlier destination;
        otherwise changes nothing. */
    function AddTransition(symbol: string, from: string, to: string): (r: (Machine, bool))
      ensures r.1 <==> Upper(symbol) in symbols && Upper(from) in states && Upper(to) in states
      ensures r.0.transitions ==
                if r.1 then transitions[(Upper(symbol), Upper(from)) := Upper(to)] else transitions
      ensures r.0 == this.(transitions := r.0.transitions)
      ensures Valid() ==> r.0.Valid()
      ensures Synced() ==> r.0.Synced()
    {
      var s, f, t := Upper(symbol), Upper(from), Upper(to);
      if s !in symbols || f !in states || t !in states then (this, false)
      else (this.(transitions := transitions[(s, f) := t]), true)
    }

    /** `setCurrentState`: moves to a declared state; refuses any other. */
    function SetCurrentState(state: string): (r: (Machine, bool))
      ensures r.1 <==> Upper(state) in states
      ensures r.0 == if r.1 then this.(currentState := Some(Upper(state))) else this
      ensures Valid() ==> r.0.Valid()
    {
      var s := Upper(state);
      if s in states then (this.(currentState := Some(s)), true) else (this, false)
    }

    /** One step of a run: the destination for input character `c` from
        state `cur`, or None when the upper-cased character is not a declared
        symbol or there is no transition for it. */
    function Step(cur: string, c: char): (next: Option<string>)
      ensures next.Some? ==> [UpperChar(c)] in symbols && ([UpperChar(c)], cur) in transitions
      ensures next.Some? ==> next.value == transitions[([UpperChar(c)], cur)]
      ensures next.None? ==> [UpperChar(c)] !in symbols || ([UpperChar(c)], cur) !in transitions
    {
      var sym := [UpperChar(c)];
      if sym in symbols && (sym, cur) in transitions then Some(transitions[(sym, cur)]) else None
    }

    /** The states visited from `cur` on `input`, stopping at the first step
        that fails. */
    function Run(cur: string, input: string): (t: seq<string>)
      ensures 1 <= |t| <= |input| + 1
      ensures t[0] == cur
      decreases |input|
    {
      if input == [] then [cur]
      else match Step(cur, input[0])
        case None => [cur]
        case Some(next) => [cur] + Run(next, input[1..])
    }

    /** `execute` (and `traceFSM`): empty without an initial state, otherwise
        the run from the initial state. */
    function Trace(input: string): (t: seq<string>)
      ensures t == [] <==> initialState.None?
      ensures initialState.Some? ==> t[0] == initialState.value && |t| <= |input| + 1
    {
      if initialState.None? then [] else Run(initialState.value, input)
    }

    /** An independent description of a run of `input` from `cur`: it starts
        at `cur`, each state is the step of the previous one on the next
        character, and it is as long as the steps succeed. */
    predicate IsRunFrom(cur: string, input: string, t: seq<string>)
    {
      && 1 <= |t| <= |input| + 1
      && t[0] == cur
      && (forall i :: 0 <= i < |t| - 1 ==> Step(t[i], input[i]) == Some(t[i + 1]))
      && (|t| <= |input| ==> Step(t[|t| - 1], input[|t| - 1]).None?)
    }
  }

  /** A new engine, and the result of `clear`: nothing declared, no initial
      or current state. */
  function Empty(): (m: Machine)
    ensures m.symbols == {} && m.states == [] && m.finalStates == {} && m.transitions == map[]
    ensures m.initialState.None? && m.currentState.None?
    ensures m.Valid() && m.Synced()
  {
    Machine({}, [], {}, None, None, map[])
  }

  // -----------------------------------------------------------------------
  // Properties of the operations

  /** A symbol that differs only in case from a declared one is refused and
      the engine is unchanged. */
  lemma {:induction false} AddSymbolRefusesCaseDuplicate(m: Machine, declared: string, symbol: string)
    requires m.Valid()
    requires declared in m.symbols
    requires EqualsIgnoreCase(declared, symbol)
    ensures m.AddSymbol(symbol) == (m, false)
  {
    EqualsIgnoreCaseIffSameUpper(declared, symbol);
    assert Upper(symbol) == declared;
  }

  /** A state that differs only in case from a declared one is refused and
      the engine is unchanged. */
  lemma {:induction false} AddStateRefusesCaseDuplicate(m: Machine, i: nat, state: string)
    requires m.Valid()
    requires i < |m.states|
    requires EqualsIgnoreCase(m.states[i], state)
    ensures m.AddState(state) == (m, false)
  {
    EqualsIgnoreCaseIffSameUpper(m.states[i], state);
    assert Upper(state) == m.states[i];
  }

  /** Once an initial state is set, adding states never changes it. */
  lemma {:induction false} AddStatesKeepInitial(m: Machine, names: seq<string>)
    requires m.initialState.Some?
    ensures AddAllStates(m, names).initialState == m.initialState
    ensures AddAllStates(m, names).currentState == m.currentState
    decreases |names|
  {
    if names != [] {
      AddStatesKeepInitial(m.AddState(names[0]).0, names[1..]);
    }
  }

  /** `m` after `addState` of each name in turn. */
  function AddAllStates(m: Machine, names: seq<string>): Machine
    decreases |names|
  {
    if names == [] then m else AddAllStates(m.AddState(names[0]).0, names[1..])
  }

  /** Adding the same transition twice is the same as adding it once: the
      second call succeeds exactly when the first did and changes nothing. */
  lemma AddTransitionIdempotent(m: Machine, symbol: string, from: string, to: string)
    ensures m.AddTransition(symbol, from, to).0.AddTransition(symbol, from, to)
            == m.AddTransition(symbol, from, to)
  {
    var (m1, ok1) := m.AddTransition(symbol, from, to);
    if ok1 {
      assert m1.transitions[(Upper(symbol), Upper(from)) := Upper(to)] == m1.transitions;
    }
  }

  /** `Run` is a run in the sense of `IsRunFrom`. */
  lemma {:induction false} RunIsRun(m: Machine, cur: string, input: string)
    ensures m.IsRunFrom(cur, input, m.Run(cur, input))
    decreases |input|
  {
    if input != [] {
      match m.Step(cur, input[0])
      case None =>
      case Some(next) =>
        var t := m.Run(cur, input);
        var rest := m.Run(next, input[1..]);
        RunIsRun(m, next, input[1..]);
        assert t == [cur] + rest;
        forall i | 0 <= i < |t| - 1 ensures m.Step(t[i], input[i]) == Some(t[i + 1]) {
          if i > 0 {
            assert t[i] == rest[i - 1] && t[i + 1] == rest[i] && input[i] == input[1..][i - 1];
          }
        }
        if |t| <= |input| {
          assert t[|t| - 1] == rest[|rest| - 1] && input[|t| - 1] == input[1..][|rest| - 1];
        }
    }
  }

  /** A run is unique: any sequence that `IsRunFrom` describes is `Run`. */
  lemma {:induction false} RunIsUnique(m: Machine, cur: string, input: string, t: seq<string>)
    requires m.IsRunFrom(cur, input, t)
    ensures t == m.Run(cur, input)
    decreases |input|
  {
    if input == [] {
    } else if |t| == 1 {
      assert m.Step(cur, input[0]).None?;
    } else {
      var next := t[1];
      assert m.Step(cur, input[0]) == Some(next);
      var rest := t[1..];
      forall i | 0 <= i < |rest| - 1 ensures m.Step(rest[i], input[1..][i]) == Some(rest[i + 1]) {
        assert m.Step(t[i + 1], input[i + 1]) == Some(t[i + 2]);
      }
      if |rest| <= |input[1..]| {
        assert m.Step(t[|t| - 1], input[|t| - 1]).None?;
        assert rest[|rest| - 1] == t[|t| - 1] && input[1..][|rest| - 1] == input[|t| - 1];
      }
      RunIsUnique(m, next, input[1..], rest);
      assert t == [cur] + rest;
    }
  }

  /** `execute`: empty exactly when there is no initial state; otherwise the
      unique run from the initial state. */
  lemma TraceIsRunFromInitial(m: Machine, input: string)
    ensures m.Trace(input) == [] <==> m.initialState.None?
    ensures m.initialState.Some? ==> m.IsRunFrom(m.initialState.value, input, m.Trace(input))
    ensures forall t :: m.initialState.Some? && m.IsRunFrom(m.initialState.value, input, t) ==> t == m.Trace(input)
  {
    if m.initialState.Some? {
      RunIsRun(m, m.initialState.value, input);
      forall t | m.IsRunFrom(m.initialState.value, input, t) ensures t == m.Trace(input) {
        RunIsUnique(m, m.initialState.value, input, t);
      }
    }
  }

  /** A run from position `i` of the input: one step, then the rest. */
  lemma RunAt(m: Machine, cur: string, input: string, i: nat)
    requires i < |input|
    ensures m.Step(cur, input[i]).None? ==> m.Run(cur, input[i..]) == [cur]
    ensures m.Step(cur, input[i]).Some? ==>
              m.Run(cur, input[i..]) == [cur] + m.Run(m.Step(cur, input[i]).value, input[i + 1..])
  {
    assert input[i..][0] == input[i];
    assert input[i..][1..] == input[i + 1..];
  }

  /** In a valid engine every state a run visits is declared. */
  lemma {:induction false} RunStaysDeclared(m: Machine, cur: string, input: string)
    requires m.Valid()
    requires cur in m.states
    ensures forall i :: 0 <= i < |m.Run(cur, input)| ==> m.Run(cur, input)[i] in m.states
    decreases |input|
  {
    if input != [] {
      match m.Step(cur, input[0])
      case None =>
      case Some(next) =>
        RunStaysDeclared(m, next, input[1..]);
    }
  }

  // -----------------------------------------------------------------------
  // The engine object

  class FSM {
    var symbols: set<string>
    var states: seq<string>
    var finalStates: set<string>
    var initialState: Option<string>
    var currentState: Option<string>
    var transitions: map<Key, string>

    /** The engine's value. */
    function Model(): Machine
      reads this
    {
      Machine(symbols, states, finalStates, initialState, currentState, transitions)
    }

    constructor ()
      ensures Model() == Empty()
    {
      symbols := {};
      states := [];
      finalStates := {};
      transitions := map[];
      initialState := None;
      currentState := None;
    }

    method AddSymbol(symbol: string) returns (ok: bool)
      modifies this
      ensures (Model(), ok) == old(Model()).AddSymbol(symbol)
    {
      if !IsSymbolText(symbol) {
        return false;
      }
      var s := Upper(symbol);
      if s in symbols {
        return false;
      }
      symbols := symbols + {s};
      return true;
    }

    method AddState(state: string) returns (added: bool)
      modifies this
      ensures (Model(), added) == old(Model()).AddState(state)
    {
      if !IsStateName(state) {
        return false;
      }
      var s := Upper(state);
      added := s !in states;
      if added {
        states := states + [s];
        if initialState.None? {
          initialState := Some(s);
          currentState := Some(s);
        }
      }
    }

    method SetInitialState(state: string) returns (ok: bool)
      modifies this
      ensures (Model(), ok) == old(Model()).SetInitialState(state)
    {
      var s := Upper(state);
      if s !in states {
        states := states + [s];
      }
      initialState := Some(s);
      currentState := Some(s);
      return true;
    }

    method AddFinalState(state: string) returns (ok: bool)
      modifies this
      ensures (Model(), ok) == old(Model()).AddFinalState(state)
    {
      var s := Upper(state);
      if s !in states {
        states := states + [s];
      }
      if s in finalStates {
        assert finalStates + {s} == finalStates;
        return false;
      }
      finalStates := finalStates + {s};
      return true;
    }

    /** `addNextState` delegates to `addFinalState`. */
    method AddNextState(state: string) returns (ok: bool)
      modifies this
      ensures (Model(), ok) == old(Model()).AddFinalState(state)
    {
      ok := AddFinalState(state);
    }

    method AddTransition(symbol: string, from: string, to: string) returns (ok: bool)
      modifies this
      ensures (Model(), ok) == old(Model()).AddTransition(symbol, from, to)
    {
      var s, f, t := Upper(symbol), Upper(from), Upper(to);
      if s !in symbols || f !in states || t !in states {
        return false;
      }
      transitions := transitions[(s, f) := t];
      return true;
    }

    method SetCurrentState(state: string) returns (ok: bool)
      modifies this
      ensures (Model(), ok) == old(Model()).SetCurrentState(state)
    {
      var s := Upper(state);
      if s !in states {
        return false;
      }
      currentState := Some(s);
      return true;
    }

    method Clear()
      modifies this
      ensures Model() == Empty()
    {
      symbols := {};
      states := [];
      finalStates := {};
      transitions := map[];
      initialState := None;
      currentState := None;
    }

    /** `execute`: walks the input from the initial state and writes no
        field. */
    method Execute(input: string) returns (trace: seq<string>)
      ensures trace == Model().Trace(input)
    {
      trace := [];
      if initialState.None? {
        return;
      }
      var m := Model();
      var current := initialState.value;
      trace := [current];
      ghost var visited: seq<string> := [];
      var i := 0;
      while i < |input|
        invariant 0 <= i <= |input|
        invariant trace == visited + [current]
        invariant visited + m.Run(current, input[i..]) == m.Trace(input)
      {
        var symbol := [UpperChar(input[i])];
        RunAt(m, current, input, i);
        if symbol !in symbols || (symbol, current) !in transitions {
          return;
        }
        visited := trace;
        current := transitions[(symbol, current)];
        trace := trace + [current];
        i := i + 1;
      }
      assert input[i..] == [];
    }

    /** `traceFSM` delegates to `execute`. */
    method TraceFSM(input: string) returns (trace: seq<string>)
      ensures trace == Model().Trace(input)
    {
      trace := Execute(input);
    }
  }
}
