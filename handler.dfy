/**
 * The command handler (`FSMCommandHandler` of the finished program): it checks
 * the arguments of the SYMBOLS, STATES, INITIAL-STATE, FINAL-STATES and
 * TRANSITIONS commands, applies them to the engine item by item, and formats
 * the report of EXECUTE.
 *
 * The functions give the engine and the exception (if any) after a command;
 * SYMBOLS applies every valid symbol and reports all invalid ones together,
 * the others stop at the first failure with the earlier items applied.
 * The class holds the engine and updates it in place.
 */
module Handler {
  import opened Base
  import opened Text
  import opened Engine

  // -----------------------------------------------------------------------
  // SYMBOLS

  /** The message for a token that is not a symbol, or None for a symbol. */
  function SymbolProblem(token: string): (msg: Option<string>)
    ensures msg.None? <==> IsSymbolText(token)
  {
    if |token| != 1 then Some(token + " is not allowed as a symbol, length must be 1.")
    else if !IsAlnum(token[0]) then Some(token + " is not allowed, not alphanumeric.")
    else None
  }

  /** One token of SYMBOLS: a symbol is added (a duplicate is ignored), any
      other token yields its message. */
  function SymbolStep(m: Machine, token: string): (r: (Machine, seq<string>))
  {
    match SymbolProblem(token)
    case Some(msg) => (m, [msg])
    case None => (m.AddSymbol(Upper(token)).0, [])
  }

  /** The engine after the valid tokens are added, and the messages for the
      invalid ones, in order. */
  function ApplySymbols(m: Machine, tokens: seq<string>): (r: (Machine, seq<string>))
    ensures |r.1| <= |tokens|
    ensures r.0 == m.(symbols := r.0.symbols) && m.symbols <= r.0.symbols
    ensures m.Valid() ==> r.0.Valid()
    decreases |tokens|
  {
    if tokens == [] then (m, [])
    else
      var (m1, e) := SymbolStep(m, tokens[0]);
      var (m2, es) := ApplySymbols(m1, tokens[1..]);
      (m2, e + es)
  }

  /** The fold from position `i`: the step on token `i`, then the rest. */
  lemma ApplySymbolsAt(m: Machine, tokens: seq<string>, i: nat)
    requires i < |tokens|
    ensures var (m1, e) := SymbolStep(m, tokens[i]);
      ApplySymbols(m, tokens[i..]) == (ApplySymbols(m1, tokens[i + 1..]).0, e + ApplySymbols(m1, tokens[i + 1..]).1)
  {
    assert tokens[i..][0] == tokens[i];
    assert tokens[i..][1..] == tokens[i + 1..];
  }

  /** `handleSymbolsCommand`: the new engine and the `InvalidSymbolException`
      listing every bad token, if there is one. */
  function HandleSymbols(m: Machine, tokens: seq<string>): (r: (Machine, Option<Error>))
    ensures r.0 == m.(symbols := r.0.symbols) && m.symbols <= r.0.symbols
    ensures m.Valid() ==> r.0.Valid()
    ensures r.1.Some? ==> r.1.value.InvalidSymbol?
  {
    var (m', msgs) := ApplySymbols(m, tokens);
    (m', if msgs == [] then None else Some(InvalidSymbol(Join(" ", msgs))))
  }

  /** The symbols SYMBOLS declares: the upper-cased valid tokens. */
  function ValidSymbols(tokens: seq<string>): set<string>
  {
    set t | t in tokens && IsSymbolText(t) :: Upper(t)
  }

  /** SYMBOLS adds every valid token, whatever the invalid ones around it,
      changes nothing else, and reports an error exactly when some token is
      not a single letter or digit. */
  lemma SymbolsAddsAllValid(m: Machine, tokens: seq<string>)
    ensures HandleSymbols(m, tokens).0 == m.(symbols := m.symbols + ValidSymbols(tokens))
    ensures HandleSymbols(m, tokens).1.None? <==> forall i :: 0 <= i < |tokens| ==> IsSymbolText(tokens[i])
  {
    SymbolsAdded(m, tokens);
    SymbolsReported(m, tokens);
  }

  lemma {:induction false} SymbolsAdded(m: Machine, tokens: seq<string>)
    ensures ApplySymbols(m, tokens).0 == m.(symbols := m.symbols + ValidSymbols(tokens))
    decreases |tokens|
  {
    if tokens != [] {
      var t := tokens[0];
      var m1 := SymbolStep(m, t).0;
      SymbolsAdded(m1, tokens[1..]);
      if IsSymbolText(t) {
        UpperIdempotent(t);
        assert IsSymbolText(Upper(t));
        assert m1.symbols == m.symbols + {Upper(t)};
      }
      assert ValidSymbols(tokens) == (if IsSymbolText(t) then {Upper(t)} else {}) + ValidSymbols(tokens[1..]) by {
        assert forall x :: x in tokens <==> x == t || x in tokens[1..];
      }
    }
  }

  lemma {:induction false} SymbolsReported(m: Machine, tokens: seq<string>)
    ensures ApplySymbols(m, tokens).1 == [] <==> forall i :: 0 <= i < |tokens| ==> IsSymbolText(tokens[i])
    decreases |tokens|
  {
    if tokens != [] {
      var t := tokens[0];
      var m1 := SymbolStep(m, t).0;
      SymbolsReported(m1, tokens[1..]);
      var msgs := ApplySymbols(m1, tokens[1..]).1;
      assert ApplySymbols(m, tokens).1 == (if IsSymbolText(t) then [] else [SymbolProblem(t).value]) + msgs;
      if forall i :: 0 <= i < |tokens| ==> IsSymbolText(tokens[i]) {
        assert forall i :: 0 <= i < |tokens[1..]| ==> IsSymbolText(tokens[1..][i]) by {
          forall i | 0 <= i < |tokens[1..]| ensures IsSymbolText(tokens[1..][i]) { assert tokens[1..][i] == tokens[i + 1]; }
        }
      } else {
        var i :| 0 <= i < |tokens| && !IsSymbolText(tokens[i]);
        if i > 0 { assert tokens[1..][i - 1] == tokens[i]; }
      }
    }
  }

  // -----------------------------------------------------------------------
  // STATES

  /** The index of the first token that is not a state name, or the length. */
  function FirstNonStateName(tokens: seq<string>): (k: nat)
    ensures k <= |tokens|
    ensures forall i :: 0 <= i < k ==> IsStateName(tokens[i])
    ensures k < |tokens| ==> !IsStateName(tokens[k])
  {
    if tokens == [] || !IsStateName(tokens[0]) then 0 else 1 + FirstNonStateName(tokens[1..])
  }

  /** `handleStatesCommand`: adds each upper-cased state name in turn and
      stops with `InvalidStateException` at the first token that is not one. */
  function HandleStates(m: Machine, tokens: seq<string>): (r: (Machine, Option<Error>))
    ensures r.0.symbols == m.symbols && r.0.finalStates == m.finalStates && r.0.transitions == m.transitions
    ensures m.states <= r.0.states
    ensures m.Valid() ==> r.0.Valid()
    ensures r.1.Some? ==> r.1.value.InvalidState?
    decreases |tokens|
  {
    if tokens == [] then (m, None)
    else if !IsStateName(tokens[0]) then (m, Some(InvalidState("Invalid state: " + tokens[0])))
    else HandleStates(m.AddState(Upper(tokens[0])).0, tokens[1..])
  }

  /** Adding the upper-cased name is adding the name. */
  lemma AddStateUpper(m: Machine, name: string)
    ensures m.AddState(Upper(name)) == m.AddState(name)
  {
    UpperIdempotent(name);
    if IsStateName(name) {
      assert IsStateName(Upper(name));
    } else if |name| >= 1 {
      var i :| 0 <= i < |name| && !IsAlnum(name[i]);
      assert !IsAlnum(Upper(name)[i]);
    }
  }

  /** STATES adds exactly the tokens before the first bad one, and fails
      exactly when there is a bad one, naming it. */
  lemma {:induction false} StatesStopAtFirstBad(m: Machine, tokens: seq<string>)
    ensures var k := FirstNonStateName(tokens);
      HandleStates(m, tokens) ==
        (AddAllStates(m, tokens[..k]),
         if k == |tokens| then None else Some(InvalidState("Invalid state: " + tokens[k])))
    decreases |tokens|
  {
    if tokens != [] && IsStateName(tokens[0]) {
      AddStateUpper(m, tokens[0]);
      StatesStopAtFirstBad(m.AddState(tokens[0]).0, tokens[1..]);
      var k := FirstNonStateName(tokens);
      assert tokens[..k][1..] == tokens[1..][..k - 1];
    }
  }

  // -----------------------------------------------------------------------
  // INITIAL-STATE and FINAL-STATES

  /** `handleInitialStateCommand`: `setInitialState` never fails, so this
      never throws. */
  function HandleInitialState(m: Machine, state: string): (r: (Machine, Option<Error>))
    ensures r.1.None?
    ensures r.0.initialState == Some(Upper(state)) && r.0.Synced()
    ensures m.Valid() ==> r.0.Valid()
  {
    var (m', ok) := m.SetInitialState(state);
    (m', if ok then None else Some(InvalidState("Initial state must be a declared state: " + state)))
  }

  /** `handleFinalStatesCommand`: marks each state final in turn and stops
      with `InvalidStateException` at the first one already final. */
  function HandleFinals(m: Machine, tokens: seq<string>): (r: (Machine, Option<Error>))
    ensures m.Valid() ==> r.0.Valid()
    ensures r.0.symbols == m.symbols && r.0.transitions == m.transitions
    decreases |tokens|
  {
    if tokens == [] then (m, None)
    else
      var (m', ok) := m.AddFinalState(tokens[0]);
      if !ok then (m', Some(InvalidState("Final state must be a declared state: " + tokens[0])))
      else HandleFinals(m', tokens[1..])
  }

  /** The upper-cased forms of some strings. */
  function UpperAll(tokens: seq<string>): set<string>
  {
    set t | t in tokens :: Upper(t)
  }

  /** No token names a final state or one named by an earlier token,
      ignoring case. */
  predicate AllFresh(finals: set<string>, tokens: seq<string>)
  {
    && (forall i :: 0 <= i < |tokens| ==> Upper(tokens[i]) !in finals)
    && (forall i, j :: 0 <= i < j < |tokens| ==> Upper(tokens[i]) != Upper(tokens[j]))
  }

  lemma AllFreshUnfold(finals: set<string>, tokens: seq<string>)
    requires tokens != []
    ensures AllFresh(finals, tokens) <==>
      Upper(tokens[0]) !in finals && AllFresh(finals + {Upper(tokens[0])}, tokens[1..])
  {
    var tail := tokens[1..];
    assert forall i :: 0 <= i < |tail| ==> tail[i] == tokens[i + 1];
    if Upper(tokens[0]) !in finals && AllFresh(finals + {Upper(tokens[0])}, tail) {
      forall i, j | 0 <= i < j < |tokens| ensures Upper(tokens[i]) != Upper(tokens[j]) {
        if i == 0 { assert Upper(tail[j - 1]) !in finals + {Upper(tokens[0])}; }
      }
    }
    if AllFresh(finals, tokens) {
      forall i | 0 <= i < |tail| ensures Upper(tail[i]) !in finals + {Upper(tokens[0])} {
        assert Upper(tokens[0]) != Upper(tokens[i + 1]);
      }
    }
  }

  /** FINAL-STATES succeeds exactly when no token names a state that is
      already final or that an earlier token named (ignoring case); then
      every named state is final. */
  lemma {:induction false} FinalsSucceedIffFresh(m: Machine, tokens: seq<string>)
    ensures HandleFinals(m, tokens).1.None? <==> AllFresh(m.finalStates, tokens)
    ensures HandleFinals(m, tokens).1.None? ==>
      HandleFinals(m, tokens).0.finalStates == m.finalStates + UpperAll(tokens)
    decreases |tokens|
  {
    if tokens != [] {
      var t := tokens[0];
      var (m', ok) := m.AddFinalState(t);
      var tail := tokens[1..];
      AllFreshUnfold(m.finalStates, tokens);
      assert UpperAll(tokens) == {Upper(t)} + UpperAll(tail) by {
        assert forall x :: x in tokens <==> x == t || x in tail;
      }
      if ok {
        FinalsSucceedIffFresh(m', tail);
      }
    }
  }

  /** FINAL-STATES stopped at token `k`: the tokens before it were all
      fresh and stay final, token `k` repeats a final state, and the
      exception names it. */
  predicate FinalsStoppedAt(m: Machine, tokens: seq<string>, k: nat, r: (Machine, Option<Error>))
    requires k < |tokens|
  {
    && AllFresh(m.finalStates, tokens[..k])
    && Upper(tokens[k]) in m.finalStates + UpperAll(tokens[..k])
    && r.0.finalStates == m.finalStates + UpperAll(tokens[..k])
    && r.1 == Some(InvalidState("Final state must be a declared state: " + tokens[k]))
  }

  /** When FINAL-STATES fails, it failed at the first token that repeats a
      final state (one already final or named earlier, ignoring case); the
      states named before it stay final and the exception names it. */
  lemma {:induction false} FinalsStopAtFirstRepeat(m: Machine, tokens: seq<string>)
    ensures HandleFinals(m, tokens).1.Some? ==>
      exists k :: 0 <= k < |tokens| && FinalsStoppedAt(m, tokens, k, HandleFinals(m, tokens))
    decreases |tokens|
  {
    if tokens != [] {
      var t := tokens[0];
      var tail := tokens[1..];
      var (m1, ok) := m.AddFinalState(t);
      var r := HandleFinals(m, tokens);
      if !ok {
        assert tokens[..0] == [];
        assert UpperAll(tokens[..0]) == {};
        assert FinalsStoppedAt(m, tokens, 0, r);
      } else if r.1.Some? {
        assert r == HandleFinals(m1, tail);
        FinalsStopAtFirstRepeat(m1, tail);
        var k' :| 0 <= k' < |tail| && FinalsStoppedAt(m1, tail, k', r);
        FinalsStoppedLater(m, tokens, k', r);
      }
    }
  }

  /** A stop at token `k'` after the first token was accepted is a stop at
      token `k' + 1` of the whole list. */
  lemma FinalsStoppedLater(m: Machine, tokens: seq<string>, k': nat, r: (Machine, Option<Error>))
    requires tokens != [] && Upper(tokens[0]) !in m.finalStates && k' + 1 < |tokens|
    requires FinalsStoppedAt(m.AddFinalState(tokens[0]).0, tokens[1..], k', r)
    ensures FinalsStoppedAt(m, tokens, k' + 1, r)
  {
    var t := tokens[0];
    var tail := tokens[1..];
    var finals := m.AddFinalState(t).0.finalStates;
    assert finals == m.finalStates + {Upper(t)};
    var prefix := tokens[..k' + 1];
    assert prefix[0] == t && prefix[1..] == tail[..k'];
    AllFreshUnfold(m.finalStates, prefix);
    assert UpperAll(prefix) == {Upper(t)} + UpperAll(tail[..k']) by {
      assert forall x :: x in prefix <==> x == t || x in tail[..k'];
    }
    assert tokens[k' + 1] == tail[k'];
  }

  // -----------------------------------------------------------------------
  // TRANSITIONS

  /** The words of one transition text, when there are exactly three. */
  function TransitionParts(text: string): (p: Option<(string, string, string)>)
    ensures p.Some? <==> |SplitWs(text)| == 3
  {
    var parts := SplitWs(text);
    if |parts| != 3 then None else Some((parts[0], parts[1], parts[2]))
  }

  /** `handleTransitionsCommand`: adds each "symbol from to" text in turn and
      stops with `TransitionException` at the first one that does not have
      three words or that `addTransition` refuses. */
  function HandleTransitions(m: Machine, texts: seq<string>): (r: (Machine, Option<Error>))
    ensures r.0 == m.(transitions := r.0.transitions)
    ensures m.Valid() ==> r.0.Valid()
    ensures m.Synced() ==> r.0.Synced()
    decreases |texts|
  {
    if texts == [] then (m, None)
    else
      var t := texts[0];
      match TransitionParts(t)
      case None => (m, Some(TransitionError("Invalid transition format: " + t)))
      case Some((sym, from, to)) =>
        var (m', ok) := m.AddTransition(sym, from, to);
        if !ok then (m, Some(TransitionError("Transition invalid: " + t)))
        else HandleTransitions(m', texts[1..])
  }

  /** The keys TRANSITIONS writes and the destinations it writes last, which
      depend only on the declared symbols and states. */
  function TransitionWrites(symbols: set<string>, states: seq<string>, texts: seq<string>): map<Key, string>
    decreases |texts|
  {
    if texts == [] then map[]
    else match TransitionParts(texts[0])
      case None => map[]
      case Some((sym, from, to)) =>
        if Upper(sym) in symbols && Upper(from) in states && Upper(to) in states
        then map[(Upper(sym), Upper(from)) := Upper(to)] + TransitionWrites(symbols, states, texts[1..])
        else map[]
  }

  lemma UpdateThenOverride(a: map<Key, string>, k: Key, v: string, w: map<Key, string>)
    ensures a[k := v] + w == a + (map[k := v] + w)
  {
  }

  /** TRANSITIONS overwrites the old map with a set of writes that does not
      depend on the old map. */
  lemma {:induction false} TransitionsAreWrites(m: Machine, texts: seq<string>)
    ensures HandleTransitions(m, texts).0.transitions
         == m.transitions + TransitionWrites(m.symbols, m.states, texts)
    decreases |texts|
  {
    if texts != [] {
      var p := TransitionParts(texts[0]);
      if p.Some? {
        var (sym, from, to) := p.value;
        var (m', ok) := m.AddTransition(sym, from, to);
        if ok {
          TransitionsAreWrites(m', texts[1..]);
          TransitionWriteStep(m, texts, sym, from, to, m');
        } else {
          assert HandleTransitions(m, texts).0 == m;
          assert TransitionWrites(m.symbols, m.states, texts) == map[];
        }
      } else {
        assert HandleTransitions(m, texts).0 == m;
        assert TransitionWrites(m.symbols, m.states, texts) == map[];
      }
    }
  }

  /** One accepted text: its write, then the writes of the rest. */
  lemma TransitionWriteStep(m: Machine, texts: seq<string>, sym: string, from: string, to: string, m': Machine)
    requires texts != [] && TransitionParts(texts[0]) == Some((sym, from, to))
    requires m.AddTransition(sym, from, to) == (m', true)
    requires HandleTransitions(m', texts[1..]).0.transitions
          == m'.transitions + TransitionWrites(m'.symbols, m'.states, texts[1..])
    ensures HandleTransitions(m, texts).0.transitions
         == m.transitions + TransitionWrites(m.symbols, m.states, texts)
  {
    var key, v := (Upper(sym), Upper(from)), Upper(to);
    var rest := TransitionWrites(m.symbols, m.states, texts[1..]);
    HandleTransitionsCons(m, texts, sym, from, to, m');
    TransitionWritesCons(m.symbols, m.states, texts, sym, from, to);
    UpdateThenOverride(m.transitions, key, v, rest);
  }

  /** An accepted first text: TRANSITIONS goes on with the rest. */
  lemma HandleTransitionsCons(m: Machine, texts: seq<string>, sym: string, from: string, to: string, m': Machine)
    requires texts != [] && TransitionParts(texts[0]) == Some((sym, from, to))
    requires m.AddTransition(sym, from, to) == (m', true)
    ensures HandleTransitions(m, texts) == HandleTransitions(m', texts[1..])
    ensures Upper(sym) in m.symbols && Upper(from) in m.states && Upper(to) in m.states
    ensures m'.symbols == m.symbols && m'.states == m.states
    ensures m'.transitions == m.transitions[(Upper(sym), Upper(from)) := Upper(to)]
  {
  }

  lemma TransitionWritesCons(symbols: set<string>, states: seq<string>, texts: seq<string>,
                              sym: string, from: string, to: string)
    requires texts != [] && TransitionParts(texts[0]) == Some((sym, from, to))
    requires Upper(sym) in symbols && Upper(from) in states && Upper(to) in states
    ensures TransitionWrites(symbols, states, texts)
         == map[(Upper(sym), Upper(from)) := Upper(to)] + TransitionWrites(symbols, states, texts[1..])
  {
  }

  /** The error TRANSITIONS reports does not depend on the transition map. */
  lemma {:induction false} TransitionsErrorIgnoresMap(m: Machine, n: Machine, texts: seq<string>)
    requires n == m.(transitions := n.transitions)
    ensures HandleTransitions(n, texts).1 == HandleTransitions(m, texts).1
    decreases |texts|
  {
    if texts != [] {
      match TransitionParts(texts[0])
      case None =>
      case Some((sym, from, to)) =>
        var (m', ok) := m.AddTransition(sym, from, to);
        var (n', _) := n.AddTransition(sym, from, to);
        if ok { TransitionsErrorIgnoresMap(m', n', texts[1..]); }
    }
  }

  /** Applying the same TRANSITIONS arguments twice gives the engine and the
      error of applying them once. */
  lemma TransitionsTwiceIsOnce(m: Machine, texts: seq<string>)
    ensures HandleTransitions(HandleTransitions(m, texts).0, texts) == HandleTransitions(m, texts)
  {
    var r := HandleTransitions(m, texts);
    var w := TransitionWrites(m.symbols, m.states, texts);
    TransitionsAreWrites(m, texts);
    TransitionsAreWrites(r.0, texts);
    TransitionsErrorIgnoresMap(m, r.0, texts);
    assert (m.transitions + w) + w == m.transitions + w;
  }

  // -----------------------------------------------------------------------
  // EXECUTE

  /** Each state followed by one space. */
  function Spaced(xs: seq<string>): string
  {
    if xs == [] then "" else xs[0] + " " + Spaced(xs[1..])
  }

  /** YES when the state is final, NO otherwise. */
  function Verdict(m: Machine, last: string): (v: string)
    ensures v == "YES" <==> last in m.finalStates
    ensures v == "YES" || v == "NO"
  {
    if last in m.finalStates then "YES" else "NO"
  }

  /** `executeFSM`: `InvalidInputException` for empty input; a diagnostic
      string when there is no current state or the trace is empty; otherwise
      the trace, each state followed by a space, then the verdict on the
      last state of the trace. */
  function ExecuteReport(m: Machine, input: string): (r: Result<string, Error>)
    ensures input == [] <==> r == Err(InvalidInput("Input cannot be null or empty"))
    ensures input != [] && m.currentState.None? ==> r == Ok("Error: FSM is not initialized properly.")
    ensures input != [] && m.currentState.Some? && m.initialState.None? ==> r == Ok("Error: Execution failed.")
    ensures input != [] && m.currentState.Some? && m.initialState.Some? ==>
      var t := m.Trace(input);
      r == Ok(Spaced(t) + Verdict(m, t[|t| - 1]))
  {
    if input == [] then Err(InvalidInput("Input cannot be null or empty"))
    else if m.currentState.None? then Ok("Error: FSM is not initialized properly.")
    else
      var t := m.Trace(input);
      if t == [] then Ok("Error: Execution failed.")
      else Ok(Spaced(t) + Verdict(m, t[|t| - 1]))
  }

  /** After CLEAR (or before any state is declared) EXECUTE with input
      reports that the engine is not initialized. */
  lemma ExecuteAfterClear(input: string)
    requires input != []
    ensures ExecuteReport(Empty(), input) == Ok("Error: FSM is not initialized properly.")
  {
  }

  lemma {:induction false} SpacedIsJoin(xs: seq<string>, last: string)
    ensures Spaced(xs) + last == Join(" ", xs + [last])
    decreases |xs|
  {
    if xs != [] {
      SpacedIsJoin(xs[1..], last);
      assert (xs + [last])[1..] == xs[1..] + [last];
    }
  }

  /** On an engine whose current state is its initial state, EXECUTE with
      non-empty input reports the unique run from the initial state, even one
      that halted early, and YES exactly when its last state is final;
      when the state names are words, the report splits back into the run
      and the verdict. */
  lemma ExecuteReportsRun(m: Machine, input: string)
    requires m.Synced() && m.initialState.Some?
    requires input != []
    ensures exists t, v ::
      && m.IsRunFrom(m.initialState.value, input, t)
      && (v == "YES" <==> t[|t| - 1] in m.finalStates)
      && (v == "YES" || v == "NO")
      && ExecuteReport(m, input) == Ok(Spaced(t) + v)
      && ((forall i :: 0 <= i < |t| ==> IsWord(t[i])) ==> Words(Spaced(t) + v) == t + [v])
  {
    var t := m.Trace(input);
    var v := Verdict(m, t[|t| - 1]);
    TraceIsRunFromInitial(m, input);
    SpacedIsJoin(t, v);
    if forall i :: 0 <= i < |t| ==> IsWord(t[i]) {
      assert forall i :: 0 <= i < |t + [v]| ==> IsWord((t + [v])[i]) by {
        assert IsWord(v) by { assert v == "YES" || v == "NO"; }
      }
      WordsOfJoin(t + [v]);
    }
  }

  /** `isAcceptedState`: the state, upper-cased, is final; in a valid engine
      that is the same as some final state equalling it ignoring case. */
  function IsAcceptedState(m: Machine, state: string): (b: bool)
    ensures m.Valid() ==> (b <==> exists f :: f in m.finalStates && EqualsIgnoreCase(f, state))
  {
    var b := Upper(state) in m.finalStates;
    assert m.Valid() ==> forall f :: f in m.finalStates ==> IsUpperCase(f) by {
      if m.Valid() {
        forall f | f in m.finalStates ensures IsUpperCase(f) {
          var i :| 0 <= i < |m.states| && m.states[i] == f;
        }
      }
    }
    forall f | f in m.finalStates && IsUpperCase(f) ensures EqualsIgnoreCase(f, state) <==> f == Upper(state) {
      EqualsIgnoreCaseIffSameUpper(f, state);
    }
    b
  }

  // -----------------------------------------------------------------------
  // The handler object

  class FSMCommandHandler {
    var fsm: FSM

    constructor (fsm: FSM)
      ensures this.fsm == fsm
    {
      this.fsm := fsm;
    }

    function GetFSM(): (f: FSM)
      reads this
    {
      fsm
    }

    method SetFSM(f: FSM)
      modifies this
      ensures fsm == f
    {
      fsm := f;
    }

    method HandleSymbolsCommand(tokens: seq<string>) returns (err: Option<Error>)
      modifies fsm
      ensures (fsm.Model(), err) == HandleSymbols(old(fsm.Model()), tokens)
    {
      var msgs: seq<string> := [];
      var i := 0;
      ghost var m0 := fsm.Model();
      assert tokens[0..] == tokens;
      while i < |tokens|
        invariant 0 <= i <= |tokens|
        invariant ApplySymbols(m0, tokens).0 == ApplySymbols(fsm.Model(), tokens[i..]).0
        invariant ApplySymbols(m0, tokens).1 == msgs + ApplySymbols(fsm.Model(), tokens[i..]).1
      {
        var symbol := tokens[i];
        ghost var before := fsm.Model();
        ApplySymbolsAt(before, tokens, i);
        var reported: seq<string> := [];
        if |symbol| != 1 {
          reported := [symbol + " is not allowed as a symbol, length must be 1."];
        } else if !IsAlnum(symbol[0]) {
          reported := [symbol + " is not allowed, not alphanumeric."];
        } else {
          var _ := fsm.AddSymbol(Upper(symbol));
        }
        assert SymbolStep(before, symbol) == (fsm.Model(), reported);
        ghost var later := ApplySymbols(fsm.Model(), tokens[i + 1..]).1;
        assert msgs + (reported + later) == (msgs + reported) + later;
        msgs := msgs + reported;
        i := i + 1;
      }
      assert tokens[i..] == [];
      assert msgs + [] == msgs;
      assert ApplySymbols(m0, tokens) == (fsm.Model(), msgs);
      err := if msgs == [] then None else Some(InvalidSymbol(Join(" ", msgs)));
    }

    method HandleStatesCommand(tokens: seq<string>) returns (err: Option<Error>)
      modifies fsm
      ensures (fsm.Model(), err) == HandleStates(old(fsm.Model()), tokens)
    {
      var i := 0;
      while i < |tokens|
        invariant 0 <= i <= |tokens|
        invariant HandleStates(old(fsm.Model()), tokens) == HandleStates(fsm.Model(), tokens[i..])
      {
        var state := tokens[i];
        assert tokens[i..][1..] == tokens[i + 1..];
        if !IsStateName(state) {
          return Some(InvalidState("Invalid state: " + state));
        }
        var _ := fsm.AddState(Upper(state));
        i := i + 1;
      }
      return None;
    }

    method HandleInitialStateCommand(state: string) returns (err: Option<Error>)
      modifies fsm
      ensures (fsm.Model(), err) == HandleInitialState(old(fsm.Model()), state)
    {
      var ok := fsm.SetInitialState(state);
      if !ok {
        return Some(InvalidState("Initial state must be a declared state: " + state));
      }
      return None;
    }

    method HandleFinalStatesCommand(states: seq<string>) returns (err: Option<Error>)
      modifies fsm
      ensures (fsm.Model(), err) == HandleFinals(old(fsm.Model()), states)
    {
      var i := 0;
      while i < |states|
        invariant 0 <= i <= |states|
        invariant HandleFinals(old(fsm.Model()), states) == HandleFinals(fsm.Model(), states[i..])
      {
        assert states[i..][1..] == states[i + 1..];
        var ok := fsm.AddFinalState(states[i]);
        if !ok {
          return Some(InvalidState("Final state must be a declared state: " + states[i]));
        }
        i := i + 1;
      }
      return None;
    }

    method HandleTransitionsCommand(texts: seq<string>) returns (err: Option<Error>)
      modifies fsm
      ensures (fsm.Model(), err) == HandleTransitions(old(fsm.Model()), texts)
    {
      var i := 0;
      while i < |texts|
        invariant 0 <= i <= |texts|
        invariant HandleTransitions(old(fsm.Model()), texts) == HandleTransitions(fsm.Model(), texts[i..])
      {
        var text := texts[i];
        assert texts[i..][1..] == texts[i + 1..];
        var parts := SplitWs(text);
        if |parts| != 3 {
          return Some(TransitionError("Invalid transition format: " + text));
        }
        var ok := fsm.AddTransition(parts[0], parts[1], parts[2]);
        if !ok {
          return Some(TransitionError("Transition invalid: " + text));
        }
        i := i + 1;
      }
      return None;
    }

    /** `executeFSM`: reads the engine and changes nothing. */
    method ExecuteFSM(input: string) returns (r: Result<string, Error>)
      ensures r == ExecuteReport(fsm.Model(), input)
    {
      if input == [] {
        return Err(InvalidInput("Input cannot be null or empty"));
      }
      if fsm.currentState.None? {
        return Ok("Error: FSM is not initialized properly.");
      }
      var trace := fsm.TraceFSM(input);
      if trace == [] {
        return Ok("Error: Execution failed.");
      }
      var report := "";
      var i := 0;
      while i < |trace|
        invariant 0 <= i <= |trace|
        invariant report + Spaced(trace[i..]) == Spaced(trace)
      {
        assert trace[i..][1..] == trace[i + 1..];
        report := report + trace[i] + " ";
        i := i + 1;
      }
      assert trace[i..] == [];
      assert report == Spaced(trace);
      var last := trace[|trace| - 1];
      assert trace == fsm.Model().Trace(input);
      report := report + (if last in fsm.finalStates then "YES" else "NO");
      return Ok(report);
    }

    method IsAccepted(state: string) returns (b: bool)
      ensures b == IsAcceptedState(fsm.Model(), state)
    {
      b := Upper(state) in fsm.finalStates;
    }
  }
}
