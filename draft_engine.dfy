/**
 * The engine of the earliest draft (`FSM.java`). Its class keeps the same
 * fields as the finished engine, but runs input with explicit steps:
 * `resetFSM` puts the machine back in its initial state, `stepFSM` follows
 * one transition from the current state, and `traceFSM` resets and steps
 * through a whole line. Transition keys are (from-state, symbol), the
 * reverse of the finished engine's order, and the input characters are used
 * as they are, not upper-cased.
 *
 * The same file holds the draft's command-file reader
 * (`FileManager.readCommandsFromFile`), which splits the lines of a file
 * into semicolon-terminated commands.
 */
module DraftEngine {
  import opened Base
  import opened Text

  /** A transition key of the draft: (from-state, symbol). */
  type DraftKey = (string, string)

  /** The fields of a draft engine; a null reference is None. */
  datatype DraftMachine = DraftMachine(
    states: set<string>,
    symbols: set<string>,
    initialState: Option<string>,
    currentState: Option<string>,
    finalStates: set<string>,
    transitions: map<DraftKey, string>)

  /** What `addTransition` keeps true of the map: every key names a
      declared state and an upper-cased declared symbol, and leads to a
      declared state. */
  predicate KeysStored(m: DraftMachine)
  {
    forall k :: k in m.transitions ==>
      k.0 in m.states && k.1 in m.symbols && IsUpperCase(k.1) && m.transitions[k] in m.states
  }

  /** The entry `stepFSM` follows from `cur` on the symbol text `sym`; none
      without a current state (Java's key then holds null, which no stored
      key does). */
  function StepFrom(transitions: map<DraftKey, string>, cur: Option<string>, sym: string): (next: Option<string>)
    ensures cur.None? ==> next.None?
    ensures next.Some? ==> (cur.value, sym) in transitions && next.value in transitions.Values
  {
    if cur.Some? && (cur.value, sym) in transitions then Some(transitions[(cur.value, sym)]) else None
  }

  /** The states `traceFSM` records from `cur`: `cur`, then one state for
      each character of `input` as long as there is an entry for it. */
  function Visit(transitions: map<DraftKey, string>, cur: Option<string>, input: string): (t: seq<Option<string>>)
    ensures 1 <= |t| <= |input| + 1 && t[0] == cur
    decreases |input|
  {
    if input == [] then [cur]
    else match StepFrom(transitions, cur, [input[0]])
      case None => [cur]
      case Some(next) => [cur] + Visit(transitions, Some(next), input[1..])
  }

  /** Where `traceFSM` starts: `resetFSM` moves to the initial state when
      there is one, and otherwise leaves the current state as it was. */
  function TraceStart(m: DraftMachine): (start: Option<string>)
    ensures m.initialState.Some? ==> start == m.initialState
    ensures start.None? ==> m.initialState.None? && m.currentState.None?
    ensures (m.initialState.Some? ==> m.initialState.value in m.states)
         && (m.currentState.Some? ==> m.currentState.value in m.states)
         ==> (start.Some? ==> start.value in m.states)
  {
    if m.initialState.Some? then m.initialState else m.currentState
  }

  /** Recorded state `i + 1` is the entry for state `i` and character `i`. */
  predicate Linked(transitions: map<DraftKey, string>, t: seq<Option<string>>, input: string, i: nat)
    requires i + 1 < |t| && i < |input|
  {
    t[i + 1].Some? && StepFrom(transitions, t[i], [input[i]]) == t[i + 1]
  }

  /** An independent description of a trace from `cur`: it starts at
      `cur`, each recorded state is the entry for the previous one and the
      next character, and it is as long as such entries exist. */
  predicate IsTraceOf(transitions: map<DraftKey, string>, cur: Option<string>, input: string, t: seq<Option<string>>)
  {
    && 1 <= |t| <= |input| + 1 && t[0] == cur
    && (forall i :: 0 <= i < |t| - 1 ==> Linked(transitions, t, input, i))
    && (|t| <= |input| ==> StepFrom(transitions, t[|t| - 1], [input[|t| - 1]]).None?)
  }

  /** The states `traceFSM` records are such a trace. */
  lemma {:induction false} VisitIsTrace(transitions: map<DraftKey, string>, cur: Option<string>, input: string)
    ensures IsTraceOf(transitions, cur, input, Visit(transitions, cur, input))
    decreases |input|
  {
    if input != [] {
      var step := StepFrom(transitions, cur, [input[0]]);
      if step.Some? {
        var rest := Visit(transitions, step, input[1..]);
        VisitIsTrace(transitions, step, input[1..]);
        var t := Visit(transitions, cur, input);
        assert t == [cur] + rest;
        assert t[1] == rest[0] == step;
        forall i | 0 <= i < |t| - 1
          ensures Linked(transitions, t, input, i)
        {
          if i > 0 {
            assert Linked(transitions, rest, input[1..], i - 1);
            assert t[i] == rest[i - 1] && t[i + 1] == rest[i] && input[i] == input[1..][i - 1];
          } else {
            assert t[0] == cur;
          }
        }
        if |t| <= |input| {
          assert |rest| <= |input[1..]|;
          assert StepFrom(transitions, rest[|rest| - 1], [input[1..][|rest| - 1]]).None?;
          assert t[|t| - 1] == rest[|rest| - 1] && input[|t| - 1] == input[1..][|rest| - 1];
          assert StepFrom(transitions, t[|t| - 1], [input[|t| - 1]]).None?;
        }
      }
    }
  }

  /** Keys hold upper-cased symbols and the input is not upper-cased, so a
      trace never passes a lower-case letter: every character it consumed
      is something other than a lower-case letter. */
  lemma TraceStopsAtLowerCase(m: DraftMachine, input: string)
    requires KeysStored(m)
    ensures var t := Visit(m.transitions, TraceStart(m), input);
      forall i :: 0 <= i < |t| - 1 ==> !IsLowerLetter(input[i])
  {
    var t := Visit(m.transitions, TraceStart(m), input);
    VisitIsTrace(m.transitions, TraceStart(m), input);
    forall i | 0 <= i < |t| - 1 ensures !IsLowerLetter(input[i]) {
      assert Linked(m.transitions, t, input, i);
      var key := (t[i].value, [input[i]]);
      assert key in m.transitions;
      assert Upper(key.1)[0] == UpperChar(input[i]);
    }
  }

  /** In particular a line that starts with a lower-case letter records only
      the starting state. */
  lemma LowerCaseFirstGoesNowhere(m: DraftMachine, input: string)
    requires KeysStored(m) && input != [] && IsLowerLetter(input[0])
    ensures Visit(m.transitions, TraceStart(m), input) == [TraceStart(m)]
  {
    TraceStopsAtLowerCase(m, input);
  }

  /** The trace after `addTransition` stored `from --sym--> to`: from `from`
      the symbol's character leads to `to`. */
  lemma StoredTransitionIsFollowed(transitions: map<DraftKey, string>, from: string, c: char, to: string, rest: string)
    ensures var t := Visit(transitions[(from, [c]) := to], Some(from), [c] + rest);
      |t| >= 2 && t[1] == Some(to)
  {
    assert ([c] + rest)[1..] == rest;
  }

  /** A trace continued one step: the state reached at `input[i]` is the
      next one recorded. */
  lemma VisitStep(transitions: map<DraftKey, string>, cur: Option<string>, input: string, i: nat, next: string)
    requires i < |input| && StepFrom(transitions, cur, [input[i]]) == Some(next)
    ensures Visit(transitions, cur, input[i..]) == [cur] + Visit(transitions, Some(next), input[i + 1..])
  {
    assert input[i..][0] == input[i] && input[i..][1..] == input[i + 1..];
  }

  /** A trace ends where the input does or where no entry applies. */
  lemma VisitStops(transitions: map<DraftKey, string>, cur: Option<string>, input: string, i: nat)
    requires i <= |input|
    requires i < |input| ==> StepFrom(transitions, cur, [input[i]]).None?
    ensures Visit(transitions, cur, input[i..]) == [cur]
  {
    if i < |input| {
      assert input[i..][0] == input[i];
    }
  }

  /** One successful step of `traceFSM` moves the state left behind to
      the recorded prefix. */
  lemma TraceAdvance(transitions: map<DraftKey, string>, start: Option<string>, input: string,
                     done: seq<Option<string>>, cur: Option<string>, i: nat, next: string)
    requires i < |input| && StepFrom(transitions, cur, [input[i]]) == Some(next)
    requires Visit(transitions, start, input) == done + Visit(transitions, cur, input[i..])
    ensures Visit(transitions, start, input) == (done + [cur]) + Visit(transitions, Some(next), input[i + 1..])
  {
    VisitStep(transitions, cur, input, i, next);
  }

  /** When `traceFSM` stops, the recorded states are the whole trace. */
  lemma TraceDone(transitions: map<DraftKey, string>, start: Option<string>, input: string,
                  done: seq<Option<string>>, cur: Option<string>, i: nat)
    requires i <= |input| && (i < |input| ==> StepFrom(transitions, cur, [input[i]]).None?)
    requires Visit(transitions, start, input) == done + Visit(transitions, cur, input[i..])
    ensures Visit(transitions, start, input) == done + [cur]
  {
    VisitStops(transitions, cur, input, i);
  }

  class DraftFSM {
    var states: set<string>
    var symbols: set<string>
    var initialState: Option<string>
    var currentState: Option<string>
    var finalStates: set<string>
    var transitions: map<DraftKey, string>

    function Model(): DraftMachine
      reads this
    {
      DraftMachine(states, symbols, initialState, currentState, finalStates, transitions)
    }

    /** The field initialisers: empty sets and map, no initial or current
        state. */
    constructor ()
      ensures Model() == DraftMachine({}, {}, None, None, {}, map[])
    {
      states := {};
      symbols := {};
      initialState := None;
      currentState := None;
      finalStates := {};
      transitions := map[];
    }

    /** `resetFSM`: fails without an initial state, leaving the current
        state alone; otherwise the current state becomes the initial one. */
    method ResetFSM() returns (ok: bool)
      modifies this
      ensures ok <==> old(initialState).Some?
      ensures Model() == old(Model()).(currentState := TraceStart(old(Model())))
    {
      if initialState.None? {
        return false;
      }
      currentState := initialState;
      return true;
    }

    /** `stepFSM`: follows the entry for (current state, symbol) if there is
        one; otherwise fails and changes nothing. */
    method StepFSM(inputSymbol: string) returns (ok: bool)
      modifies this
      ensures ok <==> StepFrom(old(transitions), old(currentState), inputSymbol).Some?
      ensures ok ==> Model() == old(Model()).(currentState := StepFrom(old(transitions), old(currentState), inputSymbol))
      ensures !ok ==> Model() == old(Model())
    {
      if currentState.None? || (currentState.value, inputSymbol) !in transitions {
        return false;
      }
      currentState := Some(transitions[(currentState.value, inputSymbol)]);
      return true;
    }

    /** `traceFSM`: resets, records the current state, then steps on each
        character in turn and records the state reached, stopping at the
        first step that fails. The machine is left in the last recorded
        state. */
    method TraceFSM(inputLine: string) returns (visited: seq<Option<string>>)
      modifies this
      ensures visited == Visit(old(transitions), TraceStart(old(Model())), inputLine)
      ensures Model() == old(Model()).(currentState := visited[|visited| - 1])
    {
      var _ := ResetFSM();
      ghost var start := currentState;
      ghost var done: seq<Option<string>> := [];
      visited := [currentState];
      var i := 0;
      var ok := true;
      assert inputLine[0..] == inputLine;
      while ok && i < |inputLine|
        invariant 0 <= i <= |inputLine|
        invariant Model() == old(Model()).(currentState := currentState)
        invariant visited == done + [currentState]
        invariant Visit(transitions, start, inputLine) == done + Visit(transitions, currentState, inputLine[i..])
        invariant !ok ==> i < |inputLine| && StepFrom(transitions, currentState, [inputLine[i]]).None?
        decreases |inputLine| - i, ok
      {
        ghost var cur := currentState;
        ok := StepFSM([inputLine[i]]);
        if ok {
          TraceAdvance(transitions, start, inputLine, done, cur, i, currentState.value);
          done := done + [cur];
          visited := visited + [currentState];
          i := i + 1;
        }
      }
      TraceDone(transitions, start, inputLine, done, currentState, i);
    }

    /** `clear`: every set and the map emptied, no initial or current
        state. */
    method Clear()
      modifies this
      ensures Model() == DraftMachine({}, {}, None, None, {}, map[])
    {
      symbols := {};
      states := {};
      transitions := map[];
      finalStates := {};
      initialState := None;
      currentState := None;
    }

    /** `addTransition`: upper-cases its arguments; refuses, changing
        nothing, unless the symbol and both states are declared; otherwise
        stores or overwrites the key (from-state, symbol). */
    method AddTransition(symbol: string, fromState: string, toState: string) returns (ok: bool)
      modifies this
      ensures ok <==> Upper(symbol) in old(symbols) && Upper(fromState) in old(states) && Upper(toState) in old(states)
      ensures ok ==> Model() == old(Model()).(transitions := old(transitions)[(Upper(fromState), Upper(symbol)) := Upper(toState)])
      ensures !ok ==> Model() == old(Model())
      ensures KeysStored(old(Model())) ==> KeysStored(Model())
    {
      var sym := Upper(symbol);
      var from := Upper(fromState);
      var to := Upper(toState);
      if sym !in symbols || from !in states || to !in states {
        return false;
      }
      UpperIdempotent(symbol);
      transitions := transitions[(from, sym) := to];
      return true;
    }
  }

  // -----------------------------------------------------------------------
  // `FileManager.readCommandsFromFile`

  /** The first character of `s` that trim() keeps, if any. */
  function FirstKept(s: string): Option<char>
  {
    if s == [] then None
    else if IsTrimmable(s[0]) then FirstKept(s[1..])
    else Some(s[0])
  }

  /** A line the reader skips: blank, or a comment whose trimmed text starts
      with a semicolon -- both are a matter of the first character trim()
      keeps (`SkippedIsTrimTest`). */
  predicate IsSkipped(line: string)
  {
    FirstKept(line) == None || FirstKept(line) == Some(';')
  }

  /** The first kept character is the head of what trimming the start
      leaves. */
  lemma {:induction false} FirstKeptIsTrimHead(s: string)
    ensures FirstKept(s) == if TrimStart(s) == [] then None else Some(TrimStart(s)[0])
  {
    if s != [] && IsTrimmable(s[0]) {
      FirstKeptIsTrimHead(s[1..]);
    }
  }

  /** `IsSkipped` is the reader's own test: the trimmed line is empty or
      starts with a semicolon. */
  lemma SkippedIsTrimTest(line: string)
    ensures IsSkipped(line) <==> (Trim(line) == "" || StartsWith(Trim(line), ";"))
  {
    FirstKeptIsTrimHead(line);
    var a := TrimStart(line);
    var t := Trim(line);
    if a != [] {
      assert t != [] by {
        if t == [] { assert false; }
      }
      assert t[0] == a[0];
      assert StartsWith(t, ";") <==> t[0] == ';';
    }
  }

  /** A string with a character trim() keeps has a first kept character. */
  lemma {:induction false} FirstKeptExists(s: string, k: nat)
    requires k < |s| && !IsTrimmable(s[k])
    ensures FirstKept(s).Some?
  {
    if IsTrimmable(s[0]) {
      FirstKeptExists(s[1..], k - 1);
    }
  }

  /** A prefix that has a kept character has the same first one. */
  lemma {:induction false} FirstKeptOfPrefix(s: string, n: nat)
    requires n <= |s| && FirstKept(s[..n]).Some?
    ensures FirstKept(s) == FirstKept(s[..n])
  {
    if IsTrimmable(s[0]) {
      assert s[..n][1..] == s[1..][..n - 1];
      FirstKeptOfPrefix(s[1..], n - 1);
    }
  }

  /** One line read into the pending command `current`: a skipped line
      changes nothing; a line with a semicolon completes the command with
      the text before its first semicolon and the semicolon itself,
      trimmed; any other line joins the pending command followed by a
      space. */
  function ReadLine(current: string, line: string): (r: (string, Option<string>))
    ensures r.1.Some? ==> Terminated(r.1.value)
  {
    if IsSkipped(line) then (current, None)
    else
      var idx := IndexOf(line, ';');
      if idx >= 0 then
        TrimEndsWithSemicolon(current + line[..idx]);
        ("", Some(Trim(current + line[..idx] + ";")))
      else (current + line + " ", None)
  }

  /** The commands already read, in front of a result. */
  function Prepend(done: seq<string>, r: Result<seq<string>, Error>): Result<seq<string>, Error>
  {
    match r
    case Err(e) => Err(e)
    case Ok(cs) => Ok(done + cs)
  }

  /** The command a line completed, if any, as a list. */
  function Emitted(command: Option<string>): seq<string>
  {
    if command.Some? then [command.value] else []
  }

  /** The commands read from `lines` with `current` pending; text still
      pending at the end of the file is an error. */
  function CommandsOf(current: string, lines: seq<string>): (r: Result<seq<string>, Error>)
    ensures r.Err? ==> r.error.FileOperation?
    decreases |lines|
  {
    if lines == [] then
      if current == "" then Ok([])
      else Err(FileOperation("Command at the end of file missing semicolon: " + current))
    else
      var (current', command) := ReadLine(current, lines[0]);
      Prepend(Emitted(command), CommandsOf(current', lines[1..]))
  }

  /** A command that ends with its semicolon. */
  predicate Terminated(command: string)
  {
    command != [] && command[|command| - 1] == ';'
  }

  /** Every command read ends with its semicolon. */
  lemma {:induction false} CommandsEndWithSemicolon(current: string, lines: seq<string>)
    ensures var r := CommandsOf(current, lines);
      r.Ok? ==> forall k :: 0 <= k < |r.value| ==> Terminated(r.value[k])
    decreases |lines|
  {
    if lines != [] {
      var (current', command) := ReadLine(current, lines[0]);
      CommandsEndWithSemicolon(current', lines[1..]);
      match CommandsOf(current', lines[1..]) {
        case Err(_) =>
        case Ok(cs) =>
          var all := Emitted(command) + cs;
          forall k | 0 <= k < |all| ensures Terminated(all[k]) {
            if k >= |Emitted(command)| {
              assert all[k] == cs[k - |Emitted(command)|];
            }
          }
      }
    }
  }

  /** A line that completes the pending command: read, with a semicolon. */
  predicate Completes(line: string)
  {
    !IsSkipped(line) && IndexOf(line, ';') >= 0
  }

  /** A line that leaves text pending: read, without a semicolon. */
  predicate LeavesOpen(line: string)
  {
    !IsSkipped(line) && IndexOf(line, ';') < 0
  }

  /** No line of `lines` completes a command. */
  predicate NoneCompletes(lines: seq<string>)
  {
    forall j :: 0 <= j < |lines| ==> !Completes(lines[j])
  }

  /** Some line leaves text pending and no later line completes it. */
  predicate EndsOpen(lines: seq<string>)
  {
    exists j :: 0 <= j < |lines| && LeavesOpen(lines[j]) && NoneCompletes(lines[j + 1..])
  }

  /** The text still pending once every line is read. */
  function PendingText(current: string, lines: seq<string>): string
    decreases |lines|
  {
    if lines == [] then current else PendingText(ReadLine(current, lines[0]).0, lines[1..])
  }

  /** The reader refuses the file exactly when text is pending at its end,
      and the message carries that text; text is pending exactly when the
      initial text is never completed, or some line is left open and no
      later line completes it. */
  lemma {:induction false} CommandsOfFailsIffPending(current: string, lines: seq<string>)
    ensures CommandsOf(current, lines).Err? <==> PendingText(current, lines) != ""
    ensures CommandsOf(current, lines).Err? ==>
      CommandsOf(current, lines).error
        == FileOperation("Command at the end of file missing semicolon: " + PendingText(current, lines))
    ensures PendingText(current, lines) != "" <==> (current != "" && NoneCompletes(lines)) || EndsOpen(lines)
    decreases |lines|
  {
    if lines != [] {
      var line := lines[0];
      var rest := lines[1..];
      var current' := ReadLine(current, line).0;
      CommandsOfFailsIffPending(current', rest);
      NoneCompletesCons(lines);
      EndsOpenCons(lines);
      if !IsSkipped(line) && IndexOf(line, ';') < 0 {
        assert current' == current + line + " ";
        assert current' != "";
      }
    }
  }

  /** A file whose reading starts with nothing pending is refused exactly
      when some line is left open and no later line completes it. */
  lemma CommandsFromStartFail(lines: seq<string>)
    ensures CommandsOf("", lines).Err? <==> EndsOpen(lines)
    ensures CommandsOf("", lines).Err? ==>
      CommandsOf("", lines).error
        == FileOperation("Command at the end of file missing semicolon: " + PendingText("", lines))
  {
    CommandsOfFailsIffPending("", lines);
  }

  lemma NoneCompletesCons(lines: seq<string>)
    requires lines != []
    ensures NoneCompletes(lines) <==> !Completes(lines[0]) && NoneCompletes(lines[1..])
  {
    if !Completes(lines[0]) && NoneCompletes(lines[1..]) {
      forall j | 0 <= j < |lines| ensures !Completes(lines[j]) {
        if j > 0 { assert lines[j] == lines[1..][j - 1]; }
      }
    }
  }

  lemma EndsOpenCons(lines: seq<string>)
    requires lines != []
    ensures EndsOpen(lines) <==> (LeavesOpen(lines[0]) && NoneCompletes(lines[1..])) || EndsOpen(lines[1..])
  {
    var rest := lines[1..];
    if EndsOpen(lines) {
      var j :| 0 <= j < |lines| && LeavesOpen(lines[j]) && NoneCompletes(lines[j + 1..]);
      if j > 0 {
        assert rest[j - 1] == lines[j] && rest[j..] == lines[j + 1..];
      }
    }
    if EndsOpen(rest) {
      var j :| 0 <= j < |rest| && LeavesOpen(rest[j]) && NoneCompletes(rest[j + 1..]);
      assert lines[j + 1] == rest[j] && lines[j + 2..] == rest[j + 1..];
    }
  }

  /** trim() keeps a final semicolon. */
  lemma TrimEndsWithSemicolon(s: string)
    ensures var t := Trim(s + ";"); t != [] && t[|t| - 1] == ';'
  {
    var u := s + ";";
    var a := TrimStart(u);
    assert u[|u| - 1] == ';' && !IsTrimmable(';');
    assert a != [];
    assert a[|a| - 1] == ';';
  }

  /** A line up to and including its first semicolon. */
  function UpToSemicolon(line: string): string
    requires IndexOf(line, ';') >= 0
  {
    line[..IndexOf(line, ';') + 1]
  }

  /** A line is a comment exactly when its text up to the first
      semicolon is one. */
  lemma SkippedCut(line: string)
    requires IndexOf(line, ';') >= 0
    ensures IsSkipped(line) == IsSkipped(UpToSemicolon(line))
  {
    var idx := IndexOf(line, ';');
    var cut := UpToSemicolon(line);
    assert cut[idx] == ';' && !IsTrimmable(';');
    FirstKeptExists(cut, idx);
    FirstKeptOfPrefix(line, idx + 1);
  }

  /** What `ReadLine` gives for a line that is read and has a semicolon. */
  lemma ReadLineCompletes(current: string, line: string)
    requires !IsSkipped(line) && IndexOf(line, ';') >= 0
    ensures ReadLine(current, line) == ("", Some(Trim(current + line[..IndexOf(line, ';')] + ";")))
  {
  }

  /** A prefix that reaches the first occurrence of `c` finds it at the
      same place. */
  lemma {:induction false} IndexOfPrefix(s: string, c: char, n: nat)
    requires 0 <= IndexOf(s, c) < n <= |s|
    ensures IndexOf(s[..n], c) == IndexOf(s, c)
  {
    if s[0] != c {
      assert s[..n][1..] == s[1..][..n - 1];
      IndexOfPrefix(s[1..], c, n - 1);
    }
  }

  /** The text of a line up to its first semicolon completes the command
      made of the text before that semicolon. */
  lemma CutCompletes(current: string, line: string)
    requires IndexOf(line, ';') >= 0 && !IsSkipped(UpToSemicolon(line))
    ensures ReadLine(current, UpToSemicolon(line)) == ("", Some(Trim(current + line[..IndexOf(line, ';')] + ";")))
  {
    var idx := IndexOf(line, ';');
    var cut := UpToSemicolon(line);
    IndexOfPrefix(line, ';', idx + 1);
    assert cut[..idx] == line[..idx];
    ReadLineCompletes(current, cut);
  }

  /** A line that is read and its text up to the first semicolon complete
      the same command. */
  lemma ReadLineCutCompletes(current: string, line: string)
    requires !IsSkipped(line) && IndexOf(line, ';') >= 0
    requires !IsSkipped(UpToSemicolon(line))
    ensures ReadLine(current, line) == ReadLine(current, UpToSemicolon(line))
  {
    ReadLineCompletes(current, line);
    CutCompletes(current, line);
  }

  /** The text after the first semicolon of a line never matters. */
  lemma ReadLineCut(current: string, line: string)
    requires IndexOf(line, ';') >= 0
    ensures ReadLine(current, line) == ReadLine(current, UpToSemicolon(line))
  {
    SkippedCut(line);
    if !IsSkipped(line) {
      ReadLineCutCompletes(current, line);
    }
  }

  /** Replacing a line by one that every pending command reads the same
      way leaves the commands read unchanged. */
  lemma {:induction false} ReplaceLine(current: string, lines: seq<string>, i: nat, line: string)
    requires i < |lines|
    requires SameReading(line, lines[i])
    ensures CommandsOf(current, lines) == CommandsOf(current, lines[i := line])
    decreases i
  {
    var changed := lines[i := line];
    var (next, command) := ReadLine(current, lines[0]);
    assert ReadLine(current, changed[0]) == (next, command);
    if i == 0 {
      assert changed[1..] == lines[1..];
    } else {
      ReplaceLine(next, lines[1..], i - 1, line);
      assert changed[1..] == lines[1..][i - 1 := line];
    }
  }

  /** Two lines every pending command reads the same way. */
  ghost predicate SameReading(line: string, other: string)
  {
    forall c :: ReadLine(c, line) == ReadLine(c, other)
  }

  /** A line and its text up to the first semicolon read the same way. */
  lemma CutReadsSame(line: string)
    requires IndexOf(line, ';') >= 0
    ensures SameReading(UpToSemicolon(line), line)
  {
    forall c ensures ReadLine(c, UpToSemicolon(line)) == ReadLine(c, line) {
      ReadLineCut(c, line);
    }
  }

  /** Cutting line `i` after its first semicolon leaves the commands read
      unchanged. */
  lemma CutAfterSemicolon(current: string, lines: seq<string>, i: nat)
    requires i < |lines| && IndexOf(lines[i], ';') >= 0
    ensures CommandsOf(current, lines) == CommandsOf(current, lines[i := UpToSemicolon(lines[i])])
  {
    var cut := UpToSemicolon(lines[i]);
    CutReadsSame(lines[i]);
    ReplaceLine(current, lines, i, cut);
  }

  /** A blank or comment line anywhere in the file changes nothing. */
  lemma {:induction false} SkippedLineIgnored(current: string, lines: seq<string>, i: nat)
    requires i < |lines| && IsSkipped(lines[i])
    ensures CommandsOf(current, lines) == CommandsOf(current, lines[..i] + lines[i + 1..])
    decreases i
  {
    if i == 0 {
      assert lines[..0] + lines[1..] == lines[1..];
      assert ReadLine(current, lines[0]) == (current, None);
      match CommandsOf(current, lines[1..])
      case Err(_) =>
      case Ok(cs) => assert Emitted(None) + cs == cs;
    } else {
      var next := ReadLine(current, lines[0]).0;
      SkippedLineIgnored(next, lines[1..], i - 1);
      var shorter := lines[..i] + lines[i + 1..];
      assert shorter[0] == lines[0];
      assert shorter[1..] == lines[1..][..i - 1] + lines[1..][i..];
    }
  }

  /** Reading one more line moves its command, if any, to the commands
      already read. */
  lemma ReadOneLine(done: seq<string>, current: string, lines: seq<string>, i: nat)
    requires i < |lines|
    ensures var (current', command) := ReadLine(current, lines[i]);
      Prepend(done, CommandsOf(current, lines[i..]))
        == Prepend(done + Emitted(command), CommandsOf(current', lines[i + 1..]))
  {
    assert lines[i..][0] == lines[i] && lines[i..][1..] == lines[i + 1..];
    var (current', command) := ReadLine(current, lines[i]);
    match CommandsOf(current', lines[i + 1..])
    case Err(_) =>
    case Ok(cs) => assert done + (Emitted(command) + cs) == (done + Emitted(command)) + cs;
  }

  /** The character loop of `readCommandsFromFile` on one line that is not
      skipped: characters join the pending command up to the first
      semicolon, which completes it. */
  method ScanLine(current: string, line: string) returns (current': string, command: Option<string>)
    requires !IsSkipped(line)
    ensures (current', command) == ReadLine(current, line)
  {
    current' := current;
    command := None;
    var i := 0;
    while i < |line|
      invariant 0 <= i <= |line|
      invariant current' == current + line[..i]
      invariant forall j :: 0 <= j < i ==> line[j] != ';'
    {
      if line[i] == ';' {
        assert IndexOf(line, ';') == i;
        command := Some(Trim(current' + ";"));
        current' := "";
        return;
      }
      current' := current' + [line[i]];
      assert line[..i + 1] == line[..i] + [line[i]];
      i := i + 1;
    }
    assert IndexOf(line, ';') < 0;
    assert line[..i] == line;
    if |current'| > 0 && ';' !in line {
      current' := current' + " ";
    }
  }

  /** `readCommandsFromFile` on the lines of the file: skips blank and
      comment lines, collects the commands, and refuses a file that ends
      with an unterminated command. */
  method ReadCommandsFromFile(lines: seq<string>) returns (r: Result<seq<string>, Error>)
    ensures r == CommandsOf("", lines)
  {
    var commands: seq<string> := [];
    var current := "";
    var i := 0;
    assert lines[0..] == lines;
    match CommandsOf("", lines) {
      case Err(_) =>
      case Ok(cs) => assert [] + cs == cs;
    }
    while i < |lines|
      invariant 0 <= i <= |lines|
      invariant CommandsOf("", lines) == Prepend(commands, CommandsOf(current, lines[i..]))
    {
      var line := lines[i];
      ReadOneLine(commands, current, lines, i);
      var command := None;
      if !IsSkipped(line) {
        current, command := ScanLine(current, line);
      }
      commands := commands + Emitted(command);
      i := i + 1;
    }
    if current != "" {
      return Err(FileOperation("Command at the end of file missing semicolon: " + current));
    }
    assert commands + [] == commands;
    return Ok(commands);
  }
}
