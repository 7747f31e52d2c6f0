/**
 * The dispatcher of the program (`CommandProcessor`). `processCommand` routes
 * one tokenized command by its upper-cased first token to the handler, the
 * serializer, the log or a nested command file. While a log is open it logs
 * the command with its response, except LOG itself and the queries that
 * return from inside the switch. Every failure is rethrown as an
 * `InvalidCommandException` with the same message.
 * `handleLoadFromTextFile` and `processFileCommand` run a command file.
 *
 * Files are a map from names to contents: a script (its lines) or what
 * COMPILE wrote (a snapshot). The command files a LOAD may nest are bounded
 * by a depth; a load nested deeper ends as Java's stack would, with a
 * `StackOverflowError` that no `catch (Exception e)` stops.
 */
module Processor {
  import opened Base
  import opened Text
  import opened Engine
  import opened Handler
  import opened Logging
  import opened Snapshots
  import opened CommandText

  /** A file: a script of lines, or a compiled machine. */
  datatype DiskFile = Script(lines: seq<string>) | Compiled(snapshot: Snapshot)

  /** A non-null result of `processCommand`. The set and map queries return
      Java's `toString` of a hash-ordered collection; the model keeps the
      collection itself. */
  datatype Reply =
    | Message(text: string)
    | SymbolSet(symbols: set<string>)
    | FinalSet(finals: set<string>)
    | TransitionMap(transitions: map<Key, string>)

  /** How the `switch` of `processCommand` ends: a `return` from inside it
      (a query, never logged), a `break` with the result string (or null),
      or an exception. */
  datatype Outcome =
    | Returned(reply: Reply)
    | Finished(result: Option<string>)
    | Threw(error: Error)

  /** The log file open and the lines written to it. */
  datatype Journal = Journal(logFile: Option<string>, lines: seq<string>)

  function JournalOf(logger: Logger): Journal
    reads logger
  {
    Journal(logger.logFile, logger.lines)
  }

  /** `LinkedHashSet.toString()` of the states: declaration order, ", " between. */
  function Listing(names: seq<string>): string
  {
    "[" + Join(", ", names) + "]"
  }

  /** Everything `processCommand` handles on the engine alone: all names but
      COMPILE, LOAD and LOG, the unknown ones included. */
  predicate IsEngineCommand(cmd: string)
  {
    cmd != "COMPILE" && cmd != "LOAD" && cmd != "LOG"
  }

  /** The names the `switch` of `processCommand` has a case for; EXIT is not one. */
  predicate IsDispatched(cmd: string)
  {
    || cmd == "SYMBOLS" || cmd == "STATES" || cmd == "INITIAL-STATE" || cmd == "FINAL-STATES"
    || cmd == "TRANSITIONS" || cmd == "PRINT" || cmd == "COMPILE" || cmd == "LOAD"
    || cmd == "EXECUTE" || cmd == "CLEAR" || cmd == "LOG"
  }

  /** A handler call that returned normally (`break` with a null result) or threw. */
  function Ended(r: (Machine, Option<Error>)): (Machine, Outcome)
  {
    (r.0, if r.1.None? then Finished(None) else Threw(r.1.value))
  }

  /** The engine cases of `processCommand`. A query returns the collection;
      a command with arguments goes to the handler; INITIAL-STATE and
      EXECUTE need exactly one argument; TRANSITIONS joins its arguments
      with spaces and splits them at commas; PRINT only writes to the
      console or to a file; CLEAR empties the engine; any other name is
      refused. */
  function EngineStep(m: Machine, tokens: seq<string>): (r: (Machine, Outcome))
    requires |tokens| >= 1
    ensures m.Valid() ==> r.0.Valid()
    ensures r.1.Returned? ==> r.0 == m && |tokens| == 1
    ensures Upper(tokens[0]) == "PRINT" || Upper(tokens[0]) == "EXECUTE" ==> r.0 == m
    ensures !IsDispatched(Upper(tokens[0])) ==>
      r == (m, Threw(InvalidCommand("Invalid command: " + Upper(tokens[0]))))
  {
    var cmd := Upper(tokens[0]);
    var args := tokens[1..];
    if cmd == "SYMBOLS" then
      if args == [] then (m, Returned(SymbolSet(m.symbols))) else Ended(HandleSymbols(m, args))
    else if cmd == "STATES" then
      if args == [] then (m, Returned(Message(Listing(m.states)))) else Ended(HandleStates(m, args))
    else if cmd == "INITIAL-STATE" then
      if |args| != 1 then (m, Threw(InvalidCommand("INITIAL-STATE requires one state")))
      else Ended(HandleInitialState(m, args[0]))
    else if cmd == "FINAL-STATES" then
      if args == [] then (m, Returned(FinalSet(m.finalStates))) else Ended(HandleFinals(m, args))
    else if cmd == "TRANSITIONS" then
      if args == [] then (m, Returned(TransitionMap(m.transitions)))
      else Ended(HandleTransitions(m, SplitCommas(Join(" ", args))))
    else if cmd == "PRINT" then (m, Finished(None))
    else if cmd == "EXECUTE" then
      if |args| != 1 then (m, Threw(InvalidCommand("EXECUTE requires input string")))
      else
        match ExecuteReport(m, args[0])
        case Ok(report) => (m, Finished(Some(report)))
        case Err(e) => (m, Threw(e))
    else if cmd == "CLEAR" then (Empty(), Finished(Some("CLEARED")))
    else (m, Threw(InvalidCommand("Invalid command: " + cmd)))
  }

  /** COMPILE: one file name, checked by `serializeFSM`; an accepted name is
      written with the snapshot of the engine, replacing what was there. */
  function CompileStep(disk: map<string, DiskFile>, m: Machine, tokens: seq<string>): (r: (map<string, DiskFile>, Outcome))
    requires |tokens| >= 1
    ensures r.1.Threw? <==> |tokens| != 2
    ensures r.0 != disk ==> |tokens| == 2 && CheckFileName(tokens[1]).None?
    ensures forall name :: name in disk ==> name in r.0
    ensures forall name :: name in r.0 && (|tokens| != 2 || name != tokens[1]) ==> name in disk && r.0[name] == disk[name]
    ensures |tokens| == 2 && CheckFileName(tokens[1]).None? ==>
      tokens[1] in r.0 && r.0[tokens[1]] == Compiled(Capture(m)) && r.1 == Finished(Some("Compile successful"))
  {
    if |tokens| != 2 then (disk, Threw(InvalidCommand("COMPILE requires filename")))
    else
      var name := tokens[1];
      match CheckFileName(name)
      case Some(e) => (disk, Finished(Some("Error =" + e.msg)))
      case None => (disk[name := Compiled(Capture(m))], Finished(Some("Compile successful")))
  }

  /** LOG: alone it stops logging; with a file name it starts logging there
      (closing the open log first); with more it is refused. */
  function LogStep(j: Journal, readOnly: set<string>, tokens: seq<string>): (r: (Journal, Outcome))
    requires |tokens| >= 1
    ensures r.1.Threw? <==> |tokens| > 2
    ensures r.1.Threw? ==> r.0 == j
    ensures |tokens| <= 2 ==> (r.0.logFile.Some? <==> |tokens| == 2 && tokens[1] !in readOnly)
    ensures |tokens| <= 2 && r.0.logFile.Some? ==> r.0 == Journal(Some(tokens[1]), [])
    ensures r.0.logFile.None? ==> r.0.lines == j.lines
  {
    if |tokens| == 1 then
      (Journal(None, j.lines), Finished(Some(if j.logFile.Some? then "STOPPED LOGGING" else "LOGGING was not enabled")))
    else if |tokens| == 2 then
      if tokens[1] in readOnly then
        (Journal(None, j.lines), Finished(Some("Error: File exists but cannot be written: " + tokens[1])))
      else (Journal(Some(tokens[1]), []), Finished(Some("Started logging to " + tokens[1])))
    else (j, Threw(InvalidCommand("LOG command requires filename")))
  }

  /** LOAD takes the compiled route for a name ending in ".fs", in any case. */
  predicate IsCompiledName(name: string)
  {
    EndsWith(Lower(name), ".fs")
  }

  /** The outcomes `processCommand` logs: a `StackOverflowError` skips the
      `catch`, and a query returns before the logging. */
  predicate Logged(o: Outcome)
  {
    o.Finished? || (o.Threw? && !o.error.StackOverflow?)
  }

  /** The logged response: the result, "" for null, or the error message. */
  function Response(o: Outcome): string
    requires Logged(o)
  {
    match o
    case Finished(r) => if r.Some? then r.value else ""
    case Threw(e) => "Error: " + e.msg
  }

  /** The command as logged: the tokens joined by spaces, with a semicolon. */
  function CommandString(tokens: seq<string>): string
  {
    Join(" ", tokens) + ";"
  }

  /** The log after one command: the command and its response are added
      while a log is open, except for LOG and for outcomes that are not
      logged. */
  function Record(j: Journal, tokens: seq<string>, o: Outcome): (r: Journal)
    requires |tokens| >= 1
    ensures r.logFile == j.logFile && j.lines <= r.lines
    ensures r != j <==> j.logFile.Some? && Upper(tokens[0]) != "LOG" && Logged(o)
    ensures r != j ==> r.lines[|j.lines|..] == ["> " + CommandString(tokens), Response(o)]
  {
    if j.logFile.Some? && Upper(tokens[0]) != "LOG" && Logged(o) then
      Journal(j.logFile, j.lines + ["> " + CommandString(tokens), Response(o)])
    else j
  }

  /** What `processCommand` returns or throws: every exception is rethrown
      as `InvalidCommandException` with its message; a stack overflow
      passes unchanged. */
  function Reported(o: Outcome): (r: Result<Option<Reply>, Error>)
    ensures r.Err? <==> o.Threw?
    ensures r.Err? ==> r.error.msg == o.error.msg
    ensures r.Err? ==> (r.error.InvalidCommand? || r.error.StackOverflow?)
  {
    match o
    case Returned(reply) => Ok(Some(reply))
    case Finished(result) => Ok(if result.Some? then Some(Message(result.value)) else None)
    case Threw(e) => if e.StackOverflow? then Err(e) else Err(InvalidCommand(e.msg))
  }

  /** `made` is a prefix of `calls` with one result each; only the last
      can have failed, and the calls stop short only after a failure. */
  predicate StopsAtFailure<C(==), R>(calls: seq<C>, made: seq<C>, results: seq<Result<R, Error>>)
  {
    && |results| == |made| && made <= calls
    && (forall j :: 0 <= j < |results| - 1 ==> results[j].Ok?)
    && (made == calls || (made != [] && results[|results| - 1].Err?))
  }

  /** The last result is a stack overflow. */
  predicate EndsInOverflow<R>(results: seq<Result<R, Error>>)
  {
    results != [] && results[|results| - 1].Err? && results[|results| - 1].error.StackOverflow?
  }

  /** The last result is the failure `e`. */
  predicate EndsIn<R>(results: seq<Result<R, Error>>, e: Error)
  {
    results != [] && results[|results| - 1] == Err(e)
  }

  /** The commands of a statement that have run: for each, the calls made
      (`made`) stop at its first failure (`got`); none but the last ended
      in a stack overflow, and `abort` is that overflow if there was one. */
  predicate CommandsRan<C(==), R>(expected: seq<seq<C>>, made: seq<seq<C>>,
                                  got: seq<seq<Result<R, Error>>>, abort: Option<Error>)
  {
    && |got| == |made| <= |expected|
    && (forall k :: 0 <= k < |made| ==> StopsAtFailure(expected[k], made[k], got[k]))
    && (forall k :: 0 <= k < |made| - 1 ==> !EndsInOverflow(got[k]))
    && (abort.None? ==> forall k :: 0 <= k < |made| ==> !EndsInOverflow(got[k]))
    && (abort.Some? ==> abort.value.StackOverflow? && made != [] && EndsIn(got[|made| - 1], abort.value))
  }

  /** One more command's calls and results, appended to those of the
      commands before it, which all ran without a stack overflow. */
  lemma RunsExtended<C, R>(expected: seq<seq<C>>, made: seq<seq<C>>, got: seq<seq<Result<R, Error>>>,
                               calls: seq<C>, results: seq<Result<R, Error>>)
    requires |made| < |expected| && CommandsRan(expected, made, got, None)
    requires StopsAtFailure(expected[|made|], calls, results)
    ensures CommandsRan(expected, made + [calls], got + [results],
                        if EndsInOverflow(results) then Some(results[|results| - 1].error) else None)
  {
    var made', got' := made + [calls], got + [results];
    forall j | 0 <= j < |made'| ensures StopsAtFailure(expected[j], made'[j], got'[j]) {
      if j < |made| {
        assert made'[j] == made[j] && got'[j] == got[j];
      }
    }
    forall j | 0 <= j < |made| ensures !EndsInOverflow(got'[j]) {
      assert got'[j] == got[j];
    }
  }

  /** The calls `FileCommandCalls` lists for each command, in order. */
  function CallsOf(commands: seq<string>): (calls: seq<seq<seq<string>>>)
    ensures |calls| == |commands|
    ensures forall k :: 0 <= k < |commands| ==> calls[k] == FileCommandCalls(commands[k])
  {
    seq(|commands|, k requires 0 <= k < |commands| => FileCommandCalls(commands[k]))
  }

  /** The statement a command file has open: the text gathered so far. */
  function Pending(inMultiline: bool, buffer: string): Option<string>
  {
    if inMultiline then Some(buffer) else None
  }

  /** The lines LOAD reads from a file as text. A compiled file is not
      read as text in this model. */
  function ScriptLines(f: DiskFile): seq<string>
  {
    if f.Script? then f.lines else []
  }

  /** What a rebuilt engine holds after `deserializeFSM`. Names and symbols
      are re-added upper-cased; a well-formed snapshot comes back exactly. */
  predicate Restores(s: Snapshot, m: Machine)
  {
    && m.symbols == UpperSymbols(s.symbols)
    && m.finalStates == UpperSet(s.finalStates)
    && m.Valid() && m.Synced()
    && (s.initialState.Some? ==> m.initialState == Some(Upper(s.initialState.value)))
    && (s.WellFormed() ==> s.Rebuilds(m))
  }

  /** The transition entry of a snapshot that `toFSM` refuses. */
  predicate HasBadEntry(s: Snapshot)
  {
    exists k :: k in s.transitions && s.EntryProblem(k).Some?
  }

  /** `deserializeFSM`: the file-name check, then the file must exist, hold
      a snapshot (a script is not a serialized object) and pass `toFSM`'s
      checks. `problem` is the exception it throws, or None when it returns
      the engine rebuilt as `m`. */
  predicate Deserializes(disk: map<string, DiskFile>, name: string, problem: Option<Error>, m: Machine)
  {
    match CheckFileName(name)
    case Some(e) => problem == Some(e)
    case None =>
      if name !in disk then problem == Some(InvalidFilePath("File does not exist: " + name))
      else match disk[name]
        case Script(_) =>
          problem.Some? && problem.value.FileOperation? &&
          StartsWith(problem.value.msg, "Error reading FSM from file '" + name + "': ")
        case Compiled(s) => Rebuilt(s, problem, m)
  }

  /** `toFSM` on a snapshot read from a compiled file: an invalid entry is
      refused, otherwise the engine is rebuilt as `m`. */
  predicate Rebuilt(s: Snapshot, problem: Option<Error>, m: Machine)
  {
    if HasBadEntry(s) then
      exists k :: k in s.transitions && s.EntryProblem(k).Some? &&
        problem == Some(InvalidFileFormat("File contains invalid FSM data: " + s.EntryProblem(k).value.msg))
    else problem.None? && Restores(s, m)
  }

  /** LOAD of a compiled file in `processCommand`: the rebuilt engine
      replaces the current one, or the result is "Error: " and the message
      of what `deserializeFSM` threw. */
  function LoadResult(problem: Option<Error>): Outcome
  {
    if problem.None? then Finished(None) else Finished(Some("Error: " + problem.value.msg))
  }

  /** The outcome of LOAD of a compiled file, with `m` the engine afterwards. */
  ghost predicate CompiledOutcome(disk: map<string, DiskFile>, name: string, o: Outcome, m: Machine)
  {
    exists problem :: Deserializes(disk, name, problem, m) && o == LoadResult(problem)
  }

  // -----------------------------------------------------------------------
  // Properties of a single command

  /** STATES fails only with `InvalidStateException`. */
  lemma {:induction false} StatesErrorKind(m: Machine, tokens: seq<string>)
    ensures var e := HandleStates(m, tokens).1; e.Some? ==> e.value.InvalidState?
    decreases |tokens|
  {
    if tokens != [] && IsStateName(tokens[0]) {
      StatesErrorKind(m.AddState(Upper(tokens[0])).0, tokens[1..]);
    }
  }

  /** FINAL-STATES fails only with `InvalidStateException`. */
  lemma {:induction false} FinalsErrorKind(m: Machine, tokens: seq<string>)
    ensures var e := HandleFinals(m, tokens).1; e.Some? ==> e.value.InvalidState?
    decreases |tokens|
  {
    if tokens != [] {
      FinalsErrorKind(m.AddFinalState(tokens[0]).0, tokens[1..]);
    }
  }

  /** TRANSITIONS fails only with `TransitionException`. */
  lemma {:induction false} TransitionsErrorKind(m: Machine, texts: seq<string>)
    ensures var e := HandleTransitions(m, texts).1; e.Some? ==> e.value.TransitionError?
    decreases |texts|
  {
    if texts != [] {
      match TransitionParts(texts[0])
      case None =>
      case Some((sym, from, to)) =>
        TransitionsErrorKind(m.AddTransition(sym, from, to).0, texts[1..]);
    }
  }

  /** An engine command is refused as a command (`InvalidCommandException`
      before it acts) exactly when its name has no case or INITIAL-STATE or
      EXECUTE does not have exactly one argument; a refused command leaves
      the engine unchanged. */
  lemma EngineArityRule(m: Machine, tokens: seq<string>)
    requires |tokens| >= 1 && IsEngineCommand(Upper(tokens[0]))
    ensures var cmd := Upper(tokens[0]);
      var (m', o) := EngineStep(m, tokens);
      && (o.Threw? && o.error.InvalidCommand? <==>
            !IsDispatched(cmd) || ((cmd == "INITIAL-STATE" || cmd == "EXECUTE") && |tokens| != 2))
      && (o.Threw? && o.error.InvalidCommand? ==> m' == m)
  {
    var cmd := Upper(tokens[0]);
    var args := tokens[1..];
    if cmd == "SYMBOLS" {
      assert cmd != "INITIAL-STATE" && cmd != "EXECUTE";
    } else if cmd == "STATES" {
      assert cmd != "INITIAL-STATE" && cmd != "EXECUTE";
      if args != [] { StatesErrorKind(m, args); }
    } else if cmd == "INITIAL-STATE" {
      assert cmd != "EXECUTE";
    } else if cmd == "FINAL-STATES" {
      assert cmd != "EXECUTE";
      if args != [] { FinalsErrorKind(m, args); }
    } else if cmd == "TRANSITIONS" {
      assert cmd != "EXECUTE";
      if args != [] { TransitionsErrorKind(m, SplitCommas(Join(" ", args))); }
    } else if cmd == "PRINT" {
      assert cmd != "EXECUTE";
    } else if cmd == "EXECUTE" {
      if |args| == 1 {
        var r := ExecuteReport(m, args[0]);
        assert r.Err? ==> r.error.InvalidInput?;
      }
    } else if cmd != "CLEAR" {
      assert !IsDispatched(cmd);
    }
  }

  /** Only the four queries return from inside the switch; they change
      nothing and are never logged. */
  lemma QueriesChangeNothing(m: Machine, j: Journal, tokens: seq<string>)
    requires |tokens| >= 1 && IsEngineCommand(Upper(tokens[0]))
    ensures var (m', o) := EngineStep(m, tokens);
      o.Returned? ==>
        && m' == m && Record(j, tokens, o) == j && |tokens| == 1
        && Upper(tokens[0]) in {"SYMBOLS", "STATES", "FINAL-STATES", "TRANSITIONS"}
  {
    var cmd := Upper(tokens[0]);
    if cmd == "SYMBOLS" {
    } else if cmd == "STATES" {
    } else if cmd == "FINAL-STATES" {
    } else if cmd == "TRANSITIONS" {
    } else {
      assert !EngineStep(m, tokens).1.Returned?;
    }
  }

  /** A command file's TRANSITIONS command reaches the engine twice: once
      tokenized as the command and the rest of the line, once as plain
      tokens. Both calls hand the same transition texts to the handler, so
      when the first leaves the engine consistent the second repeats its
      result and changes nothing further. */
  lemma FileTransitionsTwice(m: Machine, command: string)
    requires NoControlChars(command)
    requires |FileCommandCalls(command)| == 2
    ensures var calls := FileCommandCalls(command);
      var (m1, o1) := EngineStep(m, calls[0]);
      var (m2, o2) := EngineStep(m1, calls[1]);
      && Upper(calls[0][0]) == "TRANSITIONS"
      && m2 == m1 && o2 == o1
      && Join(" ", calls[0][1..]) == Join(" ", calls[1][1..])
  {
    var calls := FileCommandCalls(command);
    var body := CommandBody(command);
    var ts := Tokens(body);
    assert calls == [TokenizeTransitionFile(body), ts];
    CommandBodyNoControl(command);
    TokensEmptyIffBlank(body);
    TransitionTokensJoinRest(body);
    TransitionsCallsAgree(command);
    assert calls[0][0] == ts[0];
    assert |calls[0]| > 1 <==> |calls[1]| > 1;
    var m1 := EngineStep(m, calls[0]).0;
    TransitionsStep(m, calls[0]);
    TransitionsStep(m1, calls[1]);
    if |calls[0]| > 1 {
      TransitionsTwiceIsOnce(m, SplitCommas(Join(" ", calls[0][1..])));
    }
  }

  /** TRANSITIONS alone is the query; with arguments it is the handler. */
  lemma TransitionsStep(m: Machine, tokens: seq<string>)
    requires |tokens| >= 1 && Upper(tokens[0]) == "TRANSITIONS"
    ensures EngineStep(m, tokens) ==
      if |tokens| == 1 then (m, Returned(TransitionMap(m.transitions)))
      else Ended(HandleTransitions(m, SplitCommas(Join(" ", tokens[1..]))))
  {
    var cmd := Upper(tokens[0]);
    assert cmd != "SYMBOLS" && cmd != "STATES" && cmd != "INITIAL-STATE" && cmd != "FINAL-STATES";
  }

  /** After COMPILE of a consistent engine whose states are alphanumeric
      and that has a current state whenever it has states, the file holds a
      well-formed snapshot, so reading it back cannot fail; the rebuilt
      engine has the same symbols, states, final states and transitions,
      and starts in the state that was current. */
  lemma CompileThenLoad(disk: map<string, DiskFile>, m: Machine, name: string, problem: Option<Error>, rebuilt: Machine)
    requires m.Valid() && (forall i :: 0 <= i < |m.states| ==> IsStateName(m.states[i]))
    requires m.currentState.Some? || m.states == []
    requires CompileStep(disk, m, ["COMPILE", name]).1 == Finished(Some("Compile successful"))
    ensures var disk' := CompileStep(disk, m, ["COMPILE", name]).0;
      Deserializes(disk', name, problem, rebuilt) ==>
        && problem.None?
        && rebuilt.symbols == m.symbols
        && (forall x :: x in rebuilt.states <==> x in m.states)
        && rebuilt.finalStates == m.finalStates
        && rebuilt.transitions == m.transitions
        && rebuilt.initialState == m.currentState && rebuilt.currentState == m.currentState
  {
    var s := Capture(m);
    SnapshotRoundTrip(m, rebuilt);
    assert CheckFileName(name).None?;
    forall k | k in s.transitions ensures s.EntryProblem(k).None? {
    }
  }

  // -----------------------------------------------------------------------
  // The dispatcher

  /** The engine cases of the switch in `processCommand`, on the engine
      `fsm` and the handler that works on it. */
  method RunEngineCommand(fsm: FSM, handler: FSMCommandHandler, tokens: seq<string>) returns (o: Outcome)
    requires handler.fsm == fsm && |tokens| >= 1 && IsEngineCommand(Upper(tokens[0]))
    modifies fsm
    ensures (fsm.Model(), o) == EngineStep(old(fsm.Model()), tokens)
  {
    var cmd := Upper(tokens[0]);
    var args := tokens[1..];
    var err: Option<Error> := None;
    if cmd == "SYMBOLS" {
      if args == [] {
        return Returned(SymbolSet(fsm.symbols));
      }
      err := handler.HandleSymbolsCommand(args);
    } else if cmd == "STATES" {
      if args == [] {
        return Returned(Message(Listing(fsm.states)));
      }
      err := handler.HandleStatesCommand(args);
    } else if cmd == "INITIAL-STATE" {
      if |args| != 1 {
        return Threw(InvalidCommand("INITIAL-STATE requires one state"));
      }
      err := handler.HandleInitialStateCommand(args[0]);
    } else if cmd == "FINAL-STATES" {
      if args == [] {
        return Returned(FinalSet(fsm.finalStates));
      }
      err := handler.HandleFinalStatesCommand(args);
    } else if cmd == "TRANSITIONS" {
      if args == [] {
        return Returned(TransitionMap(fsm.transitions));
      }
      err := handler.HandleTransitionsCommand(SplitCommas(Join(" ", args)));
    } else if cmd == "PRINT" {
      // the listing goes to the console or to a file; neither is modelled
    } else if cmd == "EXECUTE" {
      if |args| != 1 {
        return Threw(InvalidCommand("EXECUTE requires input string"));
      }
      var report := handler.ExecuteFSM(args[0]);
      if report.Err? {
        return Threw(report.error);
      }
      return Finished(Some(report.value));
    } else if cmd == "CLEAR" {
      fsm.Clear();
      return Finished(Some("CLEARED"));
    } else {
      return Threw(InvalidCommand("Invalid command: " + cmd));
    }
    o := if err.None? then Finished(None) else Threw(err.value);
  }

  class CommandProcessor {
    var fsm: FSM
    var handler: FSMCommandHandler
    /** The static `Logger`, shared with the interpreter. */
    const logger: Logger
    /** The files COMPILE writes and LOAD reads. */
    var disk: map<string, DiskFile>

    /** The handler works on the processor's engine. */
    predicate Valid()
      reads this, handler
    {
      handler.fsm == fsm
    }

    constructor (logger: Logger, disk: map<string, DiskFile>)
      ensures Valid() && fresh(fsm) && fsm.Model() == Empty()
      ensures this.logger == logger && this.disk == disk
    {
      var engine := new FSM();
      fsm := engine;
      handler := new FSMCommandHandler(engine);
      this.logger := logger;
      this.disk := disk;
    }

    /** COMPILE: `serializeFSM` of the engine. */
    method Compile(tokens: seq<string>) returns (o: Outcome)
      requires |tokens| >= 1
      modifies this
      ensures (disk, o) == CompileStep(old(disk), fsm.Model(), tokens)
      ensures fsm == old(fsm) && handler == old(handler)
    {
      if |tokens| != 2 {
        return Threw(InvalidCommand("COMPILE requires filename"));
      }
      var name := tokens[1];
      var problem := CheckFileName(name);
      if problem.Some? {
        return Finished(Some("Error =" + problem.value.msg));
      }
      disk := disk[name := Compiled(Capture(fsm.Model()))];
      return Finished(Some("Compile successful"));
    }

    /** LOG: stop or start logging. */
    method LogCommand(tokens: seq<string>) returns (o: Outcome)
      requires |tokens| >= 1
      modifies logger
      ensures (JournalOf(logger), o) == LogStep(old(JournalOf(logger)), logger.readOnly, tokens)
      ensures logger.readOnly == old(logger.readOnly)
    {
      if |tokens| == 1 {
        var msg := logger.StopLogging();
        return Finished(Some(msg));
      } else if |tokens| == 2 {
        var msg := logger.StartLogging(tokens[1]);
        return Finished(Some(msg));
      }
      return Threw(InvalidCommand("LOG command requires filename"));
    }

    /** LOAD of a compiled file: `deserializeFSM`, then the engine and its
        handler are replaced. `problem` is what `deserializeFSM` threw. */
    method LoadCompiled(name: string) returns (o: Outcome, problem: Option<Error>)
      requires Valid()
      modifies this
      ensures Valid() && disk == old(disk)
      ensures Deserializes(disk, name, problem, fsm.Model()) && o == LoadResult(problem)
      ensures problem.None? ==> fresh(fsm)
      ensures problem.Some? ==> fsm == old(fsm)
    {
      problem := CheckFileName(name);
      if problem.None? && name !in disk {
        problem := Some(InvalidFilePath("File does not exist: " + name));
      } else if problem.None? && disk[name].Script? {
        StartsWithAppended("Error reading FSM from file '" + name + "': ", "invalid stream header");
        problem := Some(FileOperation("Error reading FSM from file '" + name + "': " + "invalid stream header"));
      } else if problem.None? {
        problem := LoadSnapshot(disk[name].snapshot);
      }
      o := if problem.None? then Finished(None) else Finished(Some("Error: " + problem.value.msg));
    }

    /** The engine rebuilt from a snapshot replaces the current one, unless
        the snapshot holds an invalid entry. */
    method LoadSnapshot(s: Snapshot) returns (problem: Option<Error>)
      requires Valid()
      modifies this
      ensures Valid() && disk == old(disk)
      ensures Rebuilt(s, problem, fsm.Model())
      ensures problem.None? ==> fresh(fsm)
      ensures problem.Some? ==> fsm == old(fsm)
    {
      var built := s.ToFSM();
      if built.Err? {
        var k :| k in s.transitions && s.EntryProblem(k) == Some(built.error);
        return Some(InvalidFileFormat("File contains invalid FSM data: " + built.error.msg));
      }
      fsm := built.value;
      handler := new FSMCommandHandler(fsm);
      problem := None;
    }

    /** One line of a command file read as text: a blank line adds nothing;
        a line without a semicolon opens or continues a statement; a line
        with one completes the open statement, or is a statement itself. */
    method NextFileStatement(lines: seq<string>, i: nat, inMultiline: bool, buffer: string)
      returns (statement: string, inMultiline': bool, buffer': string)
      requires i < |lines| && (!inMultiline ==> buffer == "")
      ensures !inMultiline' ==> buffer' == ""
      ensures statement != "" ==>
        FileStatementsFrom(lines[i..], Pending(inMultiline, buffer))
          == [statement] + FileStatementsFrom(lines[i + 1..], Pending(inMultiline', buffer'))
      ensures statement == "" ==>
        FileStatementsFrom(lines[i..], Pending(inMultiline, buffer))
          == FileStatementsFrom(lines[i + 1..], Pending(inMultiline', buffer'))
    {
      FileStatementsFromAt(lines, i, Pending(inMultiline, buffer));
      statement, inMultiline', buffer' := "", inMultiline, buffer;
      var line := Trim(lines[i]);
      if line != "" {
        if inMultiline {
          buffer' := buffer + " " + line;
          if ';' in line {
            inMultiline' := false;
            statement := buffer';
            buffer' := "";
          }
        } else if ';' !in line {
          inMultiline' := true;
          buffer' := buffer + line;
          assert buffer' == line;
        } else {
          statement := line;
        }
      }
    }

    /** `handleLoadFromTextFile`: the file's statements, gathered as
        `FileStatements` describes, each run by `processFileCommand`. A file
        that is missing is an `InvalidCommandException`; a load nested
        `depth` deep overflows the stack. `ran` is the statements run. */
    method LoadTextFile(name: string, depth: nat) returns (o: Outcome, ghost ran: seq<string>)
      requires Valid()
      modifies this, fsm, logger
      ensures Valid() && (fsm == old(fsm) || fresh(fsm)) && logger.readOnly == old(logger.readOnly)
      ensures name !in old(disk) ==>
        && o == Threw(InvalidCommand("Error loading file: " + name + " (No such file or directory)"))
        && fsm == old(fsm) && fsm.Model() == old(fsm.Model()) && disk == old(disk)
        && JournalOf(logger) == old(JournalOf(logger))
      ensures name in old(disk) ==>
        var all := FileStatements(ScriptLines(old(disk)[name]));
        || (o == Finished(None) && ran == all)
        || (o.Threw? && o.error.StackOverflow? && ran <= all && (ran == [] <==> depth == 0))
      decreases depth, 0
    {
      if name !in disk {
        return Threw(InvalidCommand("Error loading file: " + name + " (No such file or directory)")), [];
      }
      if depth == 0 {
        return Threw(StackOverflow("")), [];
      }
      var abort;
      abort, ran := RunFileLines(ScriptLines(disk[name]), depth - 1);
      o := if abort.Some? then Threw(abort.value) else Finished(None);
    }

    /** The lines of a command file, statement by statement, until one
        overflows the stack. */
    method RunFileLines(lines: seq<string>, depth: nat) returns (abort: Option<Error>, ghost ran: seq<string>)
      requires Valid()
      modifies this, fsm, logger
      ensures Valid() && (fsm == old(fsm) || fresh(fsm)) && logger.readOnly == old(logger.readOnly)
      ensures abort.None? ==> ran == FileStatements(lines)
      ensures abort.Some? ==> abort.value.StackOverflow? && ran != [] && ran <= FileStatements(lines)
      decreases depth, 8
    {
      ran, abort := [], None;
      ghost var all := FileStatements(lines);
      var i := 0;
      var inMultiline := false;
      var buffer := "";
      while i < |lines|
        invariant 0 <= i <= |lines|
        invariant Valid() && (fsm == old(fsm) || fresh(fsm)) && logger.readOnly == old(logger.readOnly)
        invariant abort.None? && (!inMultiline ==> buffer == "")
        invariant ran + FileStatementsFrom(lines[i..], Pending(inMultiline, buffer)) == all
        decreases |lines| - i
      {
        ghost var rest := FileStatementsFrom(lines[i..], Pending(inMultiline, buffer));
        var statement;
        statement, inMultiline, buffer := NextFileStatement(lines, i, inMultiline, buffer);
        if statement != "" {
          abort := RunStatement(statement, depth);
          assert ran + rest == ran + [statement] + FileStatementsFrom(lines[i + 1..], Pending(inMultiline, buffer));
          ran := ran + [statement];
          if abort.Some? {
            assert all == ran + FileStatementsFrom(lines[i + 1..], Pending(inMultiline, buffer));
            return;
          }
        }
        i := i + 1;
      }
      assert lines[i..] == [];
      if inMultiline && buffer != "" {
        abort := RunStatement(buffer + ";", depth);
        ran := ran + [buffer + ";"];
      }
    }

    /** LOAD: one file name; a ".fs" name is deserialized, any other is
        run as a command file. */
    method Load(tokens: seq<string>, depth: nat) returns (o: Outcome)
      requires Valid() && |tokens| >= 1
      modifies this, fsm, logger
      ensures Valid() && (fsm == old(fsm) || fresh(fsm)) && logger.readOnly == old(logger.readOnly)
      ensures o.Threw? ==> o.error.InvalidCommand? || o.error.StackOverflow?
      ensures |tokens| != 2 || IsCompiledName(tokens[1]) || tokens[1] !in old(disk) ==>
        && disk == old(disk) && JournalOf(logger) == old(JournalOf(logger))
        && (o != Finished(None) ==> fsm == old(fsm) && fsm.Model() == old(fsm.Model()))
      ensures |tokens| != 2 ==> o == Threw(InvalidCommand("LOAD requires filename"))
      ensures |tokens| == 2 && IsCompiledName(tokens[1]) ==>
        CompiledOutcome(old(disk), tokens[1], o, fsm.Model())
      ensures |tokens| == 2 && !IsCompiledName(tokens[1]) && tokens[1] !in old(disk) ==>
        o == Threw(InvalidCommand("Error loading file: " + tokens[1] + " (No such file or directory)"))
      ensures |tokens| == 2 && !IsCompiledName(tokens[1]) && tokens[1] in old(disk) ==>
        o == Finished(None) || (o.Threw? && o.error.StackOverflow?)
      decreases depth, 1
    {
      if |tokens| != 2 {
        return Threw(InvalidCommand("LOAD requires filename"));
      }
      var name := tokens[1];
      if IsCompiledName(name) {
        var problem;
        o, problem := LoadCompiled(name);
      } else {
        ghost var ran;
        o, ran := LoadTextFile(name, depth);
      }
    }

    /** The log entry `processCommand` writes for a command that ran: the
        command and its response, unless the command is LOG or the logger
        is off. */
    method RecordOutcome(tokens: seq<string>, o: Outcome)
      requires |tokens| >= 1
      modifies logger
      ensures JournalOf(logger) == Record(old(JournalOf(logger)), tokens, o)
      ensures logger.readOnly == old(logger.readOnly)
    {
      if logger.IsLoggingEnabled() && Upper(tokens[0]) != "LOG" && Logged(o) {
        logger.Log(CommandString(tokens), Response(o));
      }
    }

    /** `processCommand`. */
    method ProcessCommand(tokens: seq<string>, depth: nat) returns (r: Result<Option<Reply>, Error>, o: Outcome)
      requires Valid()
      modifies this, fsm, logger
      ensures Valid() && (fsm == old(fsm) || fresh(fsm)) && logger.readOnly == old(logger.readOnly)
      ensures tokens == [] ==>
        && r == Err(InvalidCommand("No command provided"))
        && fsm == old(fsm) && fsm.Model() == old(fsm.Model()) && disk == old(disk)
        && JournalOf(logger) == old(JournalOf(logger))
      ensures tokens != [] ==> r == Reported(o)
      ensures tokens != [] && IsEngineCommand(Upper(tokens[0])) ==>
        && (fsm.Model(), o) == EngineStep(old(fsm.Model()), tokens)
        && fsm == old(fsm) && disk == old(disk)
        && JournalOf(logger) == Record(old(JournalOf(logger)), tokens, o)
      ensures tokens != [] && Upper(tokens[0]) == "COMPILE" ==>
        && (disk, o) == CompileStep(old(disk), old(fsm.Model()), tokens)
        && fsm == old(fsm) && fsm.Model() == old(fsm.Model())
        && JournalOf(logger) == Record(old(JournalOf(logger)), tokens, o)
      ensures tokens != [] && Upper(tokens[0]) == "LOG" ==>
        && (JournalOf(logger), o) == LogStep(old(JournalOf(logger)), logger.readOnly, tokens)
        && fsm == old(fsm) && fsm.Model() == old(fsm.Model()) && disk == old(disk)
      ensures tokens != [] && Upper(tokens[0]) == "LOAD" ==>
        var simple := |tokens| != 2 || IsCompiledName(tokens[1]) || tokens[1] !in old(disk);
        && (simple ==> disk == old(disk) && JournalOf(logger) == Record(old(JournalOf(logger)), tokens, o))
        && (simple && o != Finished(None) ==> fsm == old(fsm) && fsm.Model() == old(fsm.Model()))
        && (|tokens| != 2 ==> o == Threw(InvalidCommand("LOAD requires filename")))
        && (|tokens| == 2 && IsCompiledName(tokens[1]) ==> CompiledOutcome(old(disk), tokens[1], o, fsm.Model()))
        && (|tokens| == 2 && !IsCompiledName(tokens[1]) && tokens[1] !in old(disk) ==>
              o == Threw(InvalidCommand("Error loading file: " + tokens[1] + " (No such file or directory)")))
        && (|tokens| == 2 && !IsCompiledName(tokens[1]) && tokens[1] in old(disk) ==>
              o == Finished(None) || (o.Threw? && o.error.StackOverflow?))
      decreases depth, 2
    {
      if tokens == [] {
        return Err(InvalidCommand("No command provided")), Threw(InvalidCommand("No command provided"));
      }
      var cmd := Upper(tokens[0]);
      if cmd == "COMPILE" {
        o := Compile(tokens);
      } else if cmd == "LOAD" {
        o := Load(tokens, depth);
      } else if cmd == "LOG" {
        o := LogCommand(tokens);
      } else {
        o := RunEngineCommand(fsm, handler, tokens);
      }
      RecordOutcome(tokens, o);
      r := Reported(o);
    }

    /** A call of `processCommand` from a command file, of which only the
        result matters there. */
    method FileCall(tokens: seq<string>, depth: nat) returns (r: Result<Option<Reply>, Error>)
      requires Valid()
      modifies this, fsm, logger
      ensures Valid() && (fsm == old(fsm) || fresh(fsm)) && logger.readOnly == old(logger.readOnly)
      decreases depth, 3
    {
      var o;
      r, o := ProcessCommand(tokens, depth);
    }

    /** One split command of a command file: the calls `FileCommandCalls`
        lists, in order, until one fails (the `catch` ends the command).
        `made` is the calls made and `results` what they returned. */
    method RunFileCommand(command: string, depth: nat) returns (made: seq<seq<string>>, results: seq<Result<Option<Reply>, Error>>)
      requires Valid()
      modifies this, fsm, logger
      ensures Valid() && (fsm == old(fsm) || fresh(fsm)) && logger.readOnly == old(logger.readOnly)
      ensures StopsAtFailure(FileCommandCalls(command), made, results)
      decreases depth, 4
    {
      var body := CommandBody(command);
      var tokens := Tokens(body);
      ghost var calls := FileCommandCalls(command);
      FileCommandCallsCases(command);
      made, results := [], [];
      if tokens == [] {
        return;
      }
      var cmd := Upper(tokens[0]);
      if cmd == "TRANSITIONS" {
        var first := TokenizeTransitionFile(body);
        var r := FileCall(first, depth);
        made, results := [first], [r];
        if r.Err? {
          return;
        }
      }
      if cmd == "LOAD" {
        if |tokens| > 1 {
          var r := FileCall(tokens, depth);
          made, results := made + [tokens], results + [r];
        }
      } else {
        var r := FileCall(tokens, depth);
        made, results := made + [tokens], results + [r];
      }
    }

    /** One statement of a command file, run for its effect: only a stack
        overflow stops the file. */
    method RunStatement(statement: string, depth: nat) returns (abort: Option<Error>)
      requires Valid()
      modifies this, fsm, logger
      ensures Valid() && (fsm == old(fsm) || fresh(fsm)) && logger.readOnly == old(logger.readOnly)
      ensures abort.Some? ==> abort.value.StackOverflow?
      decreases depth, 7
    {
      var _, stop, _, _ := ProcessFileCommand(statement, depth);
      abort := stop;
    }

    /** `processFileCommand`: the statement is split as `SeparateCommands`
        describes and each command is run in turn. A failing call ends only
        its own command (the `catch` inside the loop); a stack overflow
        escapes and ends the statement. `made` is the calls made for each
        command and `got` what they returned. */
    method ProcessFileCommand(commandLine: string, depth: nat)
      returns (commands: seq<string>, abort: Option<Error>,
               ghost made: seq<seq<seq<string>>>, ghost got: seq<seq<Result<Option<Reply>, Error>>>)
      requires Valid()
      modifies this, fsm, logger
      ensures Valid() && (fsm == old(fsm) || fresh(fsm)) && logger.readOnly == old(logger.readOnly)
      ensures commands == SeparateCommands(commandLine)
      ensures CommandsRan(CallsOf(commands), made, got, abort)
      ensures abort.None? ==> |made| == |commands|
      decreases depth, 6
    {
      commands := SplitIntoSeparateCommands(commandLine);
      abort, made, got := RunCommands(commands, depth);
    }

    /** The loop of `processFileCommand` over its commands. */
    method RunCommands(commands: seq<string>, depth: nat)
      returns (abort: Option<Error>,
               ghost made: seq<seq<seq<string>>>, ghost got: seq<seq<Result<Option<Reply>, Error>>>)
      requires Valid()
      modifies this, fsm, logger
      ensures Valid() && (fsm == old(fsm) || fresh(fsm)) && logger.readOnly == old(logger.readOnly)
      ensures CommandsRan(CallsOf(commands), made, got, abort)
      ensures abort.None? ==> |made| == |commands|
      decreases depth, 5
    {
      ghost var expected := CallsOf(commands);
      made, got, abort := [], [], None;
      var k := 0;
      while k < |commands| && abort.None?
        invariant 0 <= k <= |commands| && |made| == k
        invariant Valid() && (fsm == old(fsm) || fresh(fsm)) && logger.readOnly == old(logger.readOnly)
        invariant CommandsRan(expected, made, got, abort)
      {
        var calls, results := RunFileCommand(commands[k], depth);
        RunsExtended(expected, made, got, calls, results);
        made, got := made + [calls], got + [results];
        if EndsInOverflow(results) {
          abort := Some(results[|results| - 1].error);
        }
        k := k + 1;
      }
    }
  }
}
