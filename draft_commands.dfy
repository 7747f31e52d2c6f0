/**
 * The command layer of the earlier draft of the program (FSMmain.java): its
 * handler, its log and its dispatcher `processCommand`.
 *
 * The draft's engine class behaves as the finished one (module Engine), and
 * its handler shares the code of STATES, INITIAL-STATE, FINAL-STATES and
 * TRANSITIONS with the finished handler (module Handler). It differs in two
 * commands: SYMBOLS stops at the first bad token, and EXECUTE on an engine
 * without an initial state fails on the empty trace. The dispatcher throws
 * where the finished one returns an error string, reads a text file without
 * running it, and logs no commands.
 */
module DraftCommands {
  import opened Base
  import opened Text
  import opened Engine
  import opened Handler
  import opened Snapshots
  import opened Processor

  // -----------------------------------------------------------------------
  // SYMBOLS

  /** `handleSymbolsCommand` of the draft: each token is added upper-cased
      in turn; the first token that is not one letter or digit ends the
      command with `InvalidSymbolException`. */
  function DraftSymbols(m: Machine, tokens: seq<string>): (r: (Machine, Option<Error>))
    ensures r.0 == m.(symbols := r.0.symbols) && m.symbols <= r.0.symbols
    ensures m.Valid() ==> r.0.Valid()
    decreases |tokens|
  {
    if tokens == [] then (m, None)
    else if !IsSymbolText(tokens[0]) then (m, Some(InvalidSymbol("Invalid symbol: " + tokens[0])))
    else DraftSymbols(m.AddSymbol(Upper(tokens[0])).0, tokens[1..])
  }

  /** The position of the first token that is not a symbol, or the length. */
  function FirstNonSymbol(tokens: seq<string>): (k: nat)
    ensures k <= |tokens|
    ensures forall i :: 0 <= i < k ==> IsSymbolText(tokens[i])
    ensures k < |tokens| ==> !IsSymbolText(tokens[k])
  {
    if tokens == [] || !IsSymbolText(tokens[0]) then 0 else 1 + FirstNonSymbol(tokens[1..])
  }

  /** SYMBOLS of the draft adds exactly the tokens before the first bad one,
      changes nothing else, and fails exactly when there is a bad token,
      naming it. */
  lemma {:induction false} DraftSymbolsStopAtFirstBad(m: Machine, tokens: seq<string>)
    ensures var k := FirstNonSymbol(tokens);
      var (m', e) := DraftSymbols(m, tokens);
      && m' == m.(symbols := m.symbols + ValidSymbols(tokens[..k]))
      && (e.None? <==> k == |tokens|)
      && (k < |tokens| ==> e == Some(InvalidSymbol("Invalid symbol: " + tokens[k])))
    decreases |tokens|
  {
    if tokens != [] && IsSymbolText(tokens[0]) {
      var t := tokens[0];
      var m1 := m.AddSymbol(Upper(t)).0;
      DraftSymbolsStopAtFirstBad(m1, tokens[1..]);
      UpperIdempotent(t);
      assert m1.symbols == m.symbols + {Upper(t)};
      var k := FirstNonSymbol(tokens);
      assert tokens[..k] == [t] + tokens[1..][..k - 1];
      assert ValidSymbols(tokens[..k]) == {Upper(t)} + ValidSymbols(tokens[1..][..k - 1]) by {
        assert forall x :: x in tokens[..k] <==> x == t || x in tokens[1..][..k - 1];
      }
    } else if tokens != [] {
      assert tokens[..0] == [];
    }
  }

  /** On tokens that are all symbols the draft and the finished SYMBOLS do
      the same; they part only on a bad token, where the finished one goes on
      adding the later symbols and reports every bad token together. */
  lemma DraftSymbolsAgreeOnValid(m: Machine, tokens: seq<string>)
    requires forall i :: 0 <= i < |tokens| ==> IsSymbolText(tokens[i])
    ensures DraftSymbols(m, tokens) == HandleSymbols(m, tokens)
  {
    DraftSymbolsStopAtFirstBad(m, tokens);
    SymbolsAddsAllValid(m, tokens);
    assert tokens[..|tokens|] == tokens;
  }

  // -----------------------------------------------------------------------
  // EXECUTE

  /** `executeFSM` of the draft: `InvalidInputException` for empty input;
      otherwise the trace, each state followed by a space, and the verdict on
      its last state, which for an empty trace is `trace.get(-1)` failing. */
  function DraftExecuteReport(m: Machine, input: string): (r: Result<string, Error>)
    ensures input == [] <==> r == Err(InvalidInput("Input cannot be null or empty"))
    ensures input != [] && m.initialState.None? ==>
      r == Err(IndexOutOfBounds("Index -1 out of bounds for length 0"))
  {
    if input == [] then Err(InvalidInput("Input cannot be null or empty"))
    else
      var t := m.Trace(input);
      if t == [] then Err(IndexOutOfBounds("Index -1 out of bounds for length 0"))
      else Ok(Spaced(t) + Verdict(m, t[|t| - 1]))
  }

  /** EXECUTE of the draft reports the run from the initial state, even one
      that halted early, with YES exactly when its last state is final; it
      gives the finished report whenever the engine has both an initial and
      a current state. Without an initial state it fails where the finished
      program reports that the engine is not initialized. */
  lemma DraftExecuteReportsRun(m: Machine, input: string)
    requires input != []
    ensures m.initialState.Some? ==> exists t, v ::
      && m.IsRunFrom(m.initialState.value, input, t)
      && (v == "YES" <==> t[|t| - 1] in m.finalStates)
      && DraftExecuteReport(m, input) == Ok(Spaced(t) + v)
    ensures m.initialState.Some? && m.currentState.Some? ==>
      DraftExecuteReport(m, input) == ExecuteReport(m, input)
    ensures m.initialState.None? && m.currentState.Some? ==>
      && DraftExecuteReport(m, input).Err?
      && ExecuteReport(m, input) == Ok("Error: Execution failed.")
  {
    TraceIsRunFromInitial(m, input);
    if m.initialState.Some? {
      var t := m.Trace(input);
      var v := Verdict(m, t[|t| - 1]);
      assert m.IsRunFrom(m.initialState.value, input, t);
      assert DraftExecuteReport(m, input) == Ok(Spaced(t) + v);
    }
  }

  // -----------------------------------------------------------------------
  // The draft handler's two own methods. The other four commands run the
  // code the finished handler shares (Handler.FSMCommandHandler).

  /** `handleSymbolsCommand` of the draft, on the handler's engine. */
  method DraftHandleSymbolsCommand(fsm: FSM, tokens: seq<string>) returns (err: Option<Error>)
    modifies fsm
    ensures (fsm.Model(), err) == DraftSymbols(old(fsm.Model()), tokens)
  {
    var i := 0;
    while i < |tokens|
      invariant 0 <= i <= |tokens|
      invariant DraftSymbols(old(fsm.Model()), tokens) == DraftSymbols(fsm.Model(), tokens[i..])
    {
      var symbol := tokens[i];
      assert tokens[i..][1..] == tokens[i + 1..];
      if !IsSymbolText(symbol) {
        return Some(InvalidSymbol("Invalid symbol: " + symbol));
      }
      var _ := fsm.AddSymbol(Upper(symbol));
      i := i + 1;
    }
    return None;
  }

  /** `executeFSM` of the draft, on the handler's engine; it changes nothing. */
  method DraftExecuteFSM(fsm: FSM, input: string) returns (r: Result<string, Error>)
    ensures r == DraftExecuteReport(fsm.Model(), input)
  {
    if input == [] {
      return Err(InvalidInput("Input cannot be null or empty"));
    }
    var trace := fsm.TraceFSM(input);
    var report := "";
    var i := 0;
    while i < |trace|
      invariant 0 <= i <= |trace|
      invariant report + Spaced(trace[i..]) == Spaced(trace)
    {
      assert trace[i..][1..] == trace[i + 1..];
      report := report + trace[i] + " ";
      i := i + 1;
    }
    if trace == [] {
      return Err(IndexOutOfBounds("Index -1 out of bounds for length 0"));
    }
    assert trace[i..] == [];
    assert report == Spaced(trace);
    var last := trace[|trace| - 1];
    assert trace == fsm.Model().Trace(input);
    report := report + (if last in fsm.finalStates then "YES" else "NO");
    return Ok(report);
  }

  // -----------------------------------------------------------------------
  // The dispatcher, command by command

  /** The engine cases of the draft `processCommand`: as in the finished
      program, except that SYMBOLS with arguments and EXECUTE with one
      argument use the draft handler. */
  function DraftEngineStep(m: Machine, tokens: seq<string>): (r: (Machine, Outcome))
    requires |tokens| >= 1
    ensures m.Valid() ==> r.0.Valid()
    ensures r.1.Returned? ==> r.0 == m && |tokens| == 1
    ensures Upper(tokens[0]) == "PRINT" || Upper(tokens[0]) == "EXECUTE" ==> r.0 == m
    ensures !IsDispatched(Upper(tokens[0])) ==>
      r == (m, Threw(InvalidCommand("Invalid command: " + Upper(tokens[0]))))
  {
    var cmd := Upper(tokens[0]);
    var args := tokens[1..];
    if cmd == "SYMBOLS" && args != [] then Ended(DraftSymbols(m, args))
    else if cmd == "EXECUTE" && |args| == 1 then
      match DraftExecuteReport(m, args[0])
      case Ok(report) => (m, Finished(Some(report)))
      case Err(e) => (m, Threw(e))
    else EngineStep(m, tokens)
  }

  /** SYMBOLS of the draft fails only with `InvalidSymbolException`. */
  lemma DraftSymbolsErrorKind(m: Machine, tokens: seq<string>)
    ensures var e := DraftSymbols(m, tokens).1; e.Some? ==> e.value.InvalidSymbol?
  {
    DraftSymbolsStopAtFirstBad(m, tokens);
  }

  /** An engine command of the draft is refused as a command exactly when
      its name has no case, or INITIAL-STATE or EXECUTE does not have
      exactly one argument; a refused command changes nothing. */
  lemma DraftEngineArityRule(m: Machine, tokens: seq<string>)
    requires |tokens| >= 1 && IsEngineCommand(Upper(tokens[0]))
    ensures var cmd := Upper(tokens[0]);
      var (m', o) := DraftEngineStep(m, tokens);
      && (o.Threw? && o.error.InvalidCommand? <==>
            !IsDispatched(cmd) || ((cmd == "INITIAL-STATE" || cmd == "EXECUTE") && |tokens| != 2))
      && (o.Threw? && o.error.InvalidCommand? ==> m' == m)
  {
    var cmd := Upper(tokens[0]);
    if cmd == "SYMBOLS" && |tokens| > 1 {
      DraftSymbolsErrorKind(m, tokens[1..]);
    } else if cmd == "EXECUTE" && |tokens| == 2 {
      var r := DraftExecuteReport(m, tokens[1]);
      assert r.Err? ==> r.error.InvalidInput? || r.error.IndexOutOfBounds?;
    } else {
      EngineArityRule(m, tokens);
    }
  }

  /** COMPILE of the draft: one file name, checked by `serializeFSM`, whose
      refusal is thrown; an accepted name is written with the snapshot of
      the engine. */
  function DraftCompileStep(disk: map<string, DiskFile>, m: Machine, tokens: seq<string>): (r: (map<string, DiskFile>, Outcome))
    requires |tokens| >= 1
    ensures r.1.Threw? <==> |tokens| != 2 || CheckFileName(tokens[1]).Some?
    ensures forall name :: name in disk ==> name in r.0
    ensures forall name :: name in r.0 && (|tokens| != 2 || name != tokens[1]) ==> name in disk && r.0[name] == disk[name]
    ensures !r.1.Threw? ==>
      tokens[1] in r.0 && r.0[tokens[1]] == Compiled(Capture(m)) && r.1 == Finished(Some("Compile successful"))
  {
    if |tokens| != 2 then (disk, Threw(InvalidCommand("COMPILE requires filename")))
    else
      var name := tokens[1];
      match CheckFileName(name)
      case Some(e) => (disk, Threw(e))
      case None => (disk[name := Compiled(Capture(m))], Finished(Some("Compile successful")))
  }

  /** COMPILE writes the same file in both programs, so what
      `CompileThenLoad` proves of the finished program holds for the draft;
      where the finished one returns "Error =" and the message of a refused
      name, the draft throws it. */
  lemma DraftCompileMatchesFinished(disk: map<string, DiskFile>, m: Machine, tokens: seq<string>)
    requires |tokens| >= 1
    ensures var (d, o) := DraftCompileStep(disk, m, tokens);
      var (d', o') := CompileStep(disk, m, tokens);
      && d == d'
      && (o.Threw? && !o.error.InvalidCommand? ==> o' == Finished(Some("Error =" + o.error.msg)))
      && (!o.Threw? || o.error.InvalidCommand? ==> o == o')
      && (o.Threw? ==> |tokens| != 2 || CheckFileName(tokens[1]) == Some(o.error))
  {
  }

  /** LOAD of a compiled file in the draft: the rebuilt engine replaces the
      current one, or what `deserializeFSM` threw is thrown on. */
  function DraftLoadResult(problem: Option<Error>): (o: Outcome)
    ensures o == Finished(None) <==> LoadResult(problem) == Finished(None)
    ensures o.Threw? ==> LoadResult(problem) == Finished(Some("Error: " + o.error.msg))
  {
    if problem.None? then Finished(None) else Threw(problem.value)
  }

  /** The outcome of LOAD of a compiled file, with `m` the engine afterwards. */
  ghost predicate DraftCompiledOutcome(disk: map<string, DiskFile>, name: string, o: Outcome, m: Machine)
  {
    exists problem :: Deserializes(disk, name, problem, m) && o == DraftLoadResult(problem)
  }

  /** LOAD of any other file in the draft: `readToFile` only lists the
      file's statements on the console; a missing file is a
      `FileOperationException`. */
  function DraftTextLoad(disk: map<string, DiskFile>, name: string): (o: Outcome)
    ensures o == Finished(None) <==> name in disk
    ensures o != Finished(None) ==> o.Threw? && o.error.FileOperation?
  {
    if name in disk then Finished(None)
    else Threw(FileOperation("Error with reading file: " + name + " (No such file or directory)"))
  }

  /** LOG of the draft: alone it stops logging; with any argument it starts
      logging to the first, closing the open log first. A file that cannot
      be written leaves logging off. */
  function DraftLogStep(logFile: Option<string>, readOnly: set<string>, tokens: seq<string>): (Option<string>, Outcome)
    requires |tokens| >= 1
  {
    if |tokens| == 1 then
      (None, Finished(Some(if logFile.Some? then "STOPPED LOGGING" else "LOGGING was not enabled")))
    else if tokens[1] in readOnly then
      (None, Finished(Some("Error: Could not start logging to " + tokens[1] + " - " + tokens[1] + " (Permission denied)")))
    else (Some(tokens[1]), Finished(Some("Started logging to " + tokens[1])))
  }

  /** LOG never fails in the draft, and it leaves logging on exactly when it
      started logging to its first argument. */
  lemma DraftLogNeverThrows(logFile: Option<string>, readOnly: set<string>, tokens: seq<string>)
    requires |tokens| >= 1
    ensures var (f, o) := DraftLogStep(logFile, readOnly, tokens);
      && o.Finished? && o.result.Some?
      && (f.Some? <==> |tokens| >= 2 && tokens[1] !in readOnly)
      && (f.Some? ==> f == Some(tokens[1]) && o.result.value == "Started logging to " + tokens[1])
  {
  }

  // -----------------------------------------------------------------------
  // The objects

  /** The static `Logger` of the draft. Its `log` is never called, so no
      lines are kept. */
  class DraftLogger {
    var logFile: Option<string>
    /** Existing files that cannot be written. */
    const readOnly: set<string>

    constructor (readOnly: set<string>)
      ensures logFile.None? && this.readOnly == readOnly
    {
      logFile := None;
      this.readOnly := readOnly;
    }

    predicate IsLoggingEnabled()
      reads this
    {
      logFile.Some?
    }

    method StopLogging() returns (msg: string)
      modifies this
      ensures msg == if old(logFile).Some? then "STOPPED LOGGING" else "LOGGING was not enabled"
      ensures logFile.None?
    {
      if logFile.Some? {
        logFile := None;
        return "STOPPED LOGGING";
      }
      return "LOGGING was not enabled";
    }

    /** Closes any open log first, so a refused file leaves logging off. */
    method StartLogging(filename: string) returns (msg: string)
      modifies this
      ensures filename in readOnly ==>
        msg == "Error: Could not start logging to " + filename + " - " + filename + " (Permission denied)"
        && logFile.None?
      ensures filename !in readOnly ==>
        msg == "Started logging to " + filename && logFile == Some(filename)
    {
      if logFile.Some? {
        var _ := StopLogging();
      }
      if filename in readOnly {
        return "Error: Could not start logging to " + filename + " - " + filename + " (Permission denied)";
      }
      logFile := Some(filename);
      return "Started logging to " + filename;
    }
  }

  /** `CommandProcessor` of the draft. */
  class DraftProcessor {
    var fsm: FSM
    var handler: FSMCommandHandler
    const logger: DraftLogger
    /** The files COMPILE writes and LOAD reads. */
    var disk: map<string, DiskFile>

    /** The handler works on the processor's engine. */
    predicate Valid()
      reads this, handler
    {
      handler.fsm == fsm
    }

    constructor (logger: DraftLogger, disk: map<string, DiskFile>)
      ensures Valid() && fresh(fsm) && fsm.Model() == Empty()
      ensures this.logger == logger && this.disk == disk
    {
      var engine := new FSM();
      fsm := engine;
      handler := new FSMCommandHandler(engine);
      this.logger := logger;
      this.disk := disk;
    }

    /** The engine cases of the switch: the finished program's, except that
        SYMBOLS with arguments and EXECUTE with one argument run the draft
        handler's own code. */
    method EngineCommand(tokens: seq<string>) returns (o: Outcome)
      requires Valid() && |tokens| >= 1 && IsEngineCommand(Upper(tokens[0]))
      modifies fsm
      ensures (fsm.Model(), o) == DraftEngineStep(old(fsm.Model()), tokens)
    {
      var cmd := Upper(tokens[0]);
      if cmd == "SYMBOLS" && |tokens| > 1 {
        var err := DraftHandleSymbolsCommand(fsm, tokens[1..]);
        o := if err.None? then Finished(None) else Threw(err.value);
      } else if cmd == "EXECUTE" && |tokens| == 2 {
        var report := DraftExecuteFSM(fsm, tokens[1]);
        o := if report.Err? then Threw(report.error) else Finished(Some(report.value));
      } else {
        o := RunEngineCommand(fsm, handler, tokens);
      }
    }

    /** COMPILE: `serializeFSM` of the engine. */
    method Compile(tokens: seq<string>) returns (o: Outcome)
      requires |tokens| >= 1
      modifies this
      ensures (disk, o) == DraftCompileStep(old(disk), fsm.Model(), tokens)
      ensures fsm == old(fsm) && handler == old(handler)
    {
      if |tokens| != 2 {
        return Threw(InvalidCommand("COMPILE requires filename"));
      }
      var name := tokens[1];
      var problem := CheckFileName(name);
      if problem.Some? {
        return Threw(problem.value);
      }
      disk := disk[name := Compiled(Capture(fsm.Model()))];
      return Finished(Some("Compile successful"));
    }

    /** LOG: stop or start logging. */
    method LogCommand(tokens: seq<string>) returns (o: Outcome)
      requires |tokens| >= 1
      modifies logger
      ensures (logger.logFile, o) == DraftLogStep(old(logger.logFile), logger.readOnly, tokens)
    {
      var msg;
      if |tokens| == 1 {
        msg := logger.StopLogging();
      } else {
        msg := logger.StartLogging(tokens[1]);
      }
      return Finished(Some(msg));
    }

    /** LOAD of a compiled file: `deserializeFSM`, then the engine and its
        handler are replaced together. `problem` is what
        `deserializeFSM` threw. */
    method LoadCompiled(name: string) returns (o: Outcome, problem: Option<Error>)
      requires Valid()
      modifies this
      ensures Valid() && disk == old(disk)
      ensures Deserializes(disk, name, problem, fsm.Model()) && o == DraftLoadResult(problem)
      ensures problem.None? ==> fresh(fsm)
      ensures problem.Some? ==> fsm == old(fsm)
    {
      problem := CheckFileName(name);
      if problem.None? && name !in disk {
        problem := Some(InvalidFilePath("File does not exist: " + name));
      } else if problem.None? && disk[name].Script? {
        StartsWithAppended("Error reading FSM from file '" + name + "': ", "invalid stream header");
        problem := Some(FileOperation("Error reading FSM from file '" + name + "': " + "invalid stream header"));
      } else if problem.None? {
        var s := disk[name].snapshot;
        var built := s.ToFSM();
        if built.Err? {
          var k :| k in s.transitions && s.EntryProblem(k) == Some(built.error);
          problem := Some(InvalidFileFormat("File contains invalid FSM data: " + built.error.msg));
        } else {
          fsm := built.value;
          handler := new FSMCommandHandler(fsm);
        }
      }
      o := if problem.None? then Finished(None) else Threw(problem.value);
    }

    /** LOAD: one file name; a ".fs" name is deserialized, any other file is
        only read (`readToFile` prints its statements and runs none). */
    method Load(tokens: seq<string>) returns (o: Outcome)
      requires Valid() && |tokens| >= 1
      modifies this
      ensures Valid() && disk == old(disk)
      ensures o == Finished(None) && |tokens| == 2 && IsCompiledName(tokens[1]) ==> fresh(fsm)
      ensures !(o == Finished(None) && |tokens| == 2 && IsCompiledName(tokens[1])) ==> fsm == old(fsm)
      ensures |tokens| != 2 ==> o == Threw(InvalidCommand("LOAD requires filename"))
      ensures |tokens| == 2 && IsCompiledName(tokens[1]) ==>
        DraftCompiledOutcome(disk, tokens[1], o, fsm.Model())
      ensures |tokens| == 2 && !IsCompiledName(tokens[1]) ==> o == DraftTextLoad(disk, tokens[1])
    {
      if |tokens| != 2 {
        return Threw(InvalidCommand("LOAD requires filename"));
      }
      var name := tokens[1];
      if IsCompiledName(name) {
        var problem;
        o, problem := LoadCompiled(name);
      } else if name in disk {
        o := Finished(None);
      } else {
        o := Threw(FileOperation("Error with reading file: " + name + " (No such file or directory)"));
      }
    }

    /** `processCommand` of the draft: routes by the upper-cased first token;
        every exception out of the switch is rethrown as
        `InvalidCommandException` with its message. */
    method ProcessCommand(tokens: seq<string>) returns (r: Result<Option<Reply>, Error>, o: Outcome)
      requires Valid()
      modifies this, fsm, logger
      ensures Valid()
      ensures tokens == [] ==>
        && r == Err(InvalidCommand("No command provided"))
        && fsm == old(fsm) && fsm.Model() == old(fsm.Model()) && disk == old(disk)
        && logger.logFile == old(logger.logFile)
      ensures tokens != [] ==> r == Reported(o)
      ensures tokens != [] && IsEngineCommand(Upper(tokens[0])) ==>
        && (fsm.Model(), o) == DraftEngineStep(old(fsm.Model()), tokens)
        && fsm == old(fsm) && disk == old(disk) && logger.logFile == old(logger.logFile)
      ensures tokens != [] && Upper(tokens[0]) == "COMPILE" ==>
        && (disk, o) == DraftCompileStep(old(disk), old(fsm.Model()), tokens)
        && fsm == old(fsm) && fsm.Model() == old(fsm.Model()) && logger.logFile == old(logger.logFile)
      ensures tokens != [] && Upper(tokens[0]) == "LOG" ==>
        && (logger.logFile, o) == DraftLogStep(old(logger.logFile), logger.readOnly, tokens)
        && fsm == old(fsm) && fsm.Model() == old(fsm.Model()) && disk == old(disk)
      ensures tokens != [] && Upper(tokens[0]) == "LOAD" ==>
        && disk == old(disk) && logger.logFile == old(logger.logFile)
        && (fsm == old(fsm) ==> fsm.Model() == old(fsm.Model()))
        && (fsm != old(fsm) ==> fresh(fsm) && o == Finished(None))
        && (|tokens| != 2 ==> o == Threw(InvalidCommand("LOAD requires filename")))
        && (|tokens| == 2 && IsCompiledName(tokens[1]) ==> DraftCompiledOutcome(disk, tokens[1], o, fsm.Model()))
        && (|tokens| == 2 && !IsCompiledName(tokens[1]) ==> o == DraftTextLoad(disk, tokens[1]))
    {
      if tokens == [] {
        return Err(InvalidCommand("No command provided")), Threw(InvalidCommand("No command provided"));
      }
      var cmd := Upper(tokens[0]);
      if cmd == "COMPILE" {
        o := Compile(tokens);
      } else if cmd == "LOAD" {
        o := Load(tokens);
      } else if cmd == "LOG" {
        o := LogCommand(tokens);
      } else {
        o := EngineCommand(tokens);
      }
      r := Reported(o);
    }
  }
}
