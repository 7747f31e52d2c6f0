/**
 * The command interpreter (`CommandInterpreter` in src/FSMmain.java): the
 * read-eval-print loop that gathers statements up to a semicolon, the
 * splitting of a statement into sub-commands, the start-up command file, and
 * the program's entry point that runs the file and then the loop.
 *
 * Console input is a sequence of lines given up front; console output is not
 * modelled. How deep LOAD may nest before the Java stack overflows is the
 * `depth` parameter handed to the processor.
 */
module Interpreter {
  import opened Base
  import opened Text
  import opened Logging
  import opened Processor
  import opened CommandText

  /** A statement whose first token is EXIT. */
  predicate IsExit(statement: string)
  {
    var ts := Tokens(statement);
    ts != [] && Upper(ts[0]) == "EXIT"
  }

  /** No statement of `stmts` is EXIT. */
  predicate NoExit(stmts: seq<string>)
  {
    forall k :: 0 <= k < |stmts| ==> !IsExit(stmts[k])
  }

  lemma NoExitAppend(stmts: seq<string>, statement: string)
    ensures NoExit(stmts + [statement]) <==> NoExit(stmts) && !IsExit(statement)
  {
    assert (stmts + [statement])[|stmts|] == statement;
    assert forall k :: 0 <= k < |stmts| ==> (stmts + [statement])[k] == stmts[k];
  }

  /** Moving the next statement from what remains to what has run keeps
      their concatenation, and what has run stays a prefix of it. */
  lemma MoveToRan(ran: seq<string>, statement: string, rest: seq<string>)
    ensures (ran + [statement]) + rest == ran + ([statement] + rest)
    ensures ran + [statement] <= ran + ([statement] + rest)
  {
    assert (ran + [statement]) + rest == ran + ([statement] + rest);
  }

  /** The first `n` steps each hand a command on or skip it. */
  predicate Performed(steps: seq<LineStep>, n: nat)
    requires n <= |steps|
  {
    n == 0 || (Performed(steps, n - 1) && (steps[n - 1].Call? || steps[n - 1].Skip?))
  }

  lemma {:induction false} PerformedEach(steps: seq<LineStep>, n: nat)
    requires n <= |steps| && Performed(steps, n)
    ensures forall k :: 0 <= k < n ==> steps[k].Call? || steps[k].Skip?
  {
    if n > 0 {
      PerformedEach(steps, n - 1);
    }
  }

  /** An error `processLine` can pass on from one of its steps: the crash of
      a TRANSITIONS step, or what `processCommand` throws. */
  predicate StepFailure(step: LineStep, e: Error)
  {
    || (step.Crash? && e == step.error && e.IndexOutOfBounds?)
    || (step.Call? && (e.InvalidCommand? || e.StackOverflow?))
  }

  /** The first `n` steps of a statement each hand a command on or skip
      it. */
  predicate PerformedUpTo(line: string, n: nat)
    requires n <= |LineSteps(line)|
  {
    forall k :: 0 <= k < n ==> LineSteps(line)[k].Call? || LineSteps(line)[k].Skip?
  }

  /** Every step of the statement was performed. */
  predicate RanThrough(line: string)
  {
    PerformedUpTo(line, |LineSteps(line)|)
  }

  predicate AllRanThrough(stmts: seq<string>)
  {
    forall j :: 0 <= j < |stmts| ==> RanThrough(stmts[j])
  }

  /** The statement stopped at an EXIT step, every step before it
      performed. */
  predicate StopsAtExit(line: string)
  {
    exists n :: 0 <= n < |LineSteps(line)| && LineSteps(line)[n].Exit? && PerformedUpTo(line, n)
  }

  /** The statement stopped at a step that failed with `e`, every step before
      it performed. */
  predicate StopsWith(line: string, e: Error)
  {
    exists n :: 0 <= n < |LineSteps(line)| && StepFailure(LineSteps(line)[n], e) && PerformedUpTo(line, n)
  }

  /** The statements before the last ran through, and the last one stopped
      at an EXIT. */
  predicate LastExited(stmts: seq<string>)
  {
    stmts != [] && AllRanThrough(stmts[..|stmts| - 1]) && StopsAtExit(stmts[|stmts| - 1])
  }

  /** The statements before the last ran through, and the last one failed
      with `e`. */
  predicate LastFailed(stmts: seq<string>, e: Error)
  {
    stmts != [] && AllRanThrough(stmts[..|stmts| - 1]) && StopsWith(stmts[|stmts| - 1], e)
  }

  lemma AllRanThroughAppend(stmts: seq<string>, line: string)
    requires AllRanThrough(stmts) && RanThrough(line)
    ensures AllRanThrough(stmts + [line])
  {
    forall j | 0 <= j < |stmts + [line]| ensures RanThrough((stmts + [line])[j]) {
      if j < |stmts| { assert (stmts + [line])[j] == stmts[j]; }
    }
  }

  /** How a run of the program ends: normally, with the message `main`
      prints for an `InvalidCommandException`, or by an error nothing
      catches. */
  datatype SessionEnd = Done | Reported(message: string) | Crashed(error: Error)

  class CommandInterpreter {
    /** Cleared by EXIT; the loop reads no more lines once it is false. */
    var running: bool
    const processor: CommandProcessor

    predicate Valid()
      reads this, processor, processor.handler
    {
      processor.Valid()
    }

    constructor (logger: Logger, disk: map<string, DiskFile>)
      ensures Valid() && running && fresh(processor) && fresh(processor.fsm)
      ensures processor.logger == logger && processor.disk == disk
    {
      running := true;
      processor := new CommandProcessor(logger, disk);
    }

    /** A command handed to `processCommand`; only its failure matters here. */
    method Call(tokens: seq<string>, depth: nat) returns (failure: Option<Error>)
      requires Valid()
      modifies processor, processor.fsm, processor.logger
      ensures Valid() && processor.logger.readOnly == old(processor.logger.readOnly)
      ensures processor.fsm == old(processor.fsm) || fresh(processor.fsm)
      ensures failure.Some? ==> failure.value.InvalidCommand? || failure.value.StackOverflow?
    {
      var r, _ := processor.ProcessCommand(tokens, depth);
      failure := if r.Err? then Some(r.error) else None;
    }

    /** One sub-command of a line, as `SubCommandStep` describes it: EXIT
        closes the log and stops the loop; TRANSITIONS re-reads the line
        from its first "TRANSITIONS", which crashes when the line has it
        only in another letter case; LOAD without a file name is skipped. */
    method RunSubCommand(line: string, command: seq<string>, depth: nat) returns (exit: bool, failure: Option<Error>)
      requires Valid() && command != []
      modifies this, processor, processor.fsm, processor.logger
      ensures Valid() && processor.logger.readOnly == old(processor.logger.readOnly)
      ensures processor.fsm == old(processor.fsm) || fresh(processor.fsm)
      ensures var step := SubCommandStep(line, command);
        && (exit <==> step.Exit?)
        && (exit ==> failure.None? && !running && processor.logger.logFile.None?)
        && (!exit ==> running == old(running))
        && (failure.Some? ==> StepFailure(step, failure.value))
        && (step.Skip? ==> failure.None?)
        && (step.Crash? ==> failure == Some(step.error))
        && (!exit && failure.None? ==> step.Call? || step.Skip?)
    {
      var cmd := Upper(command[0]);
      exit, failure := false, None;
      if cmd == "EXIT" {
        if processor.logger.IsLoggingEnabled() {
          var _ := processor.logger.StopLogging();
        }
        running := false;
        exit := true;
      } else if cmd == "TRANSITIONS" {
        var at := IndexOfText(line, "TRANSITIONS");
        if at < 0 {
          return false, Some(SubstringOutOfRange(line));
        }
        var ts := TokenizeTransitionLine(line[at..]);
        if ts != [] {
          failure := Call(ts, depth);
        }
      } else if cmd == "LOAD" {
        if |command| > 1 {
          failure := Call(command, depth);
        }
      } else {
        failure := Call(command, depth);
      }
    }

    /** `processLine`: the sub-commands of a statement, in order, until EXIT
        or a failure; `done` counts the steps completed. */
    method ProcessLine(line: string, depth: nat) returns (done: nat, failure: Option<Error>)
      requires Valid()
      modifies this, processor, processor.fsm, processor.logger
      ensures Valid() && processor.logger.readOnly == old(processor.logger.readOnly)
      ensures processor.fsm == old(processor.fsm) || fresh(processor.fsm)
      ensures done <= |LineSteps(line)|
      ensures forall k :: 0 <= k < done ==> LineSteps(line)[k].Call? || LineSteps(line)[k].Skip?
      ensures done == |LineSteps(line)| ==> failure.None? && running == old(running)
      ensures done < |LineSteps(line)| && failure.None? ==>
        LineSteps(line)[done].Exit? && !running && processor.logger.logFile.None?
      ensures failure.Some? ==>
        done < |LineSteps(line)| && running == old(running) && StepFailure(LineSteps(line)[done], failure.value)
      ensures failure.Some? ==> failure.value.InvalidCommand? || failure.value.StackOverflow? || failure.value.IndexOutOfBounds?
    {
      var tokens := Tokens(line);
      var starts: seq<nat> := [];
      // an empty line has no tokens, so one test covers both early returns
      if tokens != [] {
        starts := FindCommandStarts(tokens);
      }
      LineStepsSliced(line, tokens, starts);
      ghost var steps := LineSteps(line);
      done, failure := RunSubCommands(line, steps, tokens, starts, depth);
    }

    /** The loop of `processLine` over the command starts; `steps` are the
        steps of the slices between them. */
    method RunSubCommands(line: string, ghost steps: seq<LineStep>, tokens: seq<string>, starts: seq<nat>, depth: nat)
      returns (done: nat, failure: Option<Error>)
      requires Valid() && |steps| == |starts|
      requires forall k {:trigger CommandEnd(tokens, starts, k)} :: 0 <= k < |starts| ==>
        && starts[k] < CommandEnd(tokens, starts, k) <= |tokens|
        && steps[k] == SubCommandStep(line, tokens[starts[k]..CommandEnd(tokens, starts, k)])
      modifies this, processor, processor.fsm, processor.logger
      ensures Valid() && processor.logger.readOnly == old(processor.logger.readOnly)
      ensures processor.fsm == old(processor.fsm) || fresh(processor.fsm)
      ensures done <= |steps|
      ensures forall k :: 0 <= k < done ==> steps[k].Call? || steps[k].Skip?
      ensures done == |steps| ==> failure.None? && running == old(running)
      ensures done < |steps| && failure.None? ==> steps[done].Exit? && !running && processor.logger.logFile.None?
      ensures failure.Some? ==> done < |steps| && running == old(running) && StepFailure(steps[done], failure.value)
    {
      done, failure := 0, None;
      while done < |starts|
        invariant done <= |starts|
        invariant Valid() && processor.logger.readOnly == old(processor.logger.readOnly)
        invariant processor.fsm == old(processor.fsm) || fresh(processor.fsm)
        invariant running == old(running) && failure.None?
        invariant Performed(steps, done)
      {
        var end := if done + 1 < |starts| then starts[done + 1] else |tokens|;
        assert end == CommandEnd(tokens, starts, done);
        var exit;
        exit, failure := RunSubCommand(line, tokens[starts[done]..end], depth);
        if exit || failure.Some? {
          PerformedEach(steps, done);
          return;
        }
        done := done + 1;
      }
      PerformedEach(steps, done);
    }

    /** Line `i` typed at the REPL: a blank line changes nothing; without a
        semicolon the line joins the buffer followed by a space; at the first
        semicolon the buffer and the text before it, trimmed, are the
        statement, and the text after it starts the new buffer. `ran` is
        extended by the statement, so that what has run and what remains
        still make up the same statements. */
    method NextReplCommand(ghost ran: seq<string>, buffer: string, lines: seq<string>, i: nat)
      returns (command: string, buffer': string, ghost ran': seq<string>)
      requires i < |lines|
      ensures ran' + ReplStatements(buffer', lines[i + 1..]) == ran + ReplStatements(buffer, lines[i..])
      ensures ran' <= ran + ReplStatements(buffer, lines[i..])
      ensures command != "" ==> ran' == ran + [command]
      ensures command == "" ==> ran' == ran
    {
      ReplStatementsAt(buffer, lines, i);
      var line := lines[i];
      if Trim(line) == "" {
        return "", buffer, ran;
      }
      var idx := IndexOf(line, ';');
      if idx >= 0 {
        command := Trim(buffer + line[..idx]);
        buffer' := if idx < |line| - 1 then line[idx + 1..] else "";
        assert buffer' == line[idx + 1..];
      } else {
        command := "";
        buffer' := buffer + line + " ";
      }
      ran' := ran;
      if command != "" {
        ran' := ran + [command];
        MoveToRan(ran, command, ReplStatements(buffer', lines[i + 1..]));
      }
    }

    /** The loop of `startREPL`: reads lines while the interpreter runs and
        runs each completed statement with `processLine`. A failure of
        `processLine` ends the loop and is passed on; `ran` holds the
        statements handed to `processLine`. */
    method RunReplLines(input: seq<string>, depth: nat) returns (ghost ran: seq<string>, failure: Option<Error>)
      requires Valid()
      modifies this, processor, processor.fsm, processor.logger
      ensures Valid() && (processor.fsm == old(processor.fsm) || fresh(processor.fsm))
      ensures ran <= ReplStatements("", input)
      ensures !old(running) ==> ran == [] && failure.None?
      ensures failure.None? && running ==> ran == ReplStatements("", input) && AllRanThrough(ran)
      ensures failure.None? && old(running) && !running ==> LastExited(ran)
      ensures failure.Some? ==> running == old(running) && LastFailed(ran, failure.value)
      ensures failure.Some? ==>
        failure.value.InvalidCommand? || failure.value.StackOverflow? || failure.value.IndexOutOfBounds?
    {
      ghost var all := ReplStatements("", input);
      var buffer := "";
      var i := 0;
      ran, failure := [], None;
      while running && i < |input|
        invariant 0 <= i <= |input|
        invariant Valid() && failure.None?
        invariant processor.fsm == old(processor.fsm) || fresh(processor.fsm)
        invariant ran + ReplStatements(buffer, input[i..]) == all && ran <= all
        invariant old(running) || (ran == [] && !running)
        invariant running ==> AllRanThrough(ran)
        invariant old(running) && !running ==> LastExited(ran)
        decreases |input| - i
      {
        ghost var before := ran;
        var command;
        command, buffer, ran := NextReplCommand(ran, buffer, input, i);
        if command != "" {
          assert ran[..|ran| - 1] == before && ran[|ran| - 1] == command;
          var done, f := ProcessLine(command, depth);
          if f.Some? {
            assert PerformedUpTo(command, done) && StepFailure(LineSteps(command)[done], f.value);
            failure := f;
            return;
          }
          if done == |LineSteps(command)| {
            AllRanThroughAppend(before, command);
          } else {
            assert PerformedUpTo(command, done) && LineSteps(command)[done].Exit?;
          }
        }
        i := i + 1;
      }
      assert running ==> input[i..] == [];
    }

    /** `startREPL`: the loop over the typed lines, then the log is closed
        however the loop ended. */
    method StartRepl(input: seq<string>, depth: nat) returns (ghost ran: seq<string>, failure: Option<Error>)
      requires Valid()
      modifies this, processor, processor.fsm, processor.logger
      ensures Valid() && processor.logger.logFile.None?
      ensures processor.fsm == old(processor.fsm) || fresh(processor.fsm)
      ensures ran <= ReplStatements("", input)
      ensures !old(running) ==> ran == [] && failure.None?
      ensures failure.None? && running ==> ran == ReplStatements("", input) && AllRanThrough(ran)
      ensures failure.None? && old(running) && !running ==> LastExited(ran)
      ensures failure.Some? ==> LastFailed(ran, failure.value)
      ensures failure.Some? ==>
        failure.value.InvalidCommand? || failure.value.StackOverflow? || failure.value.IndexOutOfBounds?
    {
      ran, failure := RunReplLines(input, depth);
      if processor.logger.IsLoggingEnabled() {
        var _ := processor.logger.StopLogging();
      }
    }

    /** Line `i` of the start-up file: it joins the buffer followed by a
        space; a line with a semicolon completes the statement, which is the
        trimmed buffer cut at its first semicolon and trimmed again. `ran` is
        extended by the statement, so that what has run and what remains
        still make up the same statements. */
    method NextLoadStatement(ghost ran: seq<string>, lines: seq<string>, i: nat, buf: string)
      returns (statement: Option<string>, buf': string, ghost ran': seq<string>)
      requires i < |lines|
      ensures ran' + LoadStatementsFrom(lines[i + 1..], buf') == ran + LoadStatementsFrom(lines[i..], buf)
      ensures ran' <= ran + LoadStatementsFrom(lines[i..], buf)
      ensures statement.Some? ==> ran' == ran + [statement.value]
      ensures statement.None? ==> ran' == ran
    {
      LoadStatementsFromAt(lines, i, buf);
      var line := lines[i];
      buf' := buf + line + " ";
      statement, ran' := None, ran;
      if ';' in line {
        var fullLine := Trim(buf');
        var at := IndexOf(fullLine, ';');
        statement := Some(Trim(fullLine[..at]));
        assert statement.value == CutAtSemicolon(fullLine);
        ghost var rest := LoadStatementsFrom(lines[i + 1..], "");
        buf' := "";
        ran' := ran + [statement.value];
        MoveToRan(ran, statement.value, rest);
      }
    }

    /** `handleLoadCommand`: every statement of the start-up file goes to
        `processCommand`, whose `InvalidCommandException` is reported and
        does not stop the file; EXIT only clears `running`, so the rest of
        the file still runs but the REPL will not. A missing file runs
        nothing. Only a stack overflow stops the file. */
    method HandleLoadCommand(name: string, depth: nat) returns (ghost ran: seq<string>, failure: Option<Error>)
      requires Valid()
      modifies this, processor, processor.fsm, processor.logger
      ensures Valid() && (processor.fsm == old(processor.fsm) || fresh(processor.fsm))
      ensures name !in old(processor.disk) ==>
        && ran == [] && failure.None? && running == old(running)
        && processor.fsm == old(processor.fsm) && processor.disk == old(processor.disk)
      ensures name in old(processor.disk) ==>
        var all := LoadStatements(ScriptLines(old(processor.disk)[name]));
        && (failure.None? ==> ran == all)
        && (failure.Some? ==> failure.value.StackOverflow? && ran != [] && ran <= all)
      ensures running == (old(running) && NoExit(ran))
    {
      ran, failure := [], None;
      if name !in processor.disk {
        return;
      }
      var lines := ScriptLines(processor.disk[name]);
      ghost var all := LoadStatements(lines);
      var buf := "";
      var i := 0;
      while i < |lines|
        invariant 0 <= i <= |lines|
        invariant Valid() && failure.None?
        invariant processor.fsm == old(processor.fsm) || fresh(processor.fsm)
        invariant ran + LoadStatementsFrom(lines[i..], buf) == all && ran <= all
        invariant running == (old(running) && NoExit(ran))
      {
        ghost var before := ran;
        var statement;
        statement, buf, ran := NextLoadStatement(ran, lines, i, buf);
        if statement.Some? {
          var command := statement.value;
          NoExitAppend(before, command);
          var tokens := Tokens(command);
          if tokens != [] {
            if Upper(tokens[0]) == "EXIT" {
              running := false;
            } else {
              var f := Call(tokens, depth);
              if f.Some? && f.value.StackOverflow? {
                failure := f;
                return;
              }
            }
          }
        }
        i := i + 1;
      }
      assert lines[i..] == [];
    }

    /** `main`: the start-up file named by the first argument, if any, and
        then the REPL; an `InvalidCommandException` out of the REPL is
        reported, any other error ends the program. */
    method RunSession(args: seq<string>, input: seq<string>, depth: nat)
      returns (end: SessionEnd, ghost loaded: seq<string>, ghost typed: seq<string>)
      requires Valid() && running
      modifies this, processor, processor.fsm, processor.logger
      ensures Valid()
      ensures args == [] || args[0] !in old(processor.disk) ==> loaded == []
      ensures args != [] && args[0] in old(processor.disk) && !end.Crashed? ==>
        loaded == LoadStatements(ScriptLines(old(processor.disk)[args[0]]))
      ensures end.Crashed? ==> end.error.StackOverflow? || end.error.IndexOutOfBounds?
      ensures end.Crashed? && typed == [] ==> end.error.StackOverflow? && loaded != []
      ensures end.Crashed? && typed != [] ==> LastFailed(typed, end.error)
      ensures end.Reported? ==>
        exists msg :: end.message == "Error: " + msg && LastFailed(typed, InvalidCommand(msg))
      ensures typed <= ReplStatements("", input)
      ensures !NoExit(loaded) && !end.Crashed? ==> typed == [] && end.Done?
      ensures NoExit(loaded) && end.Done? ==>
        (typed == ReplStatements("", input) && AllRanThrough(typed)) || LastExited(typed)
      ensures !end.Crashed? || typed != [] ==> processor.logger.logFile.None?
    {
      loaded, typed := [], [];
      if args != [] {
        var failure;
        loaded, failure := HandleLoadCommand(args[0], depth);
        if failure.Some? {
          return Crashed(failure.value), loaded, typed;
        }
      }
      var failure;
      typed, failure := StartRepl(input, depth);
      if failure.None? {
        end := Done;
      } else if failure.value.InvalidCommand? {
        end := Reported("Error: " + failure.value.msg);
        assert failure.value == InvalidCommand(failure.value.msg);
      } else {
        end := Crashed(failure.value);
      }
    }
  }
}
