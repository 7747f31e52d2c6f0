/**
 * The front end of the draft program, FSMmain.java: its class
 * CommandInterpreter and its main method. This interpreter knows five
 * keywords (EXIT, LOAD, EXECUTE, LOG, CLEAR) and only reports them; no FSM
 * sits behind it. Statements end at a semicolon, both at the console and in
 * a file that LOAD reads; a file stops at its first invalid statement.
 *
 * The console is the pair of line sequences a session has printed on
 * standard output and standard error; the files the program can open are a
 * map from name to lines; the depth of nested LOADs the Java stack allows is
 * a parameter.
 */
module DraftInterpreter {
  import opened Base
  import opened Text

  /** Whether the REPL still runs, and what has been printed on standard
      output and standard error. */
  datatype Session = Session(running: bool, out: seq<string>, err: seq<string>)

  /** The text files the program can open, by name. */
  type Files = map<string, seq<string>>

  /** How the statements of a file ended: all of them ran, or one threw. */
  datatype FileEnd = Completed | Stopped(error: Error)

  /** The keywords the draft interpreter recognises. */
  predicate IsKeyword(cmd: string)
  {
    cmd == "EXIT" || cmd == "LOAD" || cmd == "EXECUTE" || cmd == "LOG" || cmd == "CLEAR"
  }

  /** A session `t` that grew out of `s`: the REPL may have stopped but never
      restarts, and nothing printed is taken back. */
  predicate Extends(s: Session, t: Session)
  {
    (t.running ==> s.running) && s.out <= t.out && s.err <= t.err
  }

  /** A line printed on standard output. */
  function Print(s: Session, line: string): (t: Session)
    ensures Extends(s, t) && t.running == s.running && t.err == s.err && t.out == s.out + [line]
  {
    s.(out := s.out + [line])
  }

  /** A line printed on standard error. */
  function PrintError(s: Session, line: string): (t: Session)
    ensures Extends(s, t) && t.running == s.running && t.out == s.out && t.err == s.err + [line]
  {
    s.(err := s.err + [line])
  }

  // ---------------------------------------------------------------------
  // Cutting lines into statements

  /** The statements the reading loops of startREPL and handleLoadCommand
      gather from `lines`, `buffer` being the text already gathered: a line
      without a semicolon joins the buffer followed by a space; a line with
      one completes a statement, the buffer and the text before its first
      semicolon, trimmed, and the text after it is dropped. Text still in
      the buffer when the lines run out never becomes a statement. */
  function Statements(buffer: string, lines: seq<string>): seq<string>
    decreases |lines|
  {
    if lines == [] then []
    else
      var idx := IndexOf(lines[0], ';');
      if idx >= 0 then [Trim(buffer + lines[0][..idx])] + Statements("", lines[1..])
      else Statements(buffer + lines[0] + " ", lines[1..])
  }

  /** One turn of the reading loops, at line `i`. */
  lemma StatementsAt(buffer: string, lines: seq<string>, i: nat)
    requires i < |lines|
    ensures var idx := IndexOf(lines[i], ';');
      Statements(buffer, lines[i..]) ==
        if idx >= 0 then [Trim(buffer + lines[i][..idx])] + Statements("", lines[i + 1..])
        else Statements(buffer + lines[i] + " ", lines[i + 1..])
  {
    assert lines[i..][0] == lines[i];
    assert lines[i..][1..] == lines[i + 1..];
  }

  /** Statements none of which trim() would change. */
  predicate AllTrimmed(stmts: seq<string>)
  {
    stmts == [] || (Trim(stmts[0]) == stmts[0] && AllTrimmed(stmts[1..]))
  }

  /** Every statement is trimmed. */
  lemma {:induction false} StatementsAreTrimmed(buffer: string, lines: seq<string>)
    ensures AllTrimmed(Statements(buffer, lines))
    decreases |lines|
  {
    if lines != [] {
      var idx := IndexOf(lines[0], ';');
      if idx >= 0 {
        var stmt := Trim(buffer + lines[0][..idx]);
        var rest := Statements("", lines[1..]);
        TrimIdempotent(buffer + lines[0][..idx]);
        StatementsAreTrimmed("", lines[1..]);
        assert ([stmt] + rest)[0] == stmt && ([stmt] + rest)[1..] == rest;
      } else {
        StatementsAreTrimmed(buffer + lines[0] + " ", lines[1..]);
      }
    }
  }

  /** Whatever follows the first semicolon of a line is ignored: replacing
      it by any other text gives the same statements. */
  lemma {:induction false} TextAfterSemicolonIgnored(buffer: string, lines: seq<string>, i: nat, tail: string)
    requires i < |lines| && IndexOf(lines[i], ';') >= 0
    ensures Statements(buffer, lines) ==
      Statements(buffer, lines[i := lines[i][..IndexOf(lines[i], ';') + 1] + tail])
    decreases i
  {
    var line := lines[i];
    var idx := IndexOf(line, ';');
    var cut := line[..idx + 1] + tail;
    var lines' := lines[i := cut];
    assert cut[..idx] == line[..idx];
    assert cut[idx] == ';';
    assert IndexOf(cut, ';') == idx by {
      var r := IndexOf(cut, ';');
      assert forall j :: 0 <= j < idx ==> cut[j] == line[j];
    }
    if i == 0 {
      assert lines'[1..] == lines[1..];
    } else {
      var next := if IndexOf(lines[0], ';') >= 0 then "" else buffer + lines[0] + " ";
      TextAfterSemicolonIgnored(next, lines[1..], i - 1, tail);
      assert lines'[1..] == lines[1..][i - 1 := cut];
    }
  }

  /** Lines at the end of the input that hold no semicolon complete no
      statement: an unfinished statement is never run. */
  lemma {:induction false} UnfinishedTailIgnored(buffer: string, lines: seq<string>, tail: seq<string>)
    requires forall j :: 0 <= j < |tail| ==> IndexOf(tail[j], ';') < 0
    ensures Statements(buffer, lines + tail) == Statements(buffer, lines)
    decreases |lines| + |tail|
  {
    if lines == [] {
      if tail != [] {
        assert ([] + tail)[1..] == [] + tail[1..];
        UnfinishedTailIgnored(buffer + tail[0] + " ", [], tail[1..]);
      }
    } else {
      assert (lines + tail)[0] == lines[0];
      assert (lines + tail)[1..] == lines[1..] + tail;
      var next := if IndexOf(lines[0], ';') >= 0 then "" else buffer + lines[0] + " ";
      UnfinishedTailIgnored(next, lines[1..], tail);
    }
  }

  // ---------------------------------------------------------------------
  // Running statements

  /** processLine: one statement's effect on the session and the exception
      it throws. An empty statement does nothing; otherwise its tokens
      decide. `depth` is how many nested LOADs the stack still allows. */
  function LineOutcome(files: Files, s: Session, line: string, depth: nat): (Session, Option<Error>)
    decreases depth, 2, 0
  {
    if line == "" then (s, None) else CommandOutcome(files, s, Tokens(line), depth)
  }

  /** The switch of processLine over the statement's tokens: EXIT stops the
      REPL; LOAD runs a file; EXECUTE, LOG and CLEAR only print what they
      would do; any other keyword is invalid. With no token at all the
      lookup of the first one is out of range. */
  function CommandOutcome(files: Files, s: Session, tokens: seq<string>, depth: nat): (Session, Option<Error>)
    decreases depth, 1, 0
  {
    if tokens == [] then (s, Some(IndexOutOfBounds("Index 0 out of bounds for length 0")))
    else
      var cmd := Upper(tokens[0]);
      if cmd == "EXIT" then (Print(s, "TERMINATED BY USER").(running := false), None)
      else if cmd == "LOAD" then
        if |tokens| < 2 then (s, Some(InvalidCommand("LOAD requires filename")))
        else LoadOutcome(files, s, tokens[1], depth)
      else if cmd == "EXECUTE" then
        if |tokens| < 2 then (s, Some(InvalidCommand("EXECUTE requires input string")))
        else (Print(s, "EXECUTED: " + tokens[1]), None)
      else if cmd == "LOG" then
        (Print(s, if |tokens| > 1 then "LOGGING to " + tokens[1] else "STOPPED LOGGING"), None)
      else if cmd == "CLEAR" then (Print(s, "CLEARED"), None)
      else (s, Some(InvalidCommand("Invalid command: " + cmd)))
  }

  /** handleLoadCommand: runs the statements of file `name`. A file that
      does not exist, and a statement that throws InvalidCommandException,
      end the file with a line on standard error; any other exception goes
      on to the caller. With no stack left the call itself overflows. */
  function LoadOutcome(files: Files, s: Session, name: string, depth: nat): (Session, Option<Error>)
    decreases depth, 0, 0
  {
    if depth == 0 then (s, Some(StackOverflow("")))
    else if name !in files then
      (PrintError(s, "Error loading file: " + name + " (No such file or directory)"), None)
    else
      var (t, end) := RunStatements(files, s, Statements("", files[name]), depth - 1);
      match end
      case Completed => (t, None)
      case Stopped(e) =>
        if e.InvalidCommand? then (PrintError(t, "Error loading file: " + e.msg), None)
        else (t, Some(e))
  }

  /** The statements of a file, one after the other, up to the first that
      throws. A file does not look at whether the REPL still runs. */
  function RunStatements(files: Files, s: Session, stmts: seq<string>, depth: nat): (Session, FileEnd)
    decreases depth, 3, |stmts|
  {
    if stmts == [] then (s, Completed)
    else
      var (t, e) := LineOutcome(files, s, stmts[0], depth);
      if e.Some? then (t, Stopped(e.value)) else RunStatements(files, t, stmts[1..], depth)
  }

  /** startREPL: the statements typed at the console, one after the other,
      while the REPL runs; the first exception ends it and goes on to the
      caller. */
  function ReplOutcome(files: Files, s: Session, stmts: seq<string>, depth: nat): (Session, Option<Error>)
    decreases |stmts|
  {
    if stmts == [] || !s.running then (s, None)
    else
      var (t, e) := LineOutcome(files, s, stmts[0], depth);
      if e.Some? then (t, e) else ReplOutcome(files, t, stmts[1..], depth)
  }

  /** The start of main: the banner with the time `now`, then, when there is
      a first argument, the file it names. */
  function StartupOutcome(files: Files, args: seq<string>, now: string, depth: nat): (Session, Option<Error>)
  {
    var banner := Session(true, ["FSM DESIGNER 1.0 " + now], []);
    if args == [] then (banner, None)
    else LoadOutcome(files, Print(banner, "Loading commands from file: " + args[0]), args[0], depth)
  }

  /** main: prints the banner with the time `now`, runs the file named by the
      first argument if there is one, then the REPL on the console's lines.
      An InvalidCommandException ends the program with a line on standard
      error; the exception returned is one that no handler catches. */
  function ProgramOutcome(files: Files, args: seq<string>, input: seq<string>, now: string, depth: nat): (Session, Option<Error>)
  {
    var start := StartupOutcome(files, args, now, depth);
    if start.1.Some? then start
    else
      var repl := ReplOutcome(files, start.0, Statements("", input), depth);
      if repl.1.Some? && repl.1.value.InvalidCommand? then (PrintError(repl.0, "Error: " + repl.1.value.msg), None)
      else repl
  }

  // ---------------------------------------------------------------------
  // Properties

  /** A non-empty trimmed statement always has a first token, so the token
      lookup of processLine never goes out of range. */
  lemma StatementHasKeyword(line: string)
    requires line != "" && Trim(line) == line
    ensures Tokens(line) != []
  {
    TrimEmptyIffBlank(line);
    TokensEmptyIffBlank(line);
  }

  /** What a statement can throw, and what a file can pass on: a trimmed
      statement throws only InvalidCommandException or overflows the stack,
      and a LOAD passes on nothing but a stack overflow. */
  lemma {:induction false} LineFailures(files: Files, s: Session, line: string, depth: nat)
    requires Trim(line) == line
    ensures var e := LineOutcome(files, s, line, depth).1;
      e.Some? ==> e.value.InvalidCommand? || e.value.StackOverflow?
    decreases depth, 2, 0
  {
    if line != "" {
      StatementHasKeyword(line);
      var tokens := Tokens(line);
      if Upper(tokens[0]) == "LOAD" && |tokens| >= 2 {
        LoadFailures(files, s, tokens[1], depth);
      }
    }
  }

  /** See LineFailures. */
  lemma {:induction false} LoadFailures(files: Files, s: Session, name: string, depth: nat)
    ensures var e := LoadOutcome(files, s, name, depth).1;
      e.Some? ==> e.value.StackOverflow?
    decreases depth, 0, 0
  {
    if depth > 0 && name in files {
      StatementsAreTrimmed("", files[name]);
      RunFailures(files, s, Statements("", files[name]), depth - 1);
    }
  }

  /** See LineFailures. */
  lemma {:induction false} RunFailures(files: Files, s: Session, stmts: seq<string>, depth: nat)
    requires AllTrimmed(stmts)
    ensures var end := RunStatements(files, s, stmts, depth).1;
      end.Stopped? ==> end.error.InvalidCommand? || end.error.StackOverflow?
    decreases depth, 3, |stmts|
  {
    if stmts != [] {
      LineFailures(files, s, stmts[0], depth);
      var (t, e) := LineOutcome(files, s, stmts[0], depth);
      if e.None? {
        RunFailures(files, t, stmts[1..], depth);
      }
    }
  }

  /** A statement, a file and the REPL only extend the session: the REPL
      never restarts and what was printed stays printed. */
  lemma {:induction false} LineExtends(files: Files, s: Session, line: string, depth: nat)
    ensures Extends(s, LineOutcome(files, s, line, depth).0)
    decreases depth, 2, 0
  {
    if line != "" {
      CommandExtends(files, s, Tokens(line), depth);
    }
  }

  /** See LineExtends. */
  lemma {:induction false} CommandExtends(files: Files, s: Session, tokens: seq<string>, depth: nat)
    ensures Extends(s, CommandOutcome(files, s, tokens, depth).0)
    decreases depth, 1, 0
  {
    if tokens != [] && Upper(tokens[0]) == "LOAD" && |tokens| >= 2 {
      LoadExtends(files, s, tokens[1], depth);
    }
  }

  /** See LineExtends. */
  lemma {:induction false} LoadExtends(files: Files, s: Session, name: string, depth: nat)
    ensures Extends(s, LoadOutcome(files, s, name, depth).0)
    decreases depth, 0, 0
  {
    if depth > 0 && name in files {
      RunExtends(files, s, Statements("", files[name]), depth - 1);
    }
  }

  /** See LineExtends. */
  lemma {:induction false} RunExtends(files: Files, s: Session, stmts: seq<string>, depth: nat)
    ensures Extends(s, RunStatements(files, s, stmts, depth).0)
    decreases depth, 3, |stmts|
  {
    if stmts != [] {
      LineExtends(files, s, stmts[0], depth);
      var (t, e) := LineOutcome(files, s, stmts[0], depth);
      if e.None? {
        RunExtends(files, t, stmts[1..], depth);
      }
    }
  }

  /** See LineExtends. */
  lemma {:induction false} ReplExtends(files: Files, s: Session, stmts: seq<string>, depth: nat)
    ensures Extends(s, ReplOutcome(files, s, stmts, depth).0)
    decreases |stmts|
  {
    if stmts != [] && s.running {
      LineExtends(files, s, stmts[0], depth);
      var (t, e) := LineOutcome(files, s, stmts[0], depth);
      if e.None? {
        ReplExtends(files, t, stmts[1..], depth);
      }
    }
  }

  /** Only the five keywords are commands: a non-empty statement throws
      "Invalid command: " with its keyword exactly when the keyword is none
      of them. */
  lemma OnlyKeywordsAccepted(files: Files, s: Session, line: string, depth: nat)
    requires line != "" && Trim(line) == line
    ensures Tokens(line) != []
    ensures var cmd := Upper(Tokens(line)[0]);
      LineOutcome(files, s, line, depth).1 == Some(InvalidCommand("Invalid command: " + cmd)) <==> !IsKeyword(cmd)
  {
    StatementHasKeyword(line);
    var tokens := Tokens(line);
    var cmd := Upper(tokens[0]);
    if cmd == "LOAD" && |tokens| >= 2 {
      LoadFailures(files, s, tokens[1], depth);
    }
    if cmd == "LOAD" && |tokens| < 2 {
      assert |"LOAD requires filename"| != |"Invalid command: " + cmd|;
    }
    if cmd == "EXECUTE" && |tokens| < 2 {
      assert |"EXECUTE requires input string"| != |"Invalid command: " + cmd|;
    }
  }

  /** Statements after the first one that throws never run: a file's
      statements split anywhere run as the first part and then, if that
      completed, the second. */
  lemma {:induction false} RunStatementsAppend(files: Files, s: Session, a: seq<string>, b: seq<string>, depth: nat)
    ensures RunStatements(files, s, a + b, depth) ==
      var (t, end) := RunStatements(files, s, a, depth);
      if end.Completed? then RunStatements(files, t, b, depth) else (t, end)
    decreases |a|
  {
    if a == [] {
      assert a + b == b;
    } else {
      assert (a + b)[0] == a[0];
      assert (a + b)[1..] == a[1..] + b;
      var (t, e) := LineOutcome(files, s, a[0], depth);
      if e.None? {
        RunStatementsAppend(files, t, a[1..], b, depth);
      }
    }
  }

  /** The REPL split anywhere runs as its first part and then, unless that
      threw, the second; once EXIT has stopped it nothing more runs. */
  lemma {:induction false} ReplAppend(files: Files, s: Session, a: seq<string>, b: seq<string>, depth: nat)
    ensures ReplOutcome(files, s, a + b, depth) ==
      var (t, e) := ReplOutcome(files, s, a, depth);
      if e.None? then ReplOutcome(files, t, b, depth) else (t, e)
    ensures !ReplOutcome(files, s, a, depth).0.running ==>
      ReplOutcome(files, s, a + b, depth) == ReplOutcome(files, s, a, depth)
    decreases |a|
  {
    if a == [] {
      assert a + b == b;
    } else if s.running {
      assert (a + b)[0] == a[0];
      assert (a + b)[1..] == a[1..] + b;
      var (t, e) := LineOutcome(files, s, a[0], depth);
      if e.None? {
        ReplAppend(files, t, a[1..], b, depth);
      }
    }
  }

  /** The program ends on an exception only when nested LOADs overflow the
      stack: every other exception is caught and reported. */
  lemma ProgramCrashesOnlyOnOverflow(files: Files, args: seq<string>, input: seq<string>, now: string, depth: nat)
    ensures var e := ProgramOutcome(files, args, input, now, depth).1;
      e.Some? ==> e.value.StackOverflow?
  {
    StartupFailures(files, args, now, depth);
    var start := StartupOutcome(files, args, now, depth);
    StatementsAreTrimmed("", input);
    ReplFailures(files, start.0, Statements("", input), depth);
  }

  /** The start of main passes on nothing but a stack overflow. */
  lemma StartupFailures(files: Files, args: seq<string>, now: string, depth: nat)
    ensures var e := StartupOutcome(files, args, now, depth).1;
      e.Some? ==> e.value.StackOverflow?
  {
    if args != [] {
      var banner := Session(true, ["FSM DESIGNER 1.0 " + now], []);
      LoadFailures(files, Print(banner, "Loading commands from file: " + args[0]), args[0], depth);
    }
  }

  /** A REPL over trimmed statements throws only InvalidCommandException or
      a stack overflow. */
  lemma {:induction false} ReplFailures(files: Files, s: Session, stmts: seq<string>, depth: nat)
    requires AllTrimmed(stmts)
    ensures var e := ReplOutcome(files, s, stmts, depth).1;
      e.Some? ==> e.value.InvalidCommand? || e.value.StackOverflow?
    decreases |stmts|
  {
    if stmts != [] && s.running {
      LineFailures(files, s, stmts[0], depth);
      var (t, e) := LineOutcome(files, s, stmts[0], depth);
      if e.None? {
        ReplFailures(files, t, stmts[1..], depth);
      }
    }
  }

  // ---------------------------------------------------------------------
  // The interpreter object

  /** CommandInterpreter: the REPL flag it keeps, and the console it prints
      on. */
  class DraftCommandInterpreter {
    var running: bool
    var out: seq<string>
    var err: seq<string>
    const files: Files

    function State(): Session
      reads this
    {
      Session(running, out, err)
    }

    constructor(files: Files)
      ensures State() == Session(true, [], []) && this.files == files
    {
      running := true;
      out := [];
      err := [];
      this.files := files;
    }

    /** processLine. */
    method ProcessLine(line: string, depth: nat) returns (failure: Option<Error>)
      modifies this
      ensures (State(), failure) == LineOutcome(files, old(State()), line, depth)
      decreases depth, 2, 0
    {
      failure := None;
      if line != "" {
        var tokens := Tokens(line);
        if tokens == [] {
          failure := Some(IndexOutOfBounds("Index 0 out of bounds for length 0"));
        } else {
          var cmd := Upper(tokens[0]);
          if cmd == "EXIT" {
            out := out + ["TERMINATED BY USER"];
            running := false;
          } else if cmd == "LOAD" {
            if |tokens| < 2 {
              failure := Some(InvalidCommand("LOAD requires filename"));
            } else {
              failure := HandleLoadCommand(tokens[1], depth);
            }
          } else if cmd == "EXECUTE" {
            if |tokens| < 2 {
              failure := Some(InvalidCommand("EXECUTE requires input string"));
            } else {
              out := out + ["EXECUTED: " + tokens[1]];
            }
          } else if cmd == "LOG" {
            out := out + [if |tokens| > 1 then "LOGGING to " + tokens[1] else "STOPPED LOGGING"];
          } else if cmd == "CLEAR" {
            out := out + ["CLEARED"];
          } else {
            failure := Some(InvalidCommand("Invalid command: " + cmd));
          }
        }
      }
    }

    /** handleLoadCommand. */
    method HandleLoadCommand(name: string, depth: nat) returns (failure: Option<Error>)
      modifies this
      ensures (State(), failure) == LoadOutcome(files, old(State()), name, depth)
      decreases depth, 0, 0
    {
      failure := None;
      if depth == 0 {
        failure := Some(StackOverflow(""));
      } else if name !in files {
        err := err + ["Error loading file: " + name + " (No such file or directory)"];
      } else {
        var end := ReadFile(files[name], depth - 1);
        if end.Stopped? {
          if end.error.InvalidCommand? {
            err := err + ["Error loading file: " + end.error.msg];
          } else {
            failure := Some(end.error);
          }
        }
      }
    }

    /** The reading loop of handleLoadCommand: gathers statements from the
        file's lines and runs each as soon as it is complete. */
    method ReadFile(lines: seq<string>, depth: nat) returns (end: FileEnd)
      modifies this
      ensures (State(), end) == RunStatements(files, old(State()), Statements("", lines), depth)
      decreases depth, 3, 0
    {
      ghost var goal := RunStatements(files, State(), Statements("", lines), depth);
      var buffer := "";
      var i := 0;
      end := Completed;
      while i < |lines| && end.Completed?
        invariant 0 <= i <= |lines|
        invariant end.Completed? ==> goal == RunStatements(files, State(), Statements(buffer, lines[i..]), depth)
        invariant end.Stopped? ==> goal == (State(), end)
      {
        StatementsAt(buffer, lines, i);
        var idx := IndexOf(lines[i], ';');
        if idx >= 0 {
          var stmt := Trim(buffer + lines[i][..idx]);
          ghost var rest := Statements("", lines[i + 1..]);
          assert ([stmt] + rest)[0] == stmt && ([stmt] + rest)[1..] == rest;
          var failure := ProcessLine(stmt, depth);
          if failure.Some? {
            end := Stopped(failure.value);
          }
          buffer := "";
        } else {
          buffer := buffer + lines[i] + " ";
        }
        i := i + 1;
      }
    }

    /** startREPL, over the lines typed at the console. */
    method StartRepl(input: seq<string>, depth: nat) returns (failure: Option<Error>)
      modifies this
      ensures (State(), failure) == ReplOutcome(files, old(State()), Statements("", input), depth)
    {
      ghost var goal := ReplOutcome(files, State(), Statements("", input), depth);
      var buffer := "";
      var i := 0;
      failure := None;
      while running && i < |input| && failure.None?
        invariant 0 <= i <= |input|
        invariant failure.None? ==> goal == ReplOutcome(files, State(), Statements(buffer, input[i..]), depth)
        invariant failure.Some? ==> goal == (State(), failure)
      {
        StatementsAt(buffer, input, i);
        var idx := IndexOf(input[i], ';');
        if idx >= 0 {
          var stmt := Trim(buffer + input[i][..idx]);
          ghost var rest := Statements("", input[i + 1..]);
          assert ([stmt] + rest)[0] == stmt && ([stmt] + rest)[1..] == rest;
          buffer := "";
          failure := ProcessLine(stmt, depth);
        } else {
          buffer := buffer + input[i] + " ";
        }
        i := i + 1;
      }
    }
  }

  /** main: the whole program, from its arguments, the files it can open and
      the lines typed at the console to what it printed and the exception,
      if any, that ended it. */
  method RunDesigner(files: Files, args: seq<string>, input: seq<string>, now: string, depth: nat)
    returns (session: Session, crash: Option<Error>)
    ensures (session, crash) == ProgramOutcome(files, args, input, now, depth)
  {
    var interpreter := new DraftCommandInterpreter(files);
    interpreter.out := interpreter.out + ["FSM DESIGNER 1.0 " + now];
    ghost var banner := interpreter.State();
    assert banner == Session(true, ["FSM DESIGNER 1.0 " + now], []);
    crash := None;
    if args != [] {
      interpreter.out := interpreter.out + ["Loading commands from file: " + args[0]];
      assert interpreter.State() == Print(banner, "Loading commands from file: " + args[0]);
      crash := interpreter.HandleLoadCommand(args[0], depth);
    }
    assert (interpreter.State(), crash) == StartupOutcome(files, args, now, depth);
    if crash.None? {
      crash := interpreter.StartRepl(input, depth);
      if crash.Some? && crash.value.InvalidCommand? {
        interpreter.err := interpreter.err + ["Error: " + crash.value.msg];
        crash := None;
      }
    }
    session := interpreter.State();
  }
}
