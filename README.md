# FSM Designer, modelled in Dafny

FSM Designer is a console program for building deterministic finite state
machines. The user declares symbols (one letter or digit each), states,
an initial state, final states and transitions with commands such as
`SYMBOLS a b;`, `STATES q0 q1;`, `TRANSITIONS a q0 q1, b q1 q0;`, runs the
machine on an input with `EXECUTE abba;`, keeps a session log with `LOG`,
saves the machine with `COMPILE name.fs;` and reads a saved machine or a
command file back with `LOAD`. The repository holds a finished program
(`src/FSMmain.java`), an earlier draft of it (`FSMmain.java`), a draft of the
engine on its own (`FSM.java`) and the `State` value class (`State.java`).

The model has two layers.

* Values and functions. An engine is a `Machine` value: the symbol set,
  the states in declaration order, the final states, the initial and
  current state, and the transition map. Every engine operation is a
  function on it. The command handler's loops (`SYMBOLS`, `STATES`,
  `FINAL-STATES`, `TRANSITIONS`, `EXECUTE`) are folds over the tokens. The
  text processing is written as functions on strings. This covers Java's
  `trim()`, `split("\\s+")` and `indexOf`, the tokenizers, the splitting
  of a line into sub-commands, and the ways statements are gathered from
  the console and from files. The lemmas are proved about this layer.
* Classes. Whatever the Java code updates in place is a class with the
  same fields:
  * the engine `FSM`;
  * `FSMCommandHandler`;
  * the static `Logger`;
  * `CommandProcessor` and `CommandInterpreter`;
  * the draft's `FSM`, processor and interpreter.

  Each method's `ensures` ties its new state and its result to the
  function of the first layer. Each loop is a `while` loop with the
  invariants that prove this.

The environment is made explicit:

* The files on disk are a map from a name to a command script (its lines)
  or to a compiled snapshot.
* Files that exist but cannot be written form a set.
* The lines typed at the console are a parameter.
* The time shown in the banner is a parameter.
* Standard output and standard error are sequences of lines in the
  draft's session.
* Exceptions are values of one `Error` datatype: one constructor per
  exception class, each with its message.
* `LOAD` can call itself through a command file. A `depth` bound stands
  in for the Java call stack, and running out of it is the
  `StackOverflowError` that Java would throw.

Modules (one per file):

| module | models |
|---|---|
| `Base` | `Option`, `Result` and the exceptions of the program |
| `Text` | ASCII case mapping, `trim()`, `split("\\s+")`, `indexOf`, `split("\\s*,\\s*")` |
| `StateValue` | `State.java`: upper-cased name, `equals`, `hashCode`, `toString` |
| `Engine` | the `FSM` class of `src/FSMmain.java` (the draft's is the same) |
| `Handler` | `FSMCommandHandler` of `src/FSMmain.java` |
| `Logging` | `Logger` of `src/FSMmain.java` |
| `Snapshots` | `SerializableFSMState`, `toFSM` and the file-name check of `Serializer` |
| `CommandText` | tokenizers, sub-command splitting, statement gathering |
| `Processor` | `CommandProcessor` of `src/FSMmain.java` |
| `Interpreter` | `CommandInterpreter` and `main` of `src/FSMmain.java` |
| `DraftEngine` | `FSM.java`: reset/step/trace, `addTransition`, `clear`, `readCommandsFromFile` |
| `DraftCommands` | the handler, logger and `CommandProcessor` of the draft `FSMmain.java` |
| `DraftInterpreter` | `CommandInterpreter` and `main` of the draft `FSMmain.java` |

Where the prose description of the program and the code disagree, the
model follows the code:

* In `src/FSMmain.java`, `startREPL` does not catch an
  `InvalidCommandException` thrown by `processLine`. The exception leaves
  the REPL, and `main` prints it and ends the program
  (`Interpreter.CommandInterpreter.RunSession`).
* A TRANSITIONS sub-command typed at the console re-reads the line from
  its first upper-case `"TRANSITIONS"`. When the line spells the keyword
  in another letter case, that search fails and the sub-command crashes
  (`CommandText.LowerCaseTransitionsCrash`).
* Text that follows a semicolon on a console line is glued to the next
  line without a space (`CommandText.ReplGluesRemainder`).
* In a command file, a TRANSITIONS command reaches `processCommand` twice
  (`Processor.FileTransitionsTwice`).
* The draft's `traceFSM` (`FSM.java`) looks up the raw input character,
  but stored keys hold upper-cased symbols. So a trace never passes a
  lower-case letter (`DraftEngine.TraceStopsAtLowerCase`).

## Model

| member | source | states |
|---|---|---|
| Text.EqualsIgnoreCaseIffSameUpper | src/FSMmain.java:357-364 | two strings are equal ignoring case exactly when their upper-cased forms are equal |
| Text.Trim | src/FSMmain.java:1307-1313 | `String.trim()`: the result is empty or starts and ends with a character trim() keeps, and is no longer than the input |
| Text.TrimEmptyIffBlank | src/FSMmain.java:1307-1313 | trimming gives the empty string exactly for a string of whitespace only |
| Text.TrimIdempotent | src/FSMmain.java:1307-1313 | trimming a trimmed string changes nothing |
| Text.TrimKeeps | src/FSMmain.java:1307-1313 | trimming keeps every character that trim() may not remove |
| Text.TrimIsSlice | src/FSMmain.java:1307-1313 | `trim()` returns one contiguous slice `s[a..b]` of its input; every character before `a` and from `b` on is one that trim() removes |
| Text.Words | src/FSMmain.java:1307-1313 | every word is a non-empty run without whitespace |
| Text.SplitWs | src/FSMmain.java:1307-1313 | `s.trim().split("\\s+")`: at least one part; either the single empty string or words only |
| Text.Tokens | src/FSMmain.java:1307-1313 | every token the tokenizer keeps is a non-empty run without whitespace |
| Text.TokensEmptyIffBlank | src/FSMmain.java:999-1009 | a string yields no token exactly when it is blank |
| Text.WordsOfJoin | src/FSMmain.java:1362-1363 | splitting words joined by single spaces gives the words back |
| Text.IndexOf | src/FSMmain.java:861-916 | `indexOf(char)`: the first position of the character, or -1 when it does not occur |
| Text.IndexOfText | src/FSMmain.java:969 | `indexOf(String)`: the first position where the text starts (it starts at no earlier one), and -1 only when it starts nowhere |
| Text.CommaPieces | src/FSMmain.java:1362-1364 | at least one piece, and exactly one when the text holds no comma |
| Text.SplitCommas | src/FSMmain.java:1363 | `split("\\s*,\\s*")`: text without a comma is its own single part; otherwise no part holds a comma, the last part is not empty, and there are no more parts than pieces between commas |
| StateValue.NewState | State.java:8-10 | the stored name equals the given one ignoring case and holds no lower-case letter |
| StateValue.GetName | State.java:12-14 | the name returned is upper case |
| StateValue.ToString | State.java:30-33 | `toString()` is the text `getName()` returns |
| StateValue.HashCode | State.java:25-28 | `Objects.hash(name.toLowerCase())` in 32-bit signed arithmetic |
| StateValue.NameIsUpperCase | State.java:8-10 | whatever name is given, the state's name is upper case |
| StateValue.NewStateIgnoresCase | State.java:8-10 | names that differ only in case make equal states |
| StateValue.EqualsIdentityAndType | State.java:16-23 | `equals` holds for the same reference and fails for null and for objects that are not states |
| StateValue.EqualsComparesNames | State.java:16-23 | between distinct states, `equals` compares the names ignoring case |
| StateValue.EqualsMeansSameName | State.java:16-23 | the names of equal states differ only in case |
| StateValue.EqualsImpliesSameHash | State.java:25-28 | equal states have equal hash codes |
| Engine.Machine.AddSymbol | src/FSMmain.java:147-158 | accepts exactly one letter or digit not yet declared (ignoring case) and adds it upper-cased; a refusal changes nothing; validity is kept |
| Engine.Machine.AddState | src/FSMmain.java:161-175 | accepts a new alphanumeric name, appends it upper-cased, and makes the first state of an engine without one its initial and current state; a refusal changes nothing |
| Engine.Machine.SetInitialState | src/FSMmain.java:178-187 | declares the state if needed and makes it both initial and current; never fails |
| Engine.Machine.AddFinalState | src/FSMmain.java:190-201 | declares the state if needed and marks it final; fails, changing nothing, exactly when it was final already |
| Engine.Machine.AddTransition | src/FSMmain.java:203-233 | with the symbol and both states declared, maps (symbol, from) to `to`, replacing any earlier entry; otherwise changes nothing |
| Engine.Machine.SetCurrentState | src/FSMmain.java:281-289 | moves to a declared state and refuses any other |
| Engine.Machine.Step | src/FSMmain.java:235-270 | the destination for one input character, absent when the character is not a declared symbol or no entry exists |
| Engine.Machine.Run | src/FSMmain.java:235-270 | the states visited from a state, stopping at the first step that fails; never empty, at most one more than the input |
| Engine.Machine.Trace | src/FSMmain.java:235-270 | empty without an initial state, otherwise the run from the initial state |
| Engine.Empty | src/FSMmain.java:113-120 | a new engine declares nothing and has no initial or current state, and is valid |
| Engine.AddSymbolRefusesCaseDuplicate | src/FSMmain.java:147-158 | a symbol differing only in case from a declared one is refused and the engine is unchanged |
| Engine.AddStateRefusesCaseDuplicate | src/FSMmain.java:161-175 | a state differing only in case from a declared one is refused and the engine is unchanged |
| Engine.AddStatesKeepInitial | src/FSMmain.java:161-175 | once an initial state is set, adding states never changes it |
| Engine.AddTransitionIdempotent | src/FSMmain.java:203-233 | adding the same transition twice gives the same engine and result as adding it once |
| Engine.RunIsRun | src/FSMmain.java:235-270 | the computed run satisfies the independent definition of a run (each step follows the map, and it stops only where the input or the map ends) |
| Engine.RunIsUnique | src/FSMmain.java:235-270 | any sequence satisfying that definition is the computed run |
| Engine.TraceIsRunFromInitial | src/FSMmain.java:235-270 | the trace is empty exactly without an initial state, and otherwise it is the unique run from that state |
| Engine.RunStaysDeclared | src/FSMmain.java:235-270 | in a valid engine every state a run visits is declared |
| Engine.FSM.constructor | src/FSMmain.java:113-120 | a new engine object holds the empty engine |
| Engine.FSM.AddSymbol | src/FSMmain.java:147-158 | the fields and the result are those of `Machine.AddSymbol` |
| Engine.FSM.AddState | src/FSMmain.java:161-175 | the fields and the result are those of `Machine.AddState` |
| Engine.FSM.SetInitialState | src/FSMmain.java:178-187 | the fields and the result are those of `Machine.SetInitialState` |
| Engine.FSM.AddFinalState | src/FSMmain.java:190-201 | the fields and the result are those of `Machine.AddFinalState` |
| Engine.FSM.AddNextState | src/FSMmain.java:291-293 | the same as `addFinalState` |
| Engine.FSM.AddTransition | src/FSMmain.java:203-233 | the fields and the result are those of `Machine.AddTransition` |
| Engine.FSM.SetCurrentState | src/FSMmain.java:281-289 | the fields and the result are those of `Machine.SetCurrentState` |
| Engine.FSM.Clear | src/FSMmain.java:272-279 | the engine becomes the empty engine |
| Engine.FSM.Execute | src/FSMmain.java:235-270 | returns the trace of the engine and changes no field |
| Engine.FSM.TraceFSM | src/FSMmain.java:295-297 | returns the same trace as `execute` |
| Handler.HandleSymbols | src/FSMmain.java:394-414 | SYMBOLS changes only the symbol set, which only grows; a valid engine stays valid; the only exception is `InvalidSymbolException` |
| Handler.HandleStates | src/FSMmain.java:417-424 | STATES changes only the state list, which only grows at its end, and, when the engine had no states, the initial and current state; a valid engine stays valid; the only exception is `InvalidStateException` |
| Handler.SymbolProblem | src/FSMmain.java:394-414 | a token yields no message exactly when it is a single letter or digit |
| Handler.SymbolsAddsAllValid | src/FSMmain.java:394-414 | SYMBOLS adds every valid token whatever invalid ones surround it, changes nothing else, and reports an error exactly when some token is not one letter or digit |
| Handler.StatesStopAtFirstBad | src/FSMmain.java:417-424 | STATES adds exactly the tokens before the first bad one and fails exactly when there is one, naming it |
| Handler.HandleInitialState | src/FSMmain.java:426-430 | INITIAL-STATE never throws and leaves the named state initial and current |
| Handler.HandleFinals | src/FSMmain.java:432-438 | FINAL-STATES keeps the engine valid and changes neither the symbols nor the transitions |
| Handler.FinalsSucceedIffFresh | src/FSMmain.java:432-438 | FINAL-STATES succeeds exactly when no token names a state already final or named earlier (ignoring case); then every named state is final |
| Handler.FinalsStopAtFirstRepeat | src/FSMmain.java:432-438 | when FINAL-STATES fails, it failed at the first token that repeats a final state (already final or named earlier, ignoring case); the states named before it stay final, and the exception names that token |
| Handler.HandleTransitions | src/FSMmain.java:440-455 | TRANSITIONS changes only the transition map and keeps the engine valid and its state fields in step |
| Handler.TransitionParts | src/FSMmain.java:442-449 | a transition text gives its symbol, source and target exactly when it splits into three words |
| Handler.TransitionsAreWrites | src/FSMmain.java:440-455 | TRANSITIONS overwrites the map with writes that do not depend on the old map |
| Handler.TransitionsErrorIgnoresMap | src/FSMmain.java:440-455 | the error TRANSITIONS reports does not depend on the transition map |
| Handler.TransitionsTwiceIsOnce | src/FSMmain.java:440-455 | running the same TRANSITIONS twice gives the engine and error of running it once |
| Handler.Verdict | src/FSMmain.java:471-496 | YES exactly when the last state is final, otherwise NO |
| Handler.ExecuteReport | src/FSMmain.java:471-496 | `InvalidInputException` exactly for empty input; without a current state, "Error: FSM is not initialized properly."; with a current but no initial state, "Error: Execution failed."; with both state fields set, the trace from the initial state, each state followed by a space, then the verdict on its last state |
| Handler.ExecuteAfterClear | src/FSMmain.java:471-479 | on the empty engine left by CLEAR, EXECUTE with input answers "Error: FSM is not initialized properly." |
| Handler.ExecuteReportsRun | src/FSMmain.java:471-496 | with the current state at the initial one, EXECUTE reports the unique run from the initial state, even one that halted early, ending in YES exactly when its last state is final |
| Handler.IsAcceptedState | src/FSMmain.java:498-500 | in a valid engine, a state is accepted exactly when it equals a final state ignoring case |
| Handler.FSMCommandHandler.constructor | src/FSMmain.java:381-383 | the handler works on the given engine |
| Handler.FSMCommandHandler.SetFSM | src/FSMmain.java:390-392 | the handler now works on the given engine |
| Handler.FSMCommandHandler.HandleSymbolsCommand | src/FSMmain.java:394-414 | the engine and the exception are those of the SYMBOLS fold |
| Handler.FSMCommandHandler.HandleStatesCommand | src/FSMmain.java:417-424 | the engine and the exception are those of the STATES fold |
| Handler.FSMCommandHandler.HandleInitialStateCommand | src/FSMmain.java:426-430 | the engine is that of `HandleInitialState` |
| Handler.FSMCommandHandler.HandleFinalStatesCommand | src/FSMmain.java:432-438 | the engine and the exception are those of `HandleFinals` |
| Handler.FSMCommandHandler.HandleTransitionsCommand | src/FSMmain.java:440-455 | the engine and the exception are those of `HandleTransitions` |
| Handler.FSMCommandHandler.ExecuteFSM | src/FSMmain.java:471-496 | returns `ExecuteReport` of the engine and changes nothing |
| Handler.FSMCommandHandler.IsAccepted | src/FSMmain.java:498-500 | returns `IsAcceptedState` of the engine |
| Logging.Logger.constructor | src/FSMmain.java:593-595 | logging starts off, with no lines written |
| Logging.Logger.StopLogging | src/FSMmain.java:618-631 | logging ends; the message says whether it was on |
| Logging.Logger.StartLogging | src/FSMmain.java:597-616 | closes any open log, then logs to a writable file (with an empty log) or reports a read-only one and leaves logging off |
| Logging.Logger.Log | src/FSMmain.java:633-648 | with logging on, appends the command and the response; with logging off, changes nothing |
| Snapshots.Snapshot.ToFSM | src/FSMmain.java:767-813 | fails exactly when some transition entry names an undeclared symbol or state, with that entry's exception; otherwise the new engine is valid, holds the valid symbols and the final states upper-cased, and rebuilds a well-formed snapshot exactly |
| Snapshots.AddSymbolsOf | src/FSMmain.java:770-773 | the symbol loop adds every single letter or digit of the snapshot, upper-cased, and changes nothing else |
| Snapshots.AddStatesOf | src/FSMmain.java:775-778 | the state loop declares exactly the alphanumeric states, upper-cased; the engine has an initial state exactly when it has states, and an existing one is kept |
| Snapshots.AddFinalsOf | src/FSMmain.java:785-788 | the final-state loop marks every final state final, upper-cased, declaring it if needed |
| Snapshots.AddTransitionsOf | src/FSMmain.java:790-810 | the transition loop changes only the map; it fails only with the exception of an entry naming an undeclared symbol or state; on a well-formed snapshot the map becomes the snapshot's |
| Snapshots.SnapshotRoundTrip | src/FSMmain.java:751-765 | the snapshot `Capture` takes of a consistent engine is well-formed; rebuilding it restores the symbols, states, final states and transitions, and both state fields become the original current state |
| Snapshots.CheckFileName | src/FSMmain.java:665-672 | refuses exactly a blank name ("cannot be null or empty") or a one-line name with a character of `\ / : * ? " < > \|` |
| Snapshots.AcceptedNameHasNoSeparator | src/FSMmain.java:665-672 | an accepted one-line name holds no path separator |
| CommandText.TokenizeTransitionLine | src/FSMmain.java:1012-1037 | the interpreter's TRANSITIONS tokenizer gives no tokens exactly for blank text |
| CommandText.TokenizeTransitionFile | src/FSMmain.java:1283-1304 | the processor's TRANSITIONS tokenizer: blank text gives one empty token |
| CommandText.TransitionTokensJoinRest | src/FSMmain.java:1012-1037 | on text without control characters, both TRANSITIONS tokenizers keep the first word and pass the remaining words, joined by single spaces, as one token |
| CommandText.CommandStarts | src/FSMmain.java:917-996 | the sub-command starts begin at position 0 and strictly increase within the tokens |
| CommandText.FindCommandStarts | src/FSMmain.java:917-996 | the start-index loop computes exactly those positions |
| CommandText.SubCommandsPartition | src/FSMmain.java:917-996 | the sub-commands cover the tokens in order; each after the first starts with a command name, and no command name occurs anywhere else |
| CommandText.LineSteps | src/FSMmain.java:917-996 | one step per sub-command of the line |
| CommandText.SubCommandStepCases | src/FSMmain.java:955-993 | `SubCommandStep`: EXIT ends the line; TRANSITIONS crashes with an index error exactly when the line holds no exact "TRANSITIONS"; LOAD is skipped exactly when it has no argument; any other command is handed on unchanged |
| CommandText.LineStepsSliced | src/FSMmain.java:917-996 | the steps of a line, one per command start, and none for a blank line |
| CommandText.LowerCaseTransitionsCrash | src/FSMmain.java:917-996 | on a line without upper-case letters, a TRANSITIONS sub-command crashes and runs nothing |
| CommandText.TransitionsTakeRestOfLine | src/FSMmain.java:917-996 | a TRANSITIONS sub-command passes everything from the line's first "TRANSITIONS" to the end of the line |
| CommandText.SplitIntoSeparateCommands | src/FSMmain.java:1224-1280 | the splitting loop returns exactly the commands of the splitting function |
| CommandText.SeparateCommandsWellSplit | src/FSMmain.java:1224-1280 | every split command is non-empty and either ends with a semicolon or is trimmed |
| CommandText.SeparateCommandsWithoutSemicolon | src/FSMmain.java:1224-1280 | `SeparateCommands` on a line without semicolons returns the sub-commands `processLine` finds among the line's tokens, each as its words joined by single spaces: none for a blank line, and no word lost, reordered or altered |
| CommandText.CommandBody | src/FSMmain.java:1160-1221 | the text run for a split command is trimmed |
| CommandText.FileCommandCalls | src/FSMmain.java:1160-1221 | at most two calls are made for one command, and a second call is always a TRANSITIONS call |
| CommandText.FileCommandCallsCases | src/FSMmain.java:1160-1221 | those calls, case by case |
| CommandText.MissingSemicolonRunsAsTerminated | src/FSMmain.java:1172-1188 | a command reported for its missing semicolon (`SemicolonMissing`) still runs, with the same body and the same calls as the command with its semicolon written |
| CommandText.TransitionsCallsAgree | src/FSMmain.java:1160-1221 | the two calls for a TRANSITIONS command carry the same transition text when it has no control characters |
| CommandText.FileStatementsShape | src/FSMmain.java:1104-1157 | `FileStatements`, the gathering of a command file: at most one statement per line, and every statement holds a semicolon, the unterminated tail included |
| CommandText.OneStatementPerTerminatedLine | src/FSMmain.java:1104-1157 | when every non-blank line holds a semicolon, each such line, trimmed, is one statement |
| CommandText.LoadStatementsHaveNoSemicolon | src/FSMmain.java:1043-1088 | no statement of the start-up file holds a semicolon |
| CommandText.OneLoadStatementPerSemicolonLine | src/FSMmain.java:1043-1088 | `LoadStatementsFrom`, the start-up file's gathering: exactly one statement per line that holds a semicolon |
| CommandText.ReplStep | src/FSMmain.java:861-916 | a statement a console line completes is non-empty and trimmed |
| CommandText.ReplStatementsTrimmed | src/FSMmain.java:861-916 | `ReplStatements`, the console's gathering: at most one statement per line, each non-empty and trimmed |
| CommandText.ReplStepAtSemicolon | src/FSMmain.java:861-916 | a line with a semicolon runs the buffer and the text before it, and keeps the text after it as the new buffer |
| CommandText.ReplGluesRemainder | src/FSMmain.java:861-916 | text after a semicolon is glued to the next line without a space |
| CommandText.ReplLastLine | src/FSMmain.java:861-916 | a last line `z;w` runs the buffer glued to `z` |
| Processor.EngineStep | src/FSMmain.java:1315-1421 | an engine command keeps a valid engine valid; a query returns only for the bare keyword and changes nothing; PRINT and EXECUTE change nothing; an unknown keyword throws "Invalid command: " with it and changes nothing |
| Processor.CompileStep | src/FSMmain.java:1378-1388 | COMPILE throws exactly when it has not one argument; files change only for an accepted name, which then holds the engine's snapshot with "Compile successful"; no file is removed and no other file changes |
| Processor.LogStep | src/FSMmain.java:1423-1430 | LOG throws exactly for more than one argument and then changes nothing; otherwise logging is on afterwards exactly when a writable file is named, with an empty log; stopping keeps the lines written |
| Processor.Record | src/FSMmain.java:1431-1446 | the log grows exactly when it is open, the command is not LOG and the outcome is logged; it then gains the line "> " + the command with a semicolon, and the response |
| Processor.Reported | src/FSMmain.java:1442-1448 | every exception leaves `processCommand` as `InvalidCommandException` with its message; a stack overflow passes unchanged |
| Processor.StatesErrorKind | src/FSMmain.java:417-424 | STATES fails only with `InvalidStateException` |
| Processor.FinalsErrorKind | src/FSMmain.java:432-438 | FINAL-STATES fails only with `InvalidStateException` |
| Processor.TransitionsErrorKind | src/FSMmain.java:440-455 | TRANSITIONS fails only with `TransitionException` |
| Processor.EngineArityRule | src/FSMmain.java:1323-1432 | an engine command is refused before it acts exactly when its name is unknown or INITIAL-STATE or EXECUTE lacks exactly one argument; a refusal changes nothing |
| Processor.QueriesChangeNothing | src/FSMmain.java:1324-1360 | only the four queries return from inside the switch; they change nothing and are never logged |
| Processor.FileTransitionsTwice | src/FSMmain.java:1160-1221 | a command file's TRANSITIONS reaches the engine twice, with the same transitions, and the second call changes nothing more |
| Processor.TransitionsStep | src/FSMmain.java:1358-1365 | TRANSITIONS alone is the query; with arguments it runs the handler on the comma-separated texts |
| Processor.CompileThenLoad | src/FSMmain.java:1378-1409 | after COMPILE of a consistent engine, the file holds a well-formed snapshot, and LOAD of it restores the engine's sets and map |
| Processor.RunEngineCommand | src/FSMmain.java:1323-1421 | the engine cases of the switch change the engine and answer as the engine step function says |
| Processor.CommandProcessor.constructor | src/FSMmain.java:1098-1103 | a new processor holds an empty engine with a handler on it |
| Processor.CommandProcessor.Compile | src/FSMmain.java:1378-1388 | COMPILE writes the snapshot of the engine to an accepted file name, or answers with the refusal |
| Processor.CommandProcessor.LogCommand | src/FSMmain.java:1423-1430 | LOG alone stops logging, with one file starts it, and with more arguments is refused |
| Processor.CommandProcessor.LoadCompiled | src/FSMmain.java:1396-1400 | the rebuilt engine and a new handler replace the old ones, or the deserializer's error is reported and nothing changes |
| Processor.CommandProcessor.LoadSnapshot | src/FSMmain.java:693-740 | the engine rebuilt from a snapshot replaces the current one unless an entry is invalid |
| Processor.CommandProcessor.NextFileStatement | src/FSMmain.java:1104-1157 | one line of a command file moves its completed statement, if any, from what remains to what has run |
| Processor.CommandProcessor.LoadTextFile | src/FSMmain.java:1104-1157 | a missing file is an `InvalidCommandException`; otherwise the file's statements are run in order until one overflows the stack |
| Processor.CommandProcessor.RunFileLines | src/FSMmain.java:1104-1157 | the lines of a command file are run statement by statement until one overflows the stack |
| Processor.CommandProcessor.Load | src/FSMmain.java:1390-1409 | LOAD needs one file name; a ".fs" name is deserialized, any other is run as a command file |
| Processor.CommandProcessor.RecordOutcome | src/FSMmain.java:1434-1446 | a command that ran is logged with its response, unless it is LOG or logging is off |
| Processor.CommandProcessor.ProcessCommand | src/FSMmain.java:1315-1450 | an empty command is refused; otherwise each command changes the engine, files and log as its step function says, and the result is that of `Reported` |
| Processor.CommandProcessor.RunFileCommand | src/FSMmain.java:1160-1221 | one split command makes the calls `FileCommandCalls` lists, in order, until one fails |
| Processor.CommandProcessor.RunStatement | src/FSMmain.java:1160-1221 | a statement of a command file stops the file only by overflowing the stack |
| Processor.CommandProcessor.ProcessFileCommand | src/FSMmain.java:1160-1221 | the statement is split as the splitting function says; every command makes its planned calls until one fails, and a failing call ends only its own command; only a stack overflow escapes, and it ends the statement at the command that overflowed |
| Interpreter.NoExitAppend | src/FSMmain.java:1039-1042 | statements hold no EXIT exactly when the earlier ones and the new one hold none |
| Interpreter.CommandInterpreter.constructor | src/FSMmain.java:850-856 | a new interpreter is running, with a new processor on the given disk and logger |
| Interpreter.CommandInterpreter.Call | src/FSMmain.java:969-993 | a command handed to `processCommand` keeps the interpreter valid, leaves the engine the same object or a new one, and fails only with `InvalidCommandException` or a stack overflow |
| Interpreter.CommandInterpreter.RunSubCommand | src/FSMmain.java:917-996 | one sub-command: EXIT closes the log and stops the loop; TRANSITIONS re-reads the rest of the line and crashes when it is not there; LOAD without a file name is skipped |
| Interpreter.CommandInterpreter.ProcessLine | src/FSMmain.java:917-996 | the sub-commands of a statement run in order until EXIT or a failure; the failure is that of the step where it stopped |
| Interpreter.CommandInterpreter.RunSubCommands | src/FSMmain.java:917-996 | the loop over the command starts runs the steps in order until EXIT or a failure |
| Interpreter.CommandInterpreter.NextReplCommand | src/FSMmain.java:861-916 | one console line moves its completed statement, if any, from what remains to what has run |
| Interpreter.CommandInterpreter.RunReplLines | src/FSMmain.java:861-916 | the statements run are a prefix of the console's statements: all of them, each run through, when the REPL neither stops nor fails; the last one ends with EXIT when it stops; the last one is the one that threw when it fails, and then the running flag is unchanged |
| Interpreter.CommandInterpreter.StartRepl | src/FSMmain.java:861-916 | the REPL runs a prefix of the console's statements, ending at the EXIT or at the statement that threw, or running all of them through; it closes the log however it ends |
| Interpreter.CommandInterpreter.NextLoadStatement | src/FSMmain.java:1043-1088 | one line of the start-up file moves its completed statement, if any, to what has run |
| Interpreter.CommandInterpreter.HandleLoadCommand | src/FSMmain.java:1043-1088 | a missing start-up file runs nothing; otherwise every statement runs, and only a stack overflow stops the file; EXIT only clears `running` |
| Interpreter.CommandInterpreter.RunSession | src/FSMmain.java:1473-1494 | the start-up file's statements run first, all of them unless one crashed, then the console's; only a stack overflow or a crash of TRANSITIONS ends the program, and the crash is that of the last statement run; a REPL `InvalidCommandException` ends it with "Error: " and its message; an EXIT in the start-up file skips the REPL; otherwise the REPL ends at an EXIT or after all statements; once the REPL has started the log ends closed, even after a crash there, and only a crash of the start-up file can leave it open |
| DraftEngine.StepFrom | FSM.java:75-80 | `stepFSM` moves only from a state, along a stored entry for that state and symbol, to a stored target |
| DraftEngine.TraceStart | FSM.java:69-73 | `resetFSM` before a trace: the initial state when there is one, else the current state unchanged; a declared start when both are declared |
| DraftEngine.Visit | FSM.java:82-94 | the recorded states start at the given state and number at most one more than the input characters |
| DraftEngine.VisitIsTrace | FSM.java:82-94 | the recorded states satisfy the independent definition of a trace |
| DraftEngine.TraceStopsAtLowerCase | FSM.java:82-94 | with upper-cased keys, a trace never consumes a lower-case letter |
| DraftEngine.LowerCaseFirstGoesNowhere | FSM.java:82-94 | an input starting with a lower-case letter records only the starting state |
| DraftEngine.StoredTransitionIsFollowed | FSM.java:117-130 | after a transition is stored, a trace from its state on its symbol reaches its destination |
| DraftEngine.DraftFSM.constructor | FSM.java:61-67 | a new engine has empty sets and map and no initial or current state |
| DraftEngine.DraftFSM.ResetFSM | FSM.java:69-73 | fails exactly without an initial state, leaving the current state; otherwise the current state becomes the initial one |
| DraftEngine.DraftFSM.StepFSM | FSM.java:75-80 | succeeds exactly when an entry exists for the current state and symbol, and then moves along it; otherwise changes nothing |
| DraftEngine.DraftFSM.TraceFSM | FSM.java:82-94 | returns the trace from where a reset leaves the engine, and leaves the engine in its last state |
| DraftEngine.DraftFSM.Clear | FSM.java:107-114 | every set and the map are emptied, and there is no initial or current state |
| DraftEngine.DraftFSM.AddTransition | FSM.java:117-130 | succeeds exactly when the upper-cased symbol and both states are declared, and then stores the upper-cased entry; the stored-key invariant is kept |
| DraftEngine.SkippedIsTrimTest | FSM.java:280-334 | a line is skipped exactly when, trimmed, it is empty or starts with a semicolon |
| DraftEngine.ReadLine | FSM.java:280-334 | a completed command ends with its semicolon |
| DraftEngine.CommandsOf | FSM.java:280-334 | the commands of a file, or a file error when text is left unterminated |
| DraftEngine.CommandsOfFailsIffPending | FSM.java:280-334 | the reader refuses the file exactly when text is pending at its end, and the message is "Command at the end of file missing semicolon: " with that text; text is pending exactly when the initial text is never completed, or a line is left open that no later line completes |
| DraftEngine.CommandsFromStartFail | FSM.java:280-334 | a file read from the start is refused exactly when some line is left open that no later line completes, with the pending text in the message |
| DraftEngine.CommandsEndWithSemicolon | FSM.java:280-334 | every command read ends with its semicolon |
| DraftEngine.CutAfterSemicolon | FSM.java:280-334 | text after the first semicolon of a line never changes the commands read |
| DraftEngine.SkippedLineIgnored | FSM.java:280-334 | a blank or comment line anywhere in the file changes nothing |
| DraftEngine.ScanLine | FSM.java:280-334 | the character loop on one line gives what `ReadLine` describes |
| DraftEngine.ReadCommandsFromFile | FSM.java:280-334 | the reading loop returns the commands `CommandsOf` describes, or its error |
| DraftCommands.DraftSymbols | FSMmain.java:383-390 | the draft SYMBOLS changes only the symbol set, which only grows, and keeps a valid engine valid |
| DraftCommands.DraftSymbolsStopAtFirstBad | FSMmain.java:383-390 | the draft SYMBOLS adds exactly the tokens before the first bad one and fails exactly when there is one, naming it |
| DraftCommands.DraftSymbolsAgreeOnValid | FSMmain.java:383-390 | on tokens that are all symbols, the draft and the finished SYMBOLS agree |
| DraftCommands.DraftSymbolsErrorKind | FSMmain.java:383-390 | the draft SYMBOLS fails only with `InvalidSymbolException` |
| DraftCommands.DraftExecuteReport | FSMmain.java:440-452 | empty input is refused exactly; with input but no initial state, `trace.get(-1)` fails |
| DraftCommands.DraftExecuteReportsRun | FSMmain.java:440-452 | the draft EXECUTE reports the run from the initial state with YES exactly when its last state is final, and agrees with the finished EXECUTE when both state fields are set |
| DraftCommands.DraftHandleSymbolsCommand | FSMmain.java:383-390 | the engine and the exception are those of the draft SYMBOLS fold |
| DraftCommands.DraftExecuteFSM | FSMmain.java:440-452 | returns the draft report and changes nothing |
| DraftCommands.DraftEngineStep | FSMmain.java:916-1002 | as in the finished program: a valid engine stays valid, a query returns only for the bare keyword and changes nothing, PRINT and EXECUTE change nothing, an unknown keyword is refused with nothing changed |
| DraftCommands.DraftCompileStep | FSMmain.java:972-977 | the draft COMPILE throws exactly when it has not one argument or the name is refused; otherwise the name holds the engine's snapshot with "Compile successful"; no file is removed and no other file changes |
| DraftCommands.DraftEngineArityRule | FSMmain.java:910-1013 | an engine command of the draft is refused exactly when its name is unknown or INITIAL-STATE or EXECUTE lacks exactly one argument; a refusal changes nothing |
| DraftCommands.DraftCompileMatchesFinished | FSMmain.java:972-977 | the draft COMPILE writes the same file as the finished one and throws where the finished one answers with "Error =" |
| DraftCommands.DraftLoadResult | FSMmain.java:979-992 | a compiled file loads in the draft exactly when it does in the finished program; otherwise the draft throws what the finished one reports |
| DraftCommands.DraftTextLoad | FSMmain.java:516-540 | reading a text file succeeds exactly when it exists, and otherwise throws `FileOperationException` |
| DraftCommands.DraftLogNeverThrows | FSMmain.java:1004-1009 | `DraftLogStep`, the draft LOG, never fails, and logging is on afterwards exactly when it started logging to its first argument |
| DraftCommands.DraftLogger.constructor | FSMmain.java:543-545 | logging starts off |
| DraftCommands.DraftLogger.StopLogging | FSMmain.java:563-576 | logging ends; the message says whether it was on |
| DraftCommands.DraftLogger.StartLogging | FSMmain.java:547-561 | logs to a writable file, or reports a read-only one and leaves logging off |
| DraftCommands.DraftProcessor.constructor | FSMmain.java:903-908 | a new processor holds an empty engine with a handler on it |
| DraftCommands.DraftProcessor.EngineCommand | FSMmain.java:916-1002 | the engine cases change the engine and answer as the draft engine step says |
| DraftCommands.DraftProcessor.Compile | FSMmain.java:972-977 | the files and the answer are those of the draft COMPILE step |
| DraftCommands.DraftProcessor.LogCommand | FSMmain.java:1004-1009 | the log file and the answer are those of the draft LOG step |
| DraftCommands.DraftProcessor.LoadCompiled | FSMmain.java:984-988 | the rebuilt engine replaces the old one, or the deserializer's error is thrown and nothing changes |
| DraftCommands.DraftProcessor.Load | FSMmain.java:979-992 | LOAD needs one file name; a ".fs" name is deserialized; any other file is only read, and none of its commands run |
| DraftCommands.DraftProcessor.ProcessCommand | FSMmain.java:910-1018 | an empty command is refused; each command changes the engine, files and log as its step says; every exception is rethrown as `InvalidCommandException` |
| DraftInterpreter.Print | FSMmain.java:856 | printing appends one line to standard output and extends the session |
| DraftInterpreter.PrintError | FSMmain.java:874 | printing an error appends one line to standard error and extends the session |
| DraftInterpreter.StatementsAreTrimmed | FSMmain.java:798-819 | every statement `Statements` gathers from the lines is trimmed |
| DraftInterpreter.TextAfterSemicolonIgnored | FSMmain.java:859-876 | whatever follows the first semicolon of a line is ignored |
| DraftInterpreter.UnfinishedTailIgnored | FSMmain.java:859-876 | trailing lines without a semicolon complete no statement, so an unfinished statement never runs |
| DraftInterpreter.StatementHasKeyword | FSMmain.java:820-823 | a non-empty trimmed statement has a first token, so the keyword lookup stays in range |
| DraftInterpreter.LineFailures | FSMmain.java:820-846 | `LineOutcome`: a trimmed statement throws only `InvalidCommandException` or overflows the stack |
| DraftInterpreter.LoadFailures | FSMmain.java:859-876 | `LoadOutcome`: a LOAD passes on nothing but a stack overflow |
| DraftInterpreter.RunFailures | FSMmain.java:859-876 | `RunStatements`: the statements of a file pass on only `InvalidCommandException` or a stack overflow |
| DraftInterpreter.LineExtends | FSMmain.java:820-846 | a statement only extends the session: output stays printed and a stopped REPL stays stopped |
| DraftInterpreter.CommandExtends | FSMmain.java:820-846 | `CommandOutcome`: each command only extends the session |
| DraftInterpreter.LoadExtends | FSMmain.java:859-876 | a LOAD only extends the session |
| DraftInterpreter.RunExtends | FSMmain.java:859-876 | running a file's statements only extends the session |
| DraftInterpreter.ReplExtends | FSMmain.java:798-819 | the REPL only extends the session |
| DraftInterpreter.OnlyKeywordsAccepted | FSMmain.java:824-845 | a statement throws "Invalid command: " with its keyword exactly when the keyword is not EXIT, LOAD, EXECUTE, LOG or CLEAR |
| DraftInterpreter.RunStatementsAppend | FSMmain.java:859-876 | a file's statements split anywhere run as the first part and then, if that completed, the second; nothing runs after a throw |
| DraftInterpreter.ReplAppend | FSMmain.java:798-819 | the REPL split anywhere runs as the first part and then the second; once EXIT has stopped it nothing more runs |
| DraftInterpreter.ProgramCrashesOnlyOnOverflow | FSMmain.java:1030-1051 | `ProgramOutcome`: the program ends with an exception only when nested LOADs overflow the stack |
| DraftInterpreter.StartupFailures | FSMmain.java:1038-1043 | loading the start-up file passes on nothing but a stack overflow |
| DraftInterpreter.ReplFailures | FSMmain.java:798-819 | `ReplOutcome`: the REPL throws only `InvalidCommandException` or overflows the stack |
| DraftInterpreter.DraftCommandInterpreter.constructor | FSMmain.java:795-796 | a new interpreter is running and has printed nothing |
| DraftInterpreter.DraftCommandInterpreter.ProcessLine | FSMmain.java:820-846 | the session and the exception are those of `LineOutcome` |
| DraftInterpreter.DraftCommandInterpreter.HandleLoadCommand | FSMmain.java:859-876 | the session and the exception are those of `LoadOutcome` |
| DraftInterpreter.DraftCommandInterpreter.ReadFile | FSMmain.java:863-872 | the reading loop runs the file's statements as `RunStatements` does |
| DraftInterpreter.DraftCommandInterpreter.StartRepl | FSMmain.java:798-819 | the session and the exception are those of `ReplOutcome` |
| DraftInterpreter.RunDesigner | FSMmain.java:1030-1051 | the printed lines and the exception that ends the program are those of `ProgramOutcome` |

## Left out

- Case mapping is ASCII only. `Text.Upper`, `Text.Lower`,
  `Text.EqualsIgnoreCase` and `CommandText.IsKeyword` stand for Java's
  `toUpperCase`, `toLowerCase` and `equalsIgnoreCase`, whose Unicode
  mappings (for instance of `ß` or the dotless `ı`) are not modelled.
- Console prompts (`? `) are not modelled. Neither is the text of the
  finished program's console output: the replies `processLine` prints and
  the `handlePrintCommand` listing. The draft's session keeps its printed
  lines; the finished program's replies are the values `processCommand`
  returns.
- The draft's console output outside its session is not modelled either:
  the warnings of the draft `FSM` class (FSMmain.java:141-273), the draft
  `handlePrintCommand` listing (FSMmain.java:432-436) and the draft
  `CommandProcessor`'s "Processing: " line (FSMmain.java:532). The draft
  never creates its `CommandProcessor`, so none of that output can appear.
- The banner's date and time come from the clock. They are a parameter
  of the draft's `main`; the finished `main` does not model the banner,
  nor `GitVersion`, which reads a properties file.
- Query replies (`getSymbols().toString()` and the like) are kept as the
  collection itself. The order of a Java hash set is not modelled.
- `LOAD` through nested command files is bounded by a `depth` parameter.
  Running out of depth stands for the `StackOverflowError` of the Java
  call stack; the real stack size is not modelled.
- File contents are abstract. A compiled file holds the snapshot itself,
  not Java serialization bytes. A text file holds its lines.
  A compiled file named without ".fs" and loaded with LOAD is read as a
  command file with no lines, so nothing runs and nothing is logged; Java
  feeds the serialization bytes to the text loader, whose pieces between
  semicolons each fail and are reported.
  - Not modelled: I/O failures while reading or writing; `canRead`;
    missing parent directories; security exceptions; a compiled file
    read as a different class.
  - Messages of the operating system appear only where the program
    prints them, as fixed text.
  - Reading a command script as a compiled file gives the fixed message
    "invalid stream header". Java's `StreamCorruptedException` message
    also shows the file's first four bytes in hex, and a file shorter
    than four bytes raises an `EOFException` instead. Files hold no bytes
    in this model, so neither is modelled.
- `PRINT <file>` (`writeToFile`) writes the engine to a file, and the
  model does not keep that file.
- `saveFSM` and `loadFSM` in `FSM.java` do nothing, and are left out.
- Lines 136-169 of `FSM.java` (`addState`, `addSymbol` and the
  `Transition` class there) do not compile and are not modelled. The
  `Transition` class of `src/FSMmain.java` is not used by the engine.
- The draft `Logger`'s `log` is never called, and its close errors come
  from I/O. Both are left out.
- The draft `startREPL`'s `IOException` path comes from console I/O and is
  not modelled.
- Interpreter.CommandInterpreter.Call: states only what can escape
  `processCommand`, and that the engine is the same object or a new one.
  It does not state the engine's new state, which
  `Processor.CommandProcessor.ProcessCommand` states for each command.
- Interpreter.CommandInterpreter.ProcessLine: states the steps taken and
  the failure. Like `Call`, it leaves the engine's new state to
  `Processor.CommandProcessor.ProcessCommand`.
- Interpreter.CommandInterpreter.HandleLoadCommand: states which
  statements ran and how the file ended, not the resulting engine.
- Interpreter.CommandInterpreter.RunSession: states how the program ends
  and which statements ran, not the resulting engine. When the start-up
  file crashes, it states only that the crash is a stack overflow, not
  which of its statements ran.
- Processor.CommandProcessor.ProcessFileCommand: states the calls made
  for each command and what they returned, not the engine after them.
- Processor.CommandProcessor.ProcessCommand: for LOAD of a command file,
  states how the load ended, not the resulting engine, files or log.
- Processor.CommandProcessor.Load: for a command file, states how the
  load ended, not the resulting engine.
- Processor.CommandProcessor.LoadTextFile: states which statements ran
  and how the file ended, not the resulting engine.
- Processor.CommandProcessor.RunFileLines: states which statements ran,
  not the resulting engine.
- CommandText.SeparateCommandsWithoutSemicolon: the content of the split
  is stated only for lines without a semicolon and without control
  characters. With semicolons, only the shape is stated
  (`CommandText.SeparateCommandsWellSplit`): each command is non-empty and
  either ends with a semicolon or is trimmed.
