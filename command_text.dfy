/**
 * The text layer between the console or a command file and `processCommand`:
 * the command keywords, the TRANSITIONS tokenizers, the splitting of one line
 * into sub-commands at keywords (`processLine`) and at semicolons
 * (`splitIntoSeparateCommands`), the calls `processFileCommand` plans for one
 * command, and the way `startREPL`, `handleLoadCommand` and
 * `handleLoadFromTextFile` gather physical lines into statements.
 *
 * The plain whitespace tokenizer (`tokenizeCommand`, both copies) is
 * `Text.Tokens`.
 */
module CommandText {
  import opened Base
  import opened Text
  import opened Handler

  /** The twelve command names. */
  const Keywords: seq<string> := [
    "SYMBOLS", "STATES", "INITIAL-STATE", "FINAL-STATES", "TRANSITIONS", "PRINT",
    "COMPILE", "LOAD", "EXECUTE", "CLEAR", "LOG", "EXIT"
  ]

  /** `u` is one of the first `n` command names. */
  predicate KeywordIn(u: string, n: nat)
    requires n <= |Keywords|
    decreases n
  {
    n > 0 && (Keywords[n - 1] == u || KeywordIn(u, n - 1))
  }

  /** A token that names a command, in any case. */
  predicate IsKeyword(token: string) { KeywordIn(Upper(token), |Keywords|) }

  /** Text in which every character trim() removes is whitespace. */
  predicate NoControlChars(s: string)
  {
    forall i :: 0 <= i < |s| ==> IsTrimmable(s[i]) ==> IsSpace(s[i])
  }

  // -----------------------------------------------------------------------
  // The TRANSITIONS tokenizers

  /** The tokens both TRANSITIONS tokenizers make of the split `parts`: the
      first part, then the other parts, each followed by a space, trimmed, as
      one token unless that is empty. */
  function TransitionTokens(parts: seq<string>): (ts: seq<string>)
    requires |parts| >= 1
    ensures 1 <= |ts| <= 2 && ts[0] == parts[0]
  {
    var rest := Trim(Spaced(parts[1..]));
    [parts[0]] + (if rest != "" then [rest] else [])
  }

  /** `CommandInterpreter.tokenizeTransitionCommand`: no tokens for blank text. */
  function TokenizeTransitionLine(input: string): (ts: seq<string>)
    ensures ts == [] <==> IsBlank(input)
  {
    if IsBlank(input) then [] else TransitionTokens(SplitWs(input))
  }

  /** `CommandProcessor.tokenizeTransitionCommand`: it has no blank check, so
      blank text gives the single empty token. */
  function TokenizeTransitionFile(input: string): (ts: seq<string>)
    ensures IsBlank(input) ==> ts == [""]
  {
    TrimEmptyIffBlank(input);
    TransitionTokens(SplitWs(input))
  }

  /** A non-empty string with no character trim() removes. */
  predicate Solid(w: string)
  {
    w != [] && forall j :: 0 <= j < |w| ==> !IsTrimmable(w[j])
  }

  predicate AllSolid(ws: seq<string>)
  {
    forall k :: 0 <= k < |ws| ==> Solid(ws[k])
  }

  /** Every character of a word of `s` is a character of `s` other than
      whitespace. */
  lemma {:induction false} WordsComeFrom(s: string)
    ensures forall k, j :: 0 <= k < |Words(s)| && 0 <= j < |Words(s)[k]| ==>
              Words(s)[k][j] in s && !IsSpace(Words(s)[k][j])
    decreases |s|
  {
    if s != [] {
      if IsSpace(s[0]) {
        WordsComeFrom(s[1..]);
        assert forall c :: c in s[1..] ==> c in s;
      } else {
        var n := WordLength(s);
        WordsComeFrom(s[n..]);
        assert Words(s) == [s[..n]] + Words(s[n..]);
        assert forall c :: c in s[n..] ==> c in s;
        assert forall c :: c in s[..n] ==> c in s;
      }
    }
  }

  /** The tokens of text without control characters are solid. */
  lemma TokensAreSolid(s: string)
    requires NoControlChars(s)
    ensures AllSolid(Tokens(s))
  {
    var ws := Tokens(s);
    WordsComeFrom(Trim(s));
    forall k | 0 <= k < |ws| ensures Solid(ws[k]) {
      forall j | 0 <= j < |ws[k]| ensures !IsTrimmable(ws[k][j]) {
        var c := ws[k][j];
        TrimKeeps(s, c);
        var i :| 0 <= i < |s| && s[i] == c;
      }
    }
  }

  /** Space-separated words, each followed by a space, are their join plus one
      space. */
  lemma {:induction false} SpacedIsJoinPlusSpace(ws: seq<string>)
    requires ws != []
    ensures Spaced(ws) == Join(" ", ws) + " "
    decreases |ws|
  {
    if |ws| > 1 {
      SpacedIsJoinPlusSpace(ws[1..]);
    }
  }

  /** The join of solid words is non-empty and starts and ends with a
      character trim() keeps. */
  lemma {:induction false} JoinEnds(ws: seq<string>)
    requires ws != [] && AllSolid(ws)
    ensures var j := Join(" ", ws); j != "" && !IsTrimmable(j[0]) && !IsTrimmable(j[|j| - 1])
    decreases |ws|
  {
    assert Solid(ws[0]);
    if |ws| > 1 {
      assert AllSolid(ws[1..]) by {
        forall k | 0 <= k < |ws[1..]| ensures Solid(ws[1..][k]) { assert ws[1..][k] == ws[k + 1]; }
      }
      JoinEnds(ws[1..]);
      var rest := Join(" ", ws[1..]);
      var j := ws[0] + " " + rest;
      assert j[0] == ws[0][0];
      assert j[|j| - 1] == rest[|rest| - 1];
    }
  }

  /** Solid words, each followed by a space, trim to their join. */
  lemma TrimSpacedSolid(ws: seq<string>)
    requires ws != [] && AllSolid(ws)
    ensures Trim(Spaced(ws)) == Join(" ", ws)
  {
    SpacedIsJoinPlusSpace(ws);
    JoinEnds(ws);
    var j := Join(" ", ws);
    var s := j + " ";
    assert TrimStart(s) == s;
    assert s[..|s| - 1] == j;
    assert TrimEnd(s) == TrimEnd(j);
    assert TrimEnd(j) == j;
  }

  /** On text without control characters both TRANSITIONS tokenizers keep the
      first word and pass the remaining words, joined by single spaces, as
      one token. */
  lemma TransitionTokensJoinRest(input: string)
    requires !IsBlank(input) && NoControlChars(input)
    ensures var ws := Tokens(input);
      && ws != []
      && TokenizeTransitionLine(input) == TokenizeTransitionFile(input)
      && TokenizeTransitionFile(input) == [ws[0]] + (if |ws| > 1 then [Join(" ", ws[1..])] else [])
  {
    var ws := Tokens(input);
    TokensEmptyIffBlank(input);
    assert SplitWs(input) == ws;
    if |ws| > 1 {
      TokensAreSolid(input);
      var rest := ws[1..];
      assert AllSolid(rest) by {
        forall k | 0 <= k < |rest| ensures Solid(rest[k]) { assert rest[k] == ws[k + 1]; }
      }
      TrimSpacedSolid(rest);
      JoinEnds(rest);
    } else {
      assert Spaced(ws[1..]) == "";
    }
  }

  // -----------------------------------------------------------------------
  // Sub-commands of one line (`processLine`)

  predicate Increasing(xs: seq<nat>)
  {
    forall a, b :: 0 <= a < b < |xs| ==> xs[a] < xs[b]
  }

  /** The positions in [1, n) whose token is a command name, in order. */
  function KeywordPositions(ts: seq<string>, n: nat): seq<nat>
    requires n <= |ts|
  {
    if n <= 1 then []
    else KeywordPositions(ts, n - 1) + (if IsKeyword(ts[n - 1]) then [n - 1] else [])
  }

  /** The positions found are exactly the command names in [1, n), in order. */
  lemma {:induction false} KeywordPositionsFacts(ts: seq<string>, n: nat)
    requires n <= |ts|
    ensures var ks := KeywordPositions(ts, n);
      && (forall j :: 0 <= j < |ks| ==> 1 <= ks[j] < n && IsKeyword(ts[ks[j]]))
      && (forall i :: 1 <= i < n && IsKeyword(ts[i]) ==> i in ks)
      && Increasing(ks)
  {
    if n > 1 {
      KeywordPositionsFacts(ts, n - 1);
    }
  }

  /** Where the sub-commands of a token list start: position 0 and every later
      command name. */
  function CommandStarts(ts: seq<string>): (starts: seq<nat>)
    requires ts != []
    ensures |starts| >= 1 && starts[0] == 0 && Increasing(starts)
    ensures forall j :: 0 <= j < |starts| ==> starts[j] < |ts|
  {
    var ks := KeywordPositions(ts, |ts|);
    KeywordPositionsFacts(ts, |ts|);
    [0] + ks
  }

  /** The start-index loop of `processLine`. */
  method FindCommandStarts(tokens: seq<string>) returns (starts: seq<nat>)
    requires tokens != []
    ensures starts == CommandStarts(tokens)
  {
    starts := [0];
    var i := 1;
    while i < |tokens|
      invariant 1 <= i <= |tokens|
      invariant starts == [0] + KeywordPositions(tokens, i)
    {
      if IsKeyword(tokens[i]) {
        starts := starts + [i];
      }
      i := i + 1;
    }
  }

  /** The token lists from each start up to the next start (or the end). */
  function Slices(ts: seq<string>, starts: seq<nat>): (cs: seq<seq<string>>)
    requires Increasing(starts)
    requires forall j :: 0 <= j < |starts| ==> starts[j] < |ts|
    ensures |cs| == |starts|
    ensures forall j :: 0 <= j < |cs| ==> |cs[j]| >= 1 && cs[j][0] == ts[starts[j]]
    decreases |starts|
  {
    if starts == [] then []
    else
      var end := if |starts| > 1 then starts[1] else |ts|;
      [ts[starts[0]..end]] + Slices(ts, starts[1..])
  }

  /** The sub-commands `processLine` hands on, one per start. */
  function SubCommands(ts: seq<string>): (cs: seq<seq<string>>)
    requires ts != []
    ensures forall k :: 0 <= k < |cs| ==> |cs[k]| >= 1
  {
    Slices(ts, CommandStarts(ts))
  }

  function Concat(css: seq<seq<string>>): seq<string>
  {
    if css == [] then [] else css[0] + Concat(css[1..])
  }

  lemma {:induction false} SlicesCover(ts: seq<string>, starts: seq<nat>)
    requires starts != [] && Increasing(starts)
    requires forall j :: 0 <= j < |starts| ==> starts[j] < |ts|
    ensures Concat(Slices(ts, starts)) == ts[starts[0]..]
    decreases |starts|
  {
    if |starts| > 1 {
      SlicesCover(ts, starts[1..]);
      assert ts[starts[0]..starts[1]] + ts[starts[1]..] == ts[starts[0]..];
    }
  }

  /** No command name after the first token. */
  predicate HeadOnly(c: seq<string>)
  {
    forall j :: 1 <= j < |c| ==> !IsKeyword(c[j])
  }

  /** Slice `k` runs from start `k` to the next start, or to the end. */
  lemma SliceAt(ts: seq<string>, starts: seq<nat>, k: nat)
    requires Increasing(starts)
    requires forall j :: 0 <= j < |starts| ==> starts[j] < |ts|
    requires k < |starts|
    ensures Slices(ts, starts)[k] == ts[starts[k]..if k + 1 < |starts| then starts[k + 1] else |ts|]
    decreases k
  {
    if k > 0 {
      SliceAt(ts, starts[1..], k - 1);
    }
  }

  lemma SlicesHeadsOnly(ts: seq<string>, starts: seq<nat>)
    requires starts != [] && Increasing(starts)
    requires forall j :: 0 <= j < |starts| ==> starts[j] < |ts|
    requires forall p :: starts[0] < p < |ts| && IsKeyword(ts[p]) ==> p in starts
    ensures forall k :: 0 <= k < |Slices(ts, starts)| ==> HeadOnly(Slices(ts, starts)[k])
  {
    forall k | 0 <= k < |starts| ensures HeadOnly(Slices(ts, starts)[k]) {
      SliceAt(ts, starts, k);
      SliceHeadOnly(ts, starts, k);
    }
  }

  lemma SliceHeadOnly(ts: seq<string>, starts: seq<nat>, k: nat)
    requires k < |starts|
    requires Increasing(starts)
    requires forall j :: 0 <= j < |starts| ==> starts[j] < |ts|
    requires forall p :: starts[0] < p < |ts| && IsKeyword(ts[p]) ==> p in starts
    ensures HeadOnly(ts[starts[k]..if k + 1 < |starts| then starts[k + 1] else |ts|])
  {
    var end := if k + 1 < |starts| then starts[k + 1] else |ts|;
    var c := ts[starts[k]..end];
    forall j | 1 <= j < |c| ensures !IsKeyword(c[j]) {
      var p := starts[k] + j;
      assert c[j] == ts[p];
      forall m | 0 <= m < |starts| ensures starts[m] != p {
        if m <= k {
          assert starts[m] <= starts[k];
        } else {
          assert starts[k + 1] <= starts[m];
        }
      }
    }
  }

  /** The sub-command heads after the first are command names. */
  lemma SubCommandHeads(ts: seq<string>)
    requires ts != []
    ensures forall k :: 1 <= k < |SubCommands(ts)| ==> IsKeyword(SubCommands(ts)[k][0])
  {
    var starts := CommandStarts(ts);
    var ks := KeywordPositions(ts, |ts|);
    KeywordPositionsFacts(ts, |ts|);
    var cs := SubCommands(ts);
    forall k | 1 <= k < |cs| ensures IsKeyword(cs[k][0]) {
      assert cs[k][0] == ts[starts[k]];
      assert starts[k] == ks[k - 1];
    }
  }

  /** The sub-commands of a non-empty token list cover it in order, each
      starts with a command name except possibly the first, and none holds a
      command name anywhere else. */
  lemma SubCommandsPartition(ts: seq<string>)
    requires ts != []
    ensures Concat(SubCommands(ts)) == ts
    ensures forall k :: 1 <= k < |SubCommands(ts)| ==> IsKeyword(SubCommands(ts)[k][0])
    ensures forall k :: 0 <= k < |SubCommands(ts)| ==> HeadOnly(SubCommands(ts)[k])
  {
    var starts := CommandStarts(ts);
    var ks := KeywordPositions(ts, |ts|);
    KeywordPositionsFacts(ts, |ts|);
    forall p | 0 < p < |ts| && IsKeyword(ts[p]) ensures p in starts {
      var j :| 0 <= j < |ks| && ks[j] == p;
      assert starts[j + 1] == p;
    }
    SlicesCover(ts, starts);
    SlicesHeadsOnly(ts, starts);
    SubCommandHeads(ts);
  }

  /** What `processLine` does with one sub-command. */
  datatype LineStep =
    | Exit                        // stop logging and end the loop and the REPL
    | Call(tokens: seq<string>)   // hand the tokens to `processCommand`
    | Skip                        // LOAD without a file name
    | Crash(error: Error)         // `substring(-1)` of a line without "TRANSITIONS"

  /** The exception `line.substring(-1)` throws. */
  function SubstringOutOfRange(line: string): Error
  {
    var n := DecimalOf(|line|);
    IndexOutOfBounds("begin -1, end " + n + ", length " + n)
  }

  /** TRANSITIONS is re-tokenized from the first exact "TRANSITIONS" of the
      whole line to its end; LOAD needs an argument; EXIT ends the line. */
  function SubCommandStep(line: string, command: seq<string>): LineStep
    requires command != []
  {
    var cmd := Upper(command[0]);
    if cmd == "EXIT" then Exit
    else if cmd == "TRANSITIONS" then
      var at := IndexOfText(line, "TRANSITIONS");
      if at < 0 then Crash(SubstringOutOfRange(line))
      else
        var ts := TokenizeTransitionLine(line[at..]);
        if ts == [] then Skip else Call(ts)
    else if cmd == "LOAD" && |command| <= 1 then Skip
    else Call(command)
  }

  /** EXIT ends the line; TRANSITIONS crashes exactly when the line holds
      no exact "TRANSITIONS" (only another letter case) and otherwise hands
      on the tokens of the line from there; LOAD is skipped exactly when it
      has no argument; anything else is handed on as it is. */
  lemma SubCommandStepCases(line: string, command: seq<string>)
    requires command != []
    ensures var step := SubCommandStep(line, command);
      && (step.Exit? <==> Upper(command[0]) == "EXIT")
      && (step.Crash? <==> Upper(command[0]) == "TRANSITIONS" && IndexOfText(line, "TRANSITIONS") < 0)
      && (step.Crash? ==> step.error.IndexOutOfBounds?)
      && (step.Skip? <==> Upper(command[0]) == "LOAD" && |command| == 1)
      && (step.Call? && Upper(command[0]) != "TRANSITIONS" ==> step.tokens == command)
  {
    var cmd := Upper(command[0]);
    if cmd == "TRANSITIONS" {
      var at := IndexOfText(line, "TRANSITIONS");
      if at >= 0 {
        var rest := line[at..];
        assert rest[0] == 'T' && !IsTrimmable(rest[0]);
        assert !IsBlank(rest);
        assert TokenizeTransitionLine(rest) != [];
      }
    }
  }

  /** The step of each sub-command of `line`, in order. */
  function StepsOf(line: string, cs: seq<seq<string>>): (steps: seq<LineStep>)
    requires forall k :: 0 <= k < |cs| ==> cs[k] != []
    ensures |steps| == |cs|
    decreases |cs|
  {
    if cs == [] then [] else [SubCommandStep(line, cs[0])] + StepsOf(line, cs[1..])
  }

  lemma {:induction false} StepsOfAt(line: string, cs: seq<seq<string>>, k: nat)
    requires forall j :: 0 <= j < |cs| ==> cs[j] != []
    requires k < |cs|
    ensures StepsOf(line, cs)[k] == SubCommandStep(line, cs[k])
    decreases k
  {
    if k > 0 {
      StepsOfAt(line, cs[1..], k - 1);
    }
  }

  /** The steps `processLine` takes for a line, one per sub-command, before
      an exit, a crash or an exception ends it. */
  function LineSteps(line: string): (steps: seq<LineStep>)
    ensures Tokens(line) != [] ==> |steps| == |SubCommands(Tokens(line))|
    ensures Tokens(line) == [] ==> steps == []
  {
    var ts := Tokens(line);
    if ts == [] then [] else StepsOf(line, SubCommands(ts))
  }

  /** Step `k` of a line is the step of its `k`-th sub-command. */
  lemma LineStepOf(line: string, k: nat)
    requires Tokens(line) != [] && k < |SubCommands(Tokens(line))|
    ensures LineSteps(line)[k] == SubCommandStep(line, SubCommands(Tokens(line))[k])
  {
    StepsOfAt(line, SubCommands(Tokens(line)), k);
  }

  /** Where sub-command `k` ends: at the next command start, or at the end
      of the tokens. */
  function CommandEnd(ts: seq<string>, starts: seq<nat>, k: nat): nat
    requires k < |starts|
  {
    if k + 1 < |starts| then starts[k + 1] else |ts|
  }

  /** Step `k` of a line is the step of its tokens from the `k`-th command
      start up to the next one, or to the end. */
  lemma LineStepAt(line: string, k: nat)
    requires Tokens(line) != [] && k < |CommandStarts(Tokens(line))|
    ensures var ts := Tokens(line); var starts := CommandStarts(ts);
      && starts[k] < CommandEnd(ts, starts, k) <= |ts|
      && k < |LineSteps(line)|
      && LineSteps(line)[k] == SubCommandStep(line, ts[starts[k]..CommandEnd(ts, starts, k)])
  {
    SliceAt(Tokens(line), CommandStarts(Tokens(line)), k);
    LineStepOf(line, k);
  }

  /** The steps of a line, one per command start (none for a blank line). */
  lemma LineStepsSliced(line: string, ts: seq<string>, starts: seq<nat>)
    requires ts == Tokens(line)
    requires ts != [] ==> starts == CommandStarts(ts)
    requires ts == [] ==> starts == []
    ensures |LineSteps(line)| == |starts|
    ensures forall k {:trigger CommandEnd(ts, starts, k)} :: 0 <= k < |starts| ==>
      && starts[k] < CommandEnd(ts, starts, k) <= |ts|
      && LineSteps(line)[k] == SubCommandStep(line, ts[starts[k]..CommandEnd(ts, starts, k)])
  {
    if ts != [] {
      forall k | 0 <= k < |starts|
        ensures && starts[k] < CommandEnd(ts, starts, k) <= |ts|
                && LineSteps(line)[k] == SubCommandStep(line, ts[starts[k]..CommandEnd(ts, starts, k)])
      {
        LineStepAt(line, k);
      }
    }
  }

  /** Sub-command `k` of the line names TRANSITIONS. */
  predicate NamesTransitions(line: string, k: nat)
  {
    var ts := Tokens(line);
    ts != [] && k < |SubCommands(ts)| && Upper(SubCommands(ts)[k][0]) == "TRANSITIONS"
  }

  lemma StartsWithHead(s: string, p: string)
    requires p != [] && StartsWith(s, p)
    ensures s != [] && s[0] == p[0]
  {
    assert s[..|p|][0] == p[0];
  }

  /** A line typed without upper-case letters never runs TRANSITIONS: the
      case-sensitive search for the text fails and the sub-command crashes. */
  lemma LowerCaseTransitionsCrash(line: string, k: nat)
    requires forall i :: 0 <= i < |line| ==> !('A' <= line[i] <= 'Z')
    requires NamesTransitions(line, k)
    ensures LineSteps(line)[k] == Crash(SubstringOutOfRange(line))
  {
    LineStepOf(line, k);
    var command := SubCommands(Tokens(line))[k];
    assert Upper(command[0]) == "TRANSITIONS";
    var at := IndexOfText(line, "TRANSITIONS");
    if at >= 0 {
      StartsWithHead(line[at..], "TRANSITIONS");
      assert false;
    }
    assert SubCommandStep(line, command) == Crash(SubstringOutOfRange(line));
  }

  /** A TRANSITIONS sub-command of a line without control characters passes
      everything from the line's first "TRANSITIONS" to its end: the first
      word there and, as one token, the remaining words joined by spaces,
      the words of any later sub-command included. */
  lemma TransitionsTakeRestOfLine(line: string, k: nat)
    requires NoControlChars(line) && NamesTransitions(line, k)
    requires IndexOfText(line, "TRANSITIONS") >= 0
    ensures var ws := Tokens(line[IndexOfText(line, "TRANSITIONS")..]);
      && ws != []
      && LineSteps(line)[k] == Call([ws[0]] + (if |ws| > 1 then [Join(" ", ws[1..])] else []))
  {
    var at := IndexOfText(line, "TRANSITIONS");
    NoControlCharsOfSuffix(line, at);
    TransitionsSuffixTokens(line[at..]);
    TransitionsStep(line, k);
  }

  lemma TransitionsStep(line: string, k: nat)
    requires NamesTransitions(line, k) && IndexOfText(line, "TRANSITIONS") >= 0
    ensures var ts := TokenizeTransitionLine(line[IndexOfText(line, "TRANSITIONS")..]);
      LineSteps(line)[k] == if ts == [] then Skip else Call(ts)
  {
    LineStepOf(line, k);
  }

  lemma TransitionsSuffixTokens(rest: string)
    requires NoControlChars(rest) && StartsWith(rest, "TRANSITIONS")
    ensures var ws := Tokens(rest);
      && ws != []
      && TokenizeTransitionLine(rest) == [ws[0]] + (if |ws| > 1 then [Join(" ", ws[1..])] else [])
  {
    StartsWithHead(rest, "TRANSITIONS");
    assert !IsBlank(rest) by {
      assert !IsTrimmable(rest[0]);
    }
    TransitionTokensJoinRest(rest);
  }

  // -----------------------------------------------------------------------
  // Commands of one statement (`splitIntoSeparateCommands`)

  /** The loop state of `splitIntoSeparateCommands`. */
  datatype Splitter = Splitter(commands: seq<string>, current: string, inCommand: bool)

  /** One token: a token with a semicolon closes the current command (the
      text before its first semicolon joins it) and whatever follows that
      semicolon starts the next one; a command name inside a command closes
      it without a semicolon and starts a new one; any other token is
      appended. */
  function SplitStep(st: Splitter, token: string): Splitter
  {
    var at := IndexOf(token, ';');
    if at >= 0 then
      var cur := if at > 0 then st.current + " " + token[..at] else st.current;
      var closed := st.commands + [Trim(cur) + ";"];
      var rest := if at < |token| - 1 then Trim(token[at + 1..]) else "";
      if rest != "" then Splitter(closed, rest, true) else Splitter(closed, "", false)
    else if IsKeyword(token) && st.inCommand && Trim(st.current) != "" then
      Splitter(st.commands + [Trim(st.current)], token, st.inCommand)
    else if st.inCommand then Splitter(st.commands, st.current + " " + token, true)
    else Splitter(st.commands, st.current + token, true)
  }

  /** The splitter after the words of `raw` from position `i` on: each word
      is trimmed (a word of the split may still hold control characters) and
      skipped when nothing is left. */
  function SplitFrom(st: Splitter, raw: seq<string>, i: nat): Splitter
    requires i <= |raw|
    decreases |raw| - i
  {
    if i == |raw| then st
    else
      var token := Trim(raw[i]);
      SplitFrom(if token != "" then SplitStep(st, token) else st, raw, i + 1)
  }

  /** The closing step: an open, non-blank command is added without a
      semicolon. */
  function Close(st: Splitter): seq<string>
  {
    if st.inCommand && Trim(st.current) != "" then st.commands + [Trim(st.current)] else st.commands
  }

  /** `splitIntoSeparateCommands(line, commandKeywords)`. */
  function SeparateCommands(line: string): seq<string>
  {
    Close(SplitFrom(Splitter([], "", false), Words(line), 0))
  }

  /** The body of the loop of `splitIntoSeparateCommands` for one non-empty
      token. */
  method SplitToken(commands: seq<string>, current: string, inCommand: bool, token: string)
    returns (commands': seq<string>, current': string, inCommand': bool)
    ensures Splitter(commands', current', inCommand') == SplitStep(Splitter(commands, current, inCommand), token)
  {
    commands', current', inCommand' := commands, current, inCommand;
    var at := IndexOf(token, ';');
    if at >= 0 {
      if at > 0 {
        current' := current' + " " + token[..at];
      }
      commands' := commands' + [Trim(current') + ";"];
      current' := "";
      inCommand' := false;
      if at < |token| - 1 {
        var rest := Trim(token[at + 1..]);
        if rest != "" {
          current' := rest;
          inCommand' := true;
        }
      }
    } else if IsKeyword(token) && inCommand' && Trim(current') != "" {
      commands' := commands' + [Trim(current')];
      current' := token;
    } else {
      if inCommand' {
        current' := current' + " ";
      } else {
        inCommand' := true;
      }
      current' := current' + token;
    }
  }

  /** The loop of `splitIntoSeparateCommands`. */
  method SplitIntoSeparateCommands(line: string) returns (commands: seq<string>)
    ensures commands == SeparateCommands(line)
  {
    var raw := Words(line);
    commands := [];
    var current := "";
    var inCommand := false;
    var i := 0;
    while i < |raw|
      invariant 0 <= i <= |raw|
      invariant SplitFrom(Splitter([], "", false), raw, 0) == SplitFrom(Splitter(commands, current, inCommand), raw, i)
    {
      var token := Trim(raw[i]);
      if token != "" {
        commands, current, inCommand := SplitToken(commands, current, inCommand, token);
      }
      i := i + 1;
    }
    if inCommand && Trim(current) != "" {
      commands := commands + [Trim(current)];
    }
  }

  /** A command as it leaves the splitter: not empty, and either closed by a
      semicolon or already trimmed. */
  predicate WellSplit(c: string)
  {
    c != "" && (EndsWith(c, ";") || Trim(c) == c)
  }

  predicate AllWellSplit(cs: seq<string>)
  {
    forall k :: 0 <= k < |cs| ==> WellSplit(cs[k])
  }

  lemma ClosedWellSplit(current: string)
    ensures WellSplit(Trim(current) + ";")
  {
    var c := Trim(current) + ";";
    assert c[|c| - 1..] == ";";
  }

  lemma OpenWellSplit(current: string)
    requires Trim(current) != ""
    ensures WellSplit(Trim(current))
  {
    TrimIdempotent(current);
  }

  lemma AppendWellSplit(cs: seq<string>, c: string)
    requires AllWellSplit(cs) && WellSplit(c)
    ensures AllWellSplit(cs + [c])
  {
    forall k | 0 <= k < |cs + [c]| ensures WellSplit((cs + [c])[k]) {
      if k < |cs| {
        assert (cs + [c])[k] == cs[k];
      }
    }
  }

  lemma SplitStepWellSplit(st: Splitter, token: string)
    requires AllWellSplit(st.commands)
    ensures AllWellSplit(SplitStep(st, token).commands)
  {
    var at := IndexOf(token, ';');
    if at >= 0 {
      var cur := if at > 0 then st.current + " " + token[..at] else st.current;
      ClosedWellSplit(cur);
      AppendWellSplit(st.commands, Trim(cur) + ";");
    } else if IsKeyword(token) && st.inCommand && Trim(st.current) != "" {
      OpenWellSplit(st.current);
      AppendWellSplit(st.commands, Trim(st.current));
    }
  }

  lemma {:induction false} SplitFromWellSplit(st: Splitter, raw: seq<string>, i: nat)
    requires i <= |raw| && AllWellSplit(st.commands)
    ensures AllWellSplit(SplitFrom(st, raw, i).commands)
    decreases |raw| - i
  {
    if i < |raw| {
      var token := Trim(raw[i]);
      if token != "" {
        SplitStepWellSplit(st, token);
        SplitFromWellSplit(SplitStep(st, token), raw, i + 1);
      } else {
        SplitFromWellSplit(st, raw, i + 1);
      }
    }
  }

  /** Every command the splitter returns is non-empty and either ends with a
      semicolon or is trimmed. */
  lemma SeparateCommandsWellSplit(line: string)
    ensures AllWellSplit(SeparateCommands(line))
  {
    var st := SplitFrom(Splitter([], "", false), Words(line), 0);
    SplitFromWellSplit(Splitter([], "", false), Words(line), 0);
    if st.inCommand && Trim(st.current) != "" {
      OpenWellSplit(st.current);
    }
  }

  /** Each word list joined by single spaces. */
  function JoinEach(css: seq<seq<string>>): (r: seq<string>)
    ensures |r| == |css|
  {
    if css == [] then [] else [Join(" ", css[0])] + JoinEach(css[1..])
  }

  /** `css` cuts `ts` into non-empty pieces, each after the first starting
      with a command name and none holding one after its head. */
  predicate KeywordPartition(ts: seq<string>, css: seq<seq<string>>)
  {
    && Concat(css) == ts
    && forall k :: 0 <= k < |css| ==>
         css[k] != [] && HeadOnly(css[k]) && (k >= 1 ==> IsKeyword(css[k][0]))
  }

  /** A cut into non-empty pieces is empty exactly when the list is. */
  lemma ConcatOfNonEmpty(css: seq<seq<string>>)
    requires forall k :: 0 <= k < |css| ==> css[k] != []
    ensures Concat(css) == [] <==> css == []
  {
    if css != [] {
      assert |Concat(css)| >= |css[0]| > 0;
    }
  }

  /** A token list has one such cut at most. */
  lemma {:induction false} KeywordPartitionUnique(ts: seq<string>, a: seq<seq<string>>, b: seq<seq<string>>)
    requires KeywordPartition(ts, a) && KeywordPartition(ts, b)
    ensures a == b
    decreases |ts|
  {
    ConcatOfNonEmpty(a);
    ConcatOfNonEmpty(b);
    if a != [] && b != [] {
      var n := |a[0]|;
      PartitionHeadsAgree(ts, a, b);
      PartitionHeadsAgree(ts, b, a);
      assert ts == a[0] + Concat(a[1..]) && ts == b[0] + Concat(b[1..]);
      assert a[0] == ts[..n] == b[0];
      assert KeywordPartition(ts[n..], a[1..]) by {
        forall k | 0 <= k < |a[1..]| ensures a[1..][k] == a[k + 1] { }
      }
      assert KeywordPartition(ts[n..], b[1..]) by {
        forall k | 0 <= k < |b[1..]| ensures b[1..][k] == b[k + 1] { }
      }
      KeywordPartitionUnique(ts[n..], a[1..], b[1..]);
    }
  }

  /** The first piece of one cut is no longer than that of another: the
      token after it, if any, is a command name, which no first piece holds
      after its head. */
  lemma PartitionHeadsAgree(ts: seq<string>, a: seq<seq<string>>, b: seq<seq<string>>)
    requires KeywordPartition(ts, a) && KeywordPartition(ts, b)
    requires a != [] && b != []
    ensures |b[0]| <= |a[0]|
  {
    var n := |a[0]|;
    assert ts == a[0] + Concat(a[1..]) && ts == b[0] + Concat(b[1..]);
    if n < |ts| {
      assert a[1..] != [];
      assert Concat(a[1..]) == a[1] + Concat(a[2..]) by { assert a[1..][1..] == a[2..]; }
      assert ts[n] == a[1][0];
      assert forall j :: 0 <= j < |b[0]| ==> b[0][j] == ts[j];
    }
  }

  /** The sub-commands of `processLine` are such a cut. */
  lemma SubCommandsArePartition(ts: seq<string>)
    requires ts != []
    ensures KeywordPartition(ts, SubCommands(ts))
  {
    SubCommandsPartition(ts);
  }

  /** The word lists the splitter builds: `cur` grows until a command name
      starts a new one. */
  function Groups(cur: seq<string>, ws: seq<string>): (gs: seq<seq<string>>)
    requires cur != []
    ensures gs != [] && gs[0] != [] && gs[0][0] == cur[0]
    decreases |ws|
  {
    if ws == [] then [cur]
    else if IsKeyword(ws[0]) then [cur] + Groups([ws[0]], ws[1..])
    else Groups(cur + [ws[0]], ws[1..])
  }

  lemma {:induction false} GroupsPartition(cur: seq<string>, ws: seq<string>)
    requires cur != [] && HeadOnly(cur)
    ensures KeywordPartition(cur + ws, Groups(cur, ws))
    decreases |ws|
  {
    if ws == [] {
      assert cur + ws == cur;
      assert Concat([cur]) == cur + Concat([]);
    } else if IsKeyword(ws[0]) {
      var g := Groups([ws[0]], ws[1..]);
      GroupsPartition([ws[0]], ws[1..]);
      assert [ws[0]] + ws[1..] == ws;
      var all := [cur] + g;
      assert all[1..] == g;
      assert Concat(all) == cur + Concat(g);
      forall k | 0 <= k < |all| ensures all[k] != [] && HeadOnly(all[k]) && (k >= 1 ==> IsKeyword(all[k][0])) {
        if k >= 1 { assert all[k] == g[k - 1]; }
      }
    } else {
      var cur' := cur + [ws[0]];
      assert HeadOnly(cur') by {
        forall j | 1 <= j < |cur'| ensures !IsKeyword(cur'[j]) {
          if j < |cur| { assert cur'[j] == cur[j]; }
        }
      }
      GroupsPartition(cur', ws[1..]);
      assert cur' + ws[1..] == cur + ws;
    }
  }

  /** Appending a word to a join adds a space and the word. */
  lemma JoinAppend(cur: seq<string>, w: string)
    requires cur != []
    ensures Join(" ", cur + [w]) == Join(" ", cur) + " " + w
  {
    SpacedIsJoin(cur, w);
    SpacedIsJoinPlusSpace(cur);
  }

  /** The open command of the splitter, the join of solid words, is
      already trimmed and not empty. */
  lemma OpenJoinTrimmed(cur: seq<string>)
    requires cur != [] && AllSolid(cur)
    ensures Join(" ", cur) != "" && Trim(Join(" ", cur)) == Join(" ", cur)
  {
    JoinEnds(cur);
    TrimUnchanged(Join(" ", cur));
  }

  /** One solid word without a semicolon: a command name closes the open
      command and opens one of its own, any other word joins it. */
  lemma SplitStepOnWord(cs: seq<string>, cur: seq<string>, token: string)
    requires cur != [] && AllSolid(cur) && Solid(token) && ';' !in token
    ensures SplitStep(Splitter(cs, Join(" ", cur), true), token)
      == if IsKeyword(token) then Splitter(cs + [Join(" ", cur)], Join(" ", [token]), true)
         else Splitter(cs, Join(" ", cur + [token]), true)
  {
    OpenJoinTrimmed(cur);
    assert IndexOf(token, ';') < 0;
    if !IsKeyword(token) {
      JoinAppend(cur, token);
    }
  }

  /** A solid word without a semicolon. */
  predicate PlainWord(w: string) { Solid(w) && ';' !in w }

  /** Every word of `raw` from position `i` on is plain. */
  predicate PlainFrom(raw: seq<string>, i: nat)
    requires i <= |raw|
    decreases |raw| - i
  {
    i == |raw| || (PlainWord(raw[i]) && PlainFrom(raw, i + 1))
  }

  lemma {:induction false} PlainFromAll(raw: seq<string>, i: nat)
    requires i <= |raw|
    requires forall j :: i <= j < |raw| ==> PlainWord(raw[j])
    ensures PlainFrom(raw, i)
    decreases |raw| - i
  {
    if i < |raw| {
      PlainFromAll(raw, i + 1);
    }
  }

  /** Over solid words without semicolons the splitter keeps an open
      command, the join of the words of the group in progress, and closes it
      at each command name. */
  lemma {:induction false} SplitFollowsGroups(cs: seq<string>, cur: seq<string>, raw: seq<string>, i: nat)
    requires i <= |raw| && cur != [] && AllSolid(cur) && PlainFrom(raw, i)
    ensures Close(SplitFrom(Splitter(cs, Join(" ", cur), true), raw, i)) == cs + JoinEach(Groups(cur, raw[i..]))
    decreases |raw| - i
  {
    if i == |raw| {
      OpenJoinTrimmed(cur);
      assert JoinEach([cur]) == [Join(" ", cur)];
    } else {
      var token := raw[i];
      TrimUnchanged(token);
      SplitStepOnWord(cs, cur, token);
      assert raw[i..] == [token] + raw[i + 1..];
      if IsKeyword(token) {
        SplitFollowsKeyword(cs, cur, raw, i);
      } else {
        var cur' := cur + [token];
        assert AllSolid(cur') by {
          forall k | 0 <= k < |cur'| ensures Solid(cur'[k]) { if k < |cur| { assert cur'[k] == cur[k]; } }
        }
        SplitFollowsGroups(cs, cur', raw, i + 1);
      }
    }
  }

  /** The keyword case of `SplitFollowsGroups`: the open command is closed
      and the command name opens the next group. */
  lemma {:induction false} SplitFollowsKeyword(cs: seq<string>, cur: seq<string>, raw: seq<string>, i: nat)
    requires i < |raw| && PlainWord(raw[i]) && PlainFrom(raw, i + 1)
    ensures Close(SplitFrom(Splitter(cs + [Join(" ", cur)], Join(" ", [raw[i]]), true), raw, i + 1))
      == cs + JoinEach([cur] + Groups([raw[i]], raw[i + 1..]))
    decreases |raw| - i, 0
  {
    var token := raw[i];
    assert AllSolid([token]);
    SplitFollowsGroups(cs + [Join(" ", cur)], [token], raw, i + 1);
    var g := Groups([token], raw[i + 1..]);
    assert JoinEach([cur] + g) == [Join(" ", cur)] + JoinEach(g) by {
      assert ([cur] + g)[1..] == g;
    }
  }

  /** On a line without semicolons and without control characters the
      splitter returns the sub-commands `processLine` would find among the
      tokens, each as its words joined by single spaces: the two splittings
      agree, and no word is lost, reordered or altered. */
  lemma SeparateCommandsWithoutSemicolon(line: string)
    requires NoControlChars(line) && ';' !in line
    ensures Tokens(line) == [] ==> SeparateCommands(line) == []
    ensures Tokens(line) != [] ==> SeparateCommands(line) == JoinEach(SubCommands(Tokens(line)))
  {
    var ts := Tokens(line);
    TokensOfPlainText(line);
    if ts != [] {
      SeparateCommandsAsGroups(line);
      var t := ts[0];
      assert [t] + ts[1..] == ts;
      GroupsPartition([t], ts[1..]);
      SubCommandsArePartition(ts);
      KeywordPartitionUnique(ts, Groups([t], ts[1..]), SubCommands(ts));
    }
  }

  /** On a line without semicolons and control characters the splitter
      closes a command exactly at each command name after the first word. */
  lemma SeparateCommandsAsGroups(line: string)
    requires NoControlChars(line) && ';' !in line && Tokens(line) != []
    ensures SeparateCommands(line) == JoinEach(Groups([Tokens(line)[0]], Tokens(line)[1..]))
  {
    var ts := Tokens(line);
    PlainTokens(line);
    var t := ts[0];
    TrimUnchanged(t);
    assert SplitStep(Splitter([], "", false), t) == Splitter([], Join(" ", [t]), true);
    SplitFollowsGroups([], [t], ts, 1);
  }

  /** The words of a line without semicolons and control characters are
      plain. */
  lemma PlainTokens(line: string)
    requires NoControlChars(line) && ';' !in line
    ensures Tokens(line) == Words(line) && PlainFrom(Tokens(line), 0)
  {
    var ts := Tokens(line);
    TokensOfPlainText(line);
    TokensAreSolid(line);
    WordsComeFrom(line);
    forall j | 0 <= j < |ts| ensures PlainWord(ts[j]) {
      assert forall p :: 0 <= p < |ts[j]| ==> ts[j][p] in line;
    }
    PlainFromAll(ts, 0);
  }

  // -----------------------------------------------------------------------
  // One command of a command file (`processFileCommand`)

  /** The text executed for one split command: trimmed, without its final
      semicolon, trimmed again. */
  function CommandBody(command: string): (body: string)
    ensures Trim(body) == body
  {
    var c := Trim(command);
    TrimIdempotent(command);
    if EndsWith(c, ";") then TrimIdempotent(c[..|c| - 1]); Trim(c[..|c| - 1]) else c
  }

  /** The report `processFileCommand` prints (and does not act on) for a
      command without its semicolon. */
  predicate SemicolonMissing(command: string)
  {
    !EndsWith(Trim(command), ";")
  }

  /** The calls to `processCommand` that `processFileCommand` makes for one
      command, in order: a TRANSITIONS command is handed over with the
      TRANSITIONS tokenizer and then, because the `else` belongs to the LOAD
      test, again with the plain tokens; LOAD only with an argument; anything
      else once. A failing call ends the command's calls. */
  function FileCommandCalls(command: string): (calls: seq<seq<string>>)
    ensures |calls| <= 2
    ensures |calls| == 2 ==> |calls[1]| >= 1 && Upper(calls[1][0]) == "TRANSITIONS"
  {
    var body := CommandBody(command);
    var ts := Tokens(body);
    if |ts| == 0 then []
    else if Upper(ts[0]) == "TRANSITIONS" then [TokenizeTransitionFile(body), ts]
    else if Upper(ts[0]) == "LOAD" && |ts| <= 1 then []
    else [ts]
  }

  lemma NoControlCharsOfSlice(s: string, a: nat, b: nat)
    requires a <= b <= |s| && NoControlChars(s)
    ensures NoControlChars(s[a..b])
  {
    forall i | 0 <= i < b - a ensures IsTrimmable(s[a..b][i]) ==> IsSpace(s[a..b][i]) {
      assert s[a..b][i] == s[a + i];
    }
  }

  lemma NoControlCharsOfSuffix(s: string, a: nat)
    requires a <= |s| && NoControlChars(s)
    ensures NoControlChars(s[a..])
  {
    forall i | 0 <= i < |s| - a ensures IsTrimmable(s[a..][i]) ==> IsSpace(s[a..][i]) {
      assert s[a..][i] == s[a + i];
    }
  }

  lemma NoControlCharsOfTrim(s: string)
    requires NoControlChars(s)
    ensures NoControlChars(Trim(s))
  {
    var l := TrimStart(s);
    NoControlCharsOfSlice(s, |s| - |l|, |s|);
    NoControlCharsOfSlice(l, 0, |TrimEnd(l)|);
  }

  /** Both calls made for a TRANSITIONS command carry the same transition
      text when the command has no control characters; with the overwrite
      semantics of `addTransition` the second call changes nothing. */
  lemma CommandBodyNoControl(command: string)
    requires NoControlChars(command)
    ensures NoControlChars(CommandBody(command))
  {
    var c := Trim(command);
    NoControlCharsOfTrim(command);
    if EndsWith(c, ";") {
      NoControlCharsOfSlice(c, 0, |c| - 1);
      NoControlCharsOfTrim(c[..|c| - 1]);
    }
  }

  /** The calls for a command, case by case. */
  lemma FileCommandCallsCases(command: string)
    ensures var body := CommandBody(command);
      var ts := Tokens(body);
      && (ts == [] ==> FileCommandCalls(command) == [])
      && (ts != [] && Upper(ts[0]) == "TRANSITIONS" ==>
            FileCommandCalls(command) == [TokenizeTransitionFile(body), ts])
      && (ts != [] && Upper(ts[0]) == "LOAD" ==>
            FileCommandCalls(command) == if |ts| > 1 then [ts] else [])
      && (ts != [] && Upper(ts[0]) != "TRANSITIONS" && Upper(ts[0]) != "LOAD" ==>
            FileCommandCalls(command) == [ts])
  {
  }

  /** A command reported for its missing semicolon is still run, and with
      the same body and calls as if the semicolon had been written. */
  lemma MissingSemicolonRunsAsTerminated(command: string)
    requires SemicolonMissing(command)
    ensures CommandBody(command) == CommandBody(Trim(command) + ";")
    ensures FileCommandCalls(command) == FileCommandCalls(Trim(command) + ";")
  {
    TerminatedBody(command);
  }

  /** Adding the semicolon to a trimmed command gives back its body. */
  lemma TerminatedBody(command: string)
    requires SemicolonMissing(command)
    ensures CommandBody(Trim(command) + ";") == Trim(command)
    ensures CommandBody(command) == Trim(command)
  {
    var t := Trim(command);
    TrimIdempotent(command);
    BodyOfTerminated(t);
  }

  /** A trimmed text with a semicolon added has that text as its body. */
  lemma BodyOfTerminated(t: string)
    requires Trim(t) == t
    ensures CommandBody(t + ";") == t
  {
    var u := t + ";";
    assert u[|u| - 1] == ';';
    assert t != [] ==> u[0] == t[0];
    TrimUnchanged(u);
    var c := Trim(u);
    assert c[|c| - 1..] == ";";
    assert EndsWith(c, ";");
    assert c[..|c| - 1] == t;
  }

  lemma TransitionsCallsAgree(command: string)
    requires NoControlChars(command)
    requires |FileCommandCalls(command)| == 2
    ensures var calls := FileCommandCalls(command);
      Join(" ", calls[0][1..]) == Join(" ", calls[1][1..])
  {
    var body := CommandBody(command);
    var ts := Tokens(body);
    var calls := FileCommandCalls(command);
    assert calls == [TokenizeTransitionFile(body), ts];
    CommandBodyNoControl(command);
    TokensEmptyIffBlank(body);
    TransitionTokensJoinRest(body);
    if |ts| > 1 {
      var j := Join(" ", ts[1..]);
      assert calls[0][1..] == [j];
    } else {
      assert calls[0][1..] == [] && ts[1..] == [];
    }
  }

  // -----------------------------------------------------------------------
  // Gathering lines into statements

  /** `handleLoadFromTextFile`: lines are trimmed and blank ones skipped; a
      line without a semicolon opens (or continues) a multi-line statement
      that the next line with a semicolon closes, pieces joined by one space;
      a statement still open at the end gets a semicolon appended. */
  function FileStatementsFrom(lines: seq<string>, pending: Option<string>): seq<string>
    decreases |lines|
  {
    if lines == [] then
      if pending.Some? && pending.value != "" then [pending.value + ";"] else []
    else
      var line := Trim(lines[0]);
      if line == "" then FileStatementsFrom(lines[1..], pending)
      else if pending.Some? then
        var text := pending.value + " " + line;
        if ';' in line then [text] + FileStatementsFrom(lines[1..], None)
        else FileStatementsFrom(lines[1..], Some(text))
      else if ';' !in line then FileStatementsFrom(lines[1..], Some(line))
      else [line] + FileStatementsFrom(lines[1..], None)
  }

  function FileStatements(lines: seq<string>): seq<string>
  {
    FileStatementsFrom(lines, None)
  }

  /** A command file gives at most one statement per line, and every
      statement holds a semicolon. */
  lemma FileStatementsShape(lines: seq<string>)
    ensures |FileStatements(lines)| <= |lines|
    ensures forall k :: 0 <= k < |FileStatements(lines)| ==> ';' in FileStatements(lines)[k]
  {
    FileStatementsBound(lines, None);
    FileStatementsEndInSemicolon(lines, None);
  }

  /** At most one statement per line, plus the one still pending. */
  lemma {:induction false} FileStatementsBound(lines: seq<string>, pending: Option<string>)
    ensures |FileStatementsFrom(lines, pending)| <= |lines| + (if pending.Some? then 1 else 0)
    decreases |lines|
  {
    if lines != [] {
      FileStatementsBound(lines[1..], NextPending(Trim(lines[0]), pending));
    }
  }

  /** Every statement read from a file holds a semicolon. */
  lemma {:induction false} FileStatementsEndInSemicolon(lines: seq<string>, pending: Option<string>)
    ensures forall k :: 0 <= k < |FileStatementsFrom(lines, pending)| ==> ';' in FileStatementsFrom(lines, pending)[k]
    decreases |lines|
  {
    if lines == [] {
      if pending.Some? && pending.value != "" {
        assert ';' in pending.value + ";";
      }
    } else {
      var line := Trim(lines[0]);
      var next := NextPending(line, pending);
      FileStatementsEndInSemicolon(lines[1..], next);
      if line != "" && ';' in line {
        var rest := FileStatementsFrom(lines[1..], next);
        var all := [if pending.Some? then pending.value + " " + line else line] + rest;
        assert FileStatementsFrom(lines, pending) == all;
        forall k | 0 <= k < |all| ensures ';' in all[k] {
          if k > 0 {
            assert all[k] == rest[k - 1];
          }
        }
      }
    }
  }

  /** What is pending after the trimmed line `line`. */
  function NextPending(line: string, pending: Option<string>): Option<string>
  {
    if line == "" then pending
    else if ';' in line then None
    else if pending.Some? then Some(pending.value + " " + line)
    else Some(line)
  }

  /** One step of `FileStatementsFrom`, at line `i`. */
  lemma FileStatementsFromAt(lines: seq<string>, i: nat, pending: Option<string>)
    requires i < |lines|
    ensures var line := Trim(lines[i]); var rest := lines[i + 1..];
      FileStatementsFrom(lines[i..], pending) ==
        if line == "" then FileStatementsFrom(rest, pending)
        else if pending.Some? then
          if ';' in line then [pending.value + " " + line] + FileStatementsFrom(rest, None)
          else FileStatementsFrom(rest, Some(pending.value + " " + line))
        else if ';' !in line then FileStatementsFrom(rest, Some(line))
        else [line] + FileStatementsFrom(rest, None)
  {
    assert lines[i..][0] == lines[i] && lines[i..][1..] == lines[i + 1..];
  }

  /** The non-blank lines, trimmed. */
  function NonBlankLines(lines: seq<string>): seq<string>
  {
    if lines == [] then []
    else (if Trim(lines[0]) != "" then [Trim(lines[0])] else []) + NonBlankLines(lines[1..])
  }

  /** A file whose non-blank lines each hold a semicolon gives one statement
      per non-blank line: the line, trimmed. */
  lemma {:induction false} OneStatementPerTerminatedLine(lines: seq<string>)
    requires forall k :: 0 <= k < |lines| ==> Trim(lines[k]) == "" || ';' in lines[k]
    ensures FileStatements(lines) == NonBlankLines(lines)
    decreases |lines|
  {
    if lines != [] {
      TrimKeeps(lines[0], ';');
      OneStatementPerTerminatedLine(lines[1..]);
    }
  }

  /** `handleLoadCommand` (the start-up file): every line is appended to the
      buffer followed by a space; at a line with a semicolon the buffer is
      trimmed and cut at its first semicolon, and the trimmed text before it
      is the statement. Text after that semicolon is dropped, and so is an
      unterminated tail. */
  function LoadStatementsFrom(lines: seq<string>, buffer: string): seq<string>
    decreases |lines|
  {
    if lines == [] then []
    else
      var line := lines[0];
      var buf := buffer + line + " ";
      if ';' !in line then LoadStatementsFrom(lines[1..], buf)
      else
        SemicolonSurvivesTrim(buffer, line);
        [CutAtSemicolon(Trim(buf))] + LoadStatementsFrom(lines[1..], "")
  }

  /** The number of lines that hold a semicolon. */
  function SemicolonLines(lines: seq<string>): nat
  {
    if lines == [] then 0 else (if ';' in lines[0] then 1 else 0) + SemicolonLines(lines[1..])
  }

  lemma SemicolonSurvivesTrim(buffer: string, line: string)
    requires ';' in line
    ensures ';' in Trim(buffer + line + " ")
  {
    var buf := buffer + line + " ";
    var i := IndexOf(line, ';');
    assert buf[|buffer| + i] == ';';
    TrimKeeps(buf, ';');
  }

  /** The trimmed text before the first semicolon. */
  function CutAtSemicolon(text: string): (stmt: string)
    requires ';' in text
    ensures ';' !in stmt
  {
    var cut := IndexOf(text, ';');
    TrimKeeps(text[..cut], ';');
    Trim(text[..cut])
  }

  function LoadStatements(lines: seq<string>): seq<string>
  {
    LoadStatementsFrom(lines, "")
  }

  /** One step of `LoadStatementsFrom`, at line `i`. */
  lemma LoadStatementsFromAt(lines: seq<string>, i: nat, buffer: string)
    requires i < |lines|
    ensures ';' !in lines[i] ==>
      LoadStatementsFrom(lines[i..], buffer) == LoadStatementsFrom(lines[i + 1..], buffer + lines[i] + " ")
    ensures ';' in lines[i] ==>
      && ';' in Trim(buffer + lines[i] + " ")
      && LoadStatementsFrom(lines[i..], buffer)
           == [CutAtSemicolon(Trim(buffer + lines[i] + " "))] + LoadStatementsFrom(lines[i + 1..], "")
  {
    assert lines[i..][0] == lines[i] && lines[i..][1..] == lines[i + 1..];
    if ';' in lines[i] {
      SemicolonSurvivesTrim(buffer, lines[i]);
    }
  }

  /** No statement of the start-up file holds a semicolon. */
  lemma {:induction false} LoadStatementsHaveNoSemicolon(lines: seq<string>, buffer: string)
    ensures forall k :: 0 <= k < |LoadStatementsFrom(lines, buffer)| ==> ';' !in LoadStatementsFrom(lines, buffer)[k]
    decreases |lines|
  {
    if lines != [] {
      var buf := buffer + lines[0] + " ";
      if ';' !in lines[0] {
        LoadStatementsHaveNoSemicolon(lines[1..], buf);
      } else {
        LoadStatementsHaveNoSemicolon(lines[1..], "");
      }
    }
  }

  /** The start-up file gives one statement per line that holds a
      semicolon, whatever is pending. */
  lemma {:induction false} OneLoadStatementPerSemicolonLine(lines: seq<string>, buffer: string)
    ensures |LoadStatementsFrom(lines, buffer)| == SemicolonLines(lines)
    decreases |lines|
  {
    if lines != [] {
      if ';' !in lines[0] {
        OneLoadStatementPerSemicolonLine(lines[1..], buffer + lines[0] + " ");
      } else {
        OneLoadStatementPerSemicolonLine(lines[1..], "");
      }
    }
  }

  /** One line read by `startREPL` with `buffer` pending: the statement to
      run, if any, and the buffer after the line. A blank line changes
      nothing; a line without a semicolon is appended with a space; at a
      semicolon the buffer and the text before it, trimmed, form the
      statement, and the text after it becomes the new buffer, with no space
      added. */
  function ReplStep(buffer: string, line: string): (r: (Option<string>, string))
    ensures r.0.Some? ==> r.0.value != "" && Trim(r.0.value) == r.0.value
  {
    if Trim(line) == "" then (None, buffer)
    else
      var at := IndexOf(line, ';');
      if at < 0 then (None, buffer + line + " ")
      else
        var text := buffer + line[..at];
        TrimIdempotent(text);
        var command := Trim(text);
        (if command != "" then Some(command) else None, line[at + 1..])
  }

  /** The statements `startREPL` runs for some lines, when none of them ends
      the session. */
  function ReplStatements(buffer: string, lines: seq<string>): (stmts: seq<string>)
    decreases |lines|
  {
    if lines == [] then []
    else
      var r := ReplStep(buffer, lines[0]);
      (if r.0.Some? then [r.0.value] else []) + ReplStatements(r.1, lines[1..])
  }

  /** The console gives at most one statement per line, each non-empty and
      trimmed. */
  lemma {:induction false} ReplStatementsTrimmed(buffer: string, lines: seq<string>)
    ensures |ReplStatements(buffer, lines)| <= |lines|
    ensures forall k :: 0 <= k < |ReplStatements(buffer, lines)| ==> IsStatement(ReplStatements(buffer, lines)[k])
    decreases |lines|
  {
    if lines != [] {
      var r := ReplStep(buffer, lines[0]);
      ReplStatementsTrimmed(r.1, lines[1..]);
      var rest := ReplStatements(r.1, lines[1..]);
      if r.0.Some? {
        StatementsCons(r.0.value, rest);
        assert ReplStatements(buffer, lines) == [r.0.value] + rest;
      }
    }
  }

  lemma StatementsCons(x: string, rest: seq<string>)
    requires IsStatement(x) && forall k :: 0 <= k < |rest| ==> IsStatement(rest[k])
    ensures forall k :: 0 <= k < |[x] + rest| ==> IsStatement(([x] + rest)[k])
  {
    forall k | 0 <= k < |[x] + rest| ensures IsStatement(([x] + rest)[k]) {
      if k > 0 { assert ([x] + rest)[k] == rest[k - 1]; }
    }
  }

  /** A statement as the console hands it on: non-empty and trimmed. */
  predicate IsStatement(s: string)
  {
    s != "" && Trim(s) == s
  }

  /** One step of `ReplStatements`, at line `i`. */
  lemma ReplStatementsAt(buffer: string, lines: seq<string>, i: nat)
    requires i < |lines|
    ensures var r := ReplStep(buffer, lines[i]);
      && (r.0.Some? ==> ReplStatements(buffer, lines[i..]) == [r.0.value] + ReplStatements(r.1, lines[i + 1..]))
      && (r.0.None? ==> ReplStatements(buffer, lines[i..]) == ReplStatements(r.1, lines[i + 1..]))
  {
    assert lines[i..][0] == lines[i] && lines[i..][1..] == lines[i + 1..];
  }

  /** The position of the first `c` in `x + [c] + y` when `x` has none. */
  lemma IndexOfAfter(x: string, c: char, y: string)
    requires c !in x
    ensures IndexOf(x + [c] + y, c) == |x|
  {
    var s := x + [c] + y;
    assert s[|x|] == c;
  }

  /** A line holding a semicolon runs the buffer and the text before it, and
      keeps the text after it as the new buffer. */
  lemma ReplStepAtSemicolon(buffer: string, before: string, after: string)
    requires ';' !in before && Trim(buffer + before) != ""
    ensures ReplStep(buffer, before + ";" + after) == (Some(Trim(buffer + before)), after)
  {
    var line := before + ";" + after;
    IndexOfAfter(before, ';', after);
    assert line[..|before|] == before;
    assert line[|before| + 1..] == after;
    TrimKeeps(line, ';');
    assert ';' in line by { assert line[|before|] == ';'; }
  }

  /** The text after a semicolon is glued to the next line without a space:
      on lines `x;y` and `z;w` the REPL runs `x` (after the buffer) and then
      `yz`, and `w` is left waiting in the buffer. */
  lemma ReplGluesRemainder(buffer: string, x: string, y: string, z: string, w: string)
    requires ';' !in x && ';' !in z
    requires Trim(buffer + x) != "" && Trim(y + z) != ""
    ensures ReplStatements(buffer, [x + ";" + y, z + ";" + w]) == [Trim(buffer + x), Trim(y + z)]
  {
    ReplStepAtSemicolon(buffer, x, y);
    ReplTwoLines(buffer, x + ";" + y, z + ";" + w);
    ReplLastLine(y, z, w);
  }

  /** A last line `z;w` runs the buffer glued to `z`. */
  lemma ReplLastLine(buffer: string, z: string, w: string)
    requires ';' !in z && Trim(buffer + z) != ""
    ensures ReplStatements(buffer, [z + ";" + w]) == [Trim(buffer + z)]
  {
    ReplStepAtSemicolon(buffer, z, w);
    ReplStatementsCons(buffer, z + ";" + w, []);
    assert [z + ";" + w] + [] == [z + ";" + w];
    assert ReplStatements(w, []) == [];
  }

  lemma ReplTwoLines(buffer: string, first: string, second: string)
    ensures var r := ReplStep(buffer, first);
      ReplStatements(buffer, [first, second]) == (if r.0.Some? then [r.0.value] else []) + ReplStatements(r.1, [second])
  {
    assert [first, second][1..] == [second];
  }

  lemma ReplStatementsCons(buffer: string, line: string, rest: seq<string>)
    ensures var r := ReplStep(buffer, line);
      ReplStatements(buffer, [line] + rest) == (if r.0.Some? then [r.0.value] else []) + ReplStatements(r.1, rest)
  {
    assert ([line] + rest)[1..] == rest;
  }
}
