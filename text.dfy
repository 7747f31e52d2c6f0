/**
 * The string operations the FSM designer takes from java.lang.String, restricted
 * to ASCII: character classes, toUpperCase/toLowerCase, equalsIgnoreCase, trim,
 * the whitespace and comma splits, indexOf, endsWith and String.join.
 *
 * Whitespace for the regular expressions is the set `\s` matches (space, tab,
 * line feed, vertical tab, form feed, carriage return); `Trim` is Java's
 * trim(), which strips every character up to U+0020, control characters
 * included.
 */
module Text {

  predicate IsLetter(c: char) { 'a' <= c <= 'z' || 'A' <= c <= 'Z' }

  predicate IsDigit(c: char) { '0' <= c <= '9' }

  /** The character class `[a-zA-Z0-9]`. */
  predicate IsAlnum(c: char) { IsLetter(c) || IsDigit(c) }

  predicate IsLowerLetter(c: char) { 'a' <= c <= 'z' }

  function UpperChar(c: char): (u: char)
    ensures IsLowerLetter(c) ==> u as int == c as int - 32
    ensures !IsLowerLetter(c) ==> u == c
    ensures !IsLowerLetter(u)
  {
    if IsLowerLetter(c) then (c as int - 32) as char else c
  }

  function LowerChar(c: char): (l: char)
    ensures 'A' <= c <= 'Z' ==> l as int == c as int + 32
    ensures !('A' <= c <= 'Z') ==> l == c
  {
    if 'A' <= c <= 'Z' then (c as int + 32) as char else c
  }

  /** String.toUpperCase() on ASCII text. */
  function Upper(s: string): (u: string)
  {
    seq(|s|, i requires 0 <= i < |s| => UpperChar(s[i]))
  }

  /** String.toLowerCase() on ASCII text. */
  function Lower(s: string): (l: string)
  {
    seq(|s|, i requires 0 <= i < |s| => LowerChar(s[i]))
  }

  /** A string that toUpperCase() leaves unchanged. */
  predicate IsUpperCase(s: string) { Upper(s) == s }

  /** String.equalsIgnoreCase on ASCII text: same length and, position by
      position, the same character once both are upper-cased. */
  predicate EqualsIgnoreCase(a: string, b: string)
  {
    |a| == |b| && forall i :: 0 <= i < |a| ==> UpperChar(a[i]) == UpperChar(b[i])
  }

  /** `s.matches("[a-zA-Z0-9]")`: exactly one letter or digit. */
  predicate IsSymbolText(s: string) { |s| == 1 && IsAlnum(s[0]) }

  /** `s.matches("[a-zA-Z0-9]+")`: one or more letters or digits. */
  predicate IsStateName(s: string)
  {
    |s| >= 1 && forall i :: 0 <= i < |s| ==> IsAlnum(s[i])
  }

  lemma UpperCharIdempotent(c: char)
    ensures UpperChar(UpperChar(c)) == UpperChar(c)
  {
  }

  lemma UpperIdempotent(s: string)
    ensures IsUpperCase(Upper(s))
  {
    assert forall i :: 0 <= i < |s| ==> Upper(Upper(s))[i] == Upper(s)[i];
  }

  /** Case-insensitive equality is equality of the upper-cased forms. */
  lemma EqualsIgnoreCaseIffSameUpper(a: string, b: string)
    ensures EqualsIgnoreCase(a, b) <==> Upper(a) == Upper(b)
  {
    if Upper(a) == Upper(b) {
      assert |a| == |Upper(a)| == |Upper(b)| == |b|;
      forall i | 0 <= i < |a| ensures UpperChar(a[i]) == UpperChar(b[i]) {
        assert Upper(a)[i] == Upper(b)[i];
      }
    }
  }

  lemma LowerOfUpperChar(c: char)
    ensures LowerChar(UpperChar(c)) == LowerChar(c)
  {
  }

  /** Strings equal ignoring case have equal lower-case forms. */
  lemma EqualsIgnoreCaseSameLower(a: string, b: string)
    requires EqualsIgnoreCase(a, b)
    ensures Lower(a) == Lower(b)
  {
    forall i | 0 <= i < |a| ensures Lower(a)[i] == Lower(b)[i] {
      LowerOfUpperChar(a[i]);
      LowerOfUpperChar(b[i]);
    }
  }

  // ---------------------------------------------------------------------
  // Whitespace, trim and the whitespace split

  predicate IsSpace(c: char)
  {
    c == ' ' || c == '\t' || c == '\n' || c == '\r' || c as int == 11 || c as int == 12
  }

  predicate HasNoSpace(s: string) { forall i :: 0 <= i < |s| ==> !IsSpace(s[i]) }

  /** A token of `split("\\s+")`: non-empty and free of whitespace. */
  predicate IsWord(w: string) { w != [] && HasNoSpace(w) }

  /** The whitespace the pattern `\\s*` absorbs at the start of `s`, removed. */
  function StripSpacesLeft(s: string): (t: string)
    ensures |t| <= |s| && t == s[|s| - |t|..]
    ensures t == [] || !IsSpace(t[0])
    ensures forall i :: 0 <= i < |s| - |t| ==> IsSpace(s[i])
  {
    if s != [] && IsSpace(s[0]) then StripSpacesLeft(s[1..]) else s
  }

  /** The whitespace the pattern `\\s*` absorbs at the end of `s`, removed. */
  function StripSpacesRight(s: string): (t: string)
    ensures |t| <= |s| && t == s[..|t|]
    ensures t == [] || !IsSpace(t[|t| - 1])
    ensures forall i :: |t| <= i < |s| ==> IsSpace(s[i])
  {
    if s != [] && IsSpace(s[|s| - 1]) then StripSpacesRight(s[..|s| - 1]) else s
  }

  /** A character that String.trim() removes: any code point up to U+0020. */
  predicate IsTrimmable(c: char) { c as int <= 32 }

  function TrimStart(s: string): (t: string)
    ensures |t| <= |s| && t == s[|s| - |t|..]
    ensures t == [] || !IsTrimmable(t[0])
    ensures forall i :: 0 <= i < |s| - |t| ==> IsTrimmable(s[i])
  {
    if s != [] && IsTrimmable(s[0]) then TrimStart(s[1..]) else s
  }

  function TrimEnd(s: string): (t: string)
    ensures |t| <= |s| && t == s[..|t|]
    ensures t == [] || !IsTrimmable(t[|t| - 1])
    ensures forall i :: |t| <= i < |s| ==> IsTrimmable(s[i])
  {
    if s != [] && IsTrimmable(s[|s| - 1]) then TrimEnd(s[..|s| - 1]) else s
  }

  /** String.trim(). */
  function Trim(s: string): (t: string)
    ensures t == [] || (!IsTrimmable(t[0]) && !IsTrimmable(t[|t| - 1]))
    ensures |t| <= |s|
  {
    TrimEnd(TrimStart(s))
  }

  /** `s[a..b]` is what trim() keeps of `s`, and everything outside it is a
      character trim() removes. */
  predicate IsTrimSlice(s: string, a: int, b: int)
  {
    && 0 <= a <= b <= |s| && Trim(s) == s[a..b]
    && (forall i :: 0 <= i < a ==> IsTrimmable(s[i]))
    && (forall i :: b <= i < |s| ==> IsTrimmable(s[i]))
  }

  /** trim() keeps one contiguous part of the string and removes only
      characters it may remove, on both sides of that part. */
  lemma TrimIsSlice(s: string)
    ensures exists a, b :: IsTrimSlice(s, a, b)
  {
    var a := |s| - |TrimStart(s)|;
    var b := a + |Trim(s)|;
    TrimKeepsMiddle(s);
    TrimDropsTail(s);
    assert IsTrimSlice(s, a, b);
  }

  lemma TrimKeepsMiddle(s: string)
    ensures Trim(s) == s[|s| - |TrimStart(s)|..|s| - |TrimStart(s)| + |Trim(s)|]
  {
    var l := TrimStart(s);
    var t := TrimEnd(l);
    var a := |s| - |l|;
    forall k | 0 <= k < |t| ensures t[k] == s[a + k] {
      assert t[k] == l[k];
    }
    assert t == s[a..a + |t|];
  }

  lemma TrimDropsTail(s: string)
    ensures forall i :: |s| - |TrimStart(s)| + |Trim(s)| <= i < |s| ==> IsTrimmable(s[i])
  {
    var l := TrimStart(s);
    var a := |s| - |l|;
    assert forall i :: a <= i < |s| ==> s[i] == l[i - a];
    assert forall i :: |TrimEnd(l)| <= i < |l| ==> IsTrimmable(l[i]);
  }

  /** A string made only of characters trim() removes. */
  predicate IsBlank(s: string) { forall i :: 0 <= i < |s| ==> IsTrimmable(s[i]) }

  /** trim() gives the empty string exactly for blank strings. */
  lemma TrimEmptyIffBlank(s: string)
    ensures Trim(s) == [] <==> IsBlank(s)
  {
    var l := TrimStart(s);
    if Trim(s) == [] {
      assert l == [];
    }
  }

  /** trim() leaves alone a string that neither starts nor ends with a
      character it removes. */
  lemma TrimUnchanged(s: string)
    requires s == [] || (!IsTrimmable(s[0]) && !IsTrimmable(s[|s| - 1]))
    ensures Trim(s) == s
  {
  }

  /** trim() of a trimmed string changes nothing. */
  lemma TrimIdempotent(s: string)
    ensures Trim(Trim(s)) == Trim(s)
  {
    TrimUnchanged(Trim(s));
  }

  /** trim() keeps a contiguous part of the string: every character it keeps
      comes from `s`, and it keeps every character it may not remove. */
  lemma TrimKeeps(s: string, c: char)
    ensures c in Trim(s) ==> c in s
    ensures c in s && !IsTrimmable(c) ==> c in Trim(s)
  {
    var l := TrimStart(s);
    var t := TrimEnd(l);
    assert l == s[|s| - |l|..] && t == l[..|t|];
    if c in t {
      var i :| 0 <= i < |t| && t[i] == c;
      assert s[|s| - |l| + i] == c;
    }
    if c in s && !IsTrimmable(c) {
      var i :| 0 <= i < |s| && s[i] == c;
      assert i >= |s| - |l|;
      assert l[i - (|s| - |l|)] == c;
      assert i - (|s| - |l|) < |t|;
      assert t[i - (|s| - |l|)] == c;
    }
  }

  /** Whitespace is trimmable. */
  lemma SpaceIsTrimmable(c: char)
    ensures IsSpace(c) ==> IsTrimmable(c)
  {
  }

  /** Length of the run of non-whitespace characters that starts `s`. */
  function WordLength(s: string): (n: nat)
    ensures n <= |s|
    ensures HasNoSpace(s[..n])
    ensures n < |s| ==> IsSpace(s[n])
  {
    if s == [] || IsSpace(s[0]) then 0 else 1 + WordLength(s[1..])
  }

  /** The maximal runs of non-whitespace characters of `s`, in order: what
      `s.trim().split("\\s+")` returns once empty strings are dropped. */
  function Words(s: string): (ws: seq<string>)
    ensures forall k :: 0 <= k < |ws| ==> IsWord(ws[k])
    decreases |s|
  {
    if s == [] then []
    else if IsSpace(s[0]) then Words(s[1..])
    else
      var n := WordLength(s);
      [s[..n]] + Words(s[n..])
  }

  /** `s.trim().split("\\s+")`: the words of the trimmed string; Java returns
      the one-element array `[""]` for a blank string. */
  function SplitWs(s: string): (parts: seq<string>)
    ensures |parts| >= 1
    ensures parts == [""] || forall k :: 0 <= k < |parts| ==> IsWord(parts[k])
  {
    var ws := Words(Trim(s));
    if ws == [] then [""] else ws
  }

  /** The tokens a tokenizer keeps: the split with empty strings dropped. */
  function Tokens(s: string): (ts: seq<string>)
    ensures forall k :: 0 <= k < |ts| ==> IsWord(ts[k])
  {
    Words(Trim(s))
  }

  /** The split of a string gives no token exactly when the string is blank. */
  lemma TokensEmptyIffBlank(s: string)
    ensures Tokens(s) == [] <==> IsBlank(s)
  {
    TrimEmptyIffBlank(s);
    var t := Trim(s);
    if t != [] {
      SpaceIsTrimmable(t[0]);
      assert Words(t) == [t[..WordLength(t)]] + Words(t[WordLength(t)..]);
    }
  }

  /** A whitespace character after the text does not lengthen its first
      word. */
  lemma {:induction false} WordLengthSpaceAfter(s: string, c: char)
    requires IsSpace(c)
    ensures WordLength(s + [c]) == WordLength(s)
    decreases |s|
  {
    if s != [] && !IsSpace(s[0]) {
      assert (s + [c])[1..] == s[1..] + [c];
      WordLengthSpaceAfter(s[1..], c);
    }
  }

  /** A whitespace character after the text adds no word. */
  lemma {:induction false} WordsSpaceAfter(s: string, c: char)
    requires IsSpace(c)
    ensures Words(s + [c]) == Words(s)
    decreases |s|
  {
    if s == [] {
      assert Words([c]) == Words([c][1..]);
    } else if IsSpace(s[0]) {
      assert (s + [c])[1..] == s[1..] + [c];
      WordsSpaceAfter(s[1..], c);
    } else {
      var n := WordLength(s);
      WordLengthSpaceAfter(s, c);
      assert (s + [c])[..n] == s[..n];
      assert (s + [c])[n..] == s[n..] + [c];
      WordsSpaceAfter(s[n..], c);
    }
  }

  /** Removing leading whitespace changes no word. */
  lemma {:induction false} WordsOfTrimStart(s: string)
    requires forall i :: 0 <= i < |s| ==> IsTrimmable(s[i]) ==> IsSpace(s[i])
    ensures Words(TrimStart(s)) == Words(s)
    decreases |s|
  {
    if s != [] && IsTrimmable(s[0]) {
      assert forall i :: 0 <= i < |s[1..]| ==> s[1..][i] == s[i + 1];
      WordsOfTrimStart(s[1..]);
    }
  }

  /** Removing trailing whitespace changes no word. */
  lemma {:induction false} WordsOfTrimEnd(s: string)
    requires forall i :: 0 <= i < |s| ==> IsTrimmable(s[i]) ==> IsSpace(s[i])
    ensures Words(TrimEnd(s)) == Words(s)
    decreases |s|
  {
    if s != [] && IsTrimmable(s[|s| - 1]) {
      var p := s[..|s| - 1];
      assert s == p + [s[|s| - 1]];
      WordsSpaceAfter(p, s[|s| - 1]);
      assert forall i :: 0 <= i < |p| ==> p[i] == s[i];
      WordsOfTrimEnd(p);
    }
  }

  /** When every character trim() removes is whitespace, the tokens are the
      words of the untrimmed text. */
  lemma TokensOfPlainText(s: string)
    requires forall i :: 0 <= i < |s| ==> IsTrimmable(s[i]) ==> IsSpace(s[i])
    ensures Tokens(s) == Words(s)
  {
    var l := TrimStart(s);
    WordsOfTrimStart(s);
    assert forall i :: 0 <= i < |l| ==> l[i] == s[|s| - |l| + i];
    WordsOfTrimEnd(l);
  }

  /** String.join(sep, xs). */
  function Join(sep: string, xs: seq<string>): string
  {
    if xs == [] then ""
    else if |xs| == 1 then xs[0]
    else xs[0] + sep + Join(sep, xs[1..])
  }

  lemma {:induction false} WordLengthOfWord(w: string, rest: string)
    requires IsWord(w)
    requires rest == [] || IsSpace(rest[0])
    ensures WordLength(w + rest) == |w|
    decreases |w|
  {
    var s := w + rest;
    if |w| == 1 {
      assert s[1..] == rest;
      if rest != [] { assert WordLength(s[1..]) == 0; }
    } else {
      assert s[1..] == w[1..] + rest;
      assert HasNoSpace(w[1..]) by {
        forall i | 0 <= i < |w[1..]| ensures !IsSpace(w[1..][i]) { assert w[1..][i] == w[i + 1]; }
      }
      WordLengthOfWord(w[1..], rest);
    }
  }

  /** Splitting a space-joined list of words gives the words back. */
  lemma {:induction false} WordsOfJoin(ws: seq<string>)
    requires forall k :: 0 <= k < |ws| ==> IsWord(ws[k])
    ensures Words(Join(" ", ws)) == ws
    decreases |ws|
  {
    if ws == [] {
    } else if |ws| == 1 {
      WordLengthOfWord(ws[0], "");
      assert ws[0][|ws[0]|..] == [];
      assert ws[0][..|ws[0]|] == ws[0];
    } else {
      var w := ws[0];
      var rest := Join(" ", ws[1..]);
      var s := w + " " + rest;
      assert Join(" ", ws) == s;
      WordLengthOfWord(w, " " + rest);
      assert s == w + (" " + rest);
      assert s[..|w|] == w;
      assert s[|w|..] == " " + rest;
      assert (" " + rest)[1..] == rest;
      WordsOfJoin(ws[1..]);
      assert Words(s[|w|..]) == Words(rest);
      assert ws == [w] + ws[1..];
    }
  }

  // ---------------------------------------------------------------------
  // Numbers

  /** Integer.toString of a non-negative number: its decimal digits. */
  function DecimalOf(n: nat): (s: string)
    ensures |s| >= 1
    ensures forall i :: 0 <= i < |s| ==> IsDigit(s[i])
  {
    if n < 10 then [('0' as int + n) as char] else DecimalOf(n / 10) + [('0' as int + n % 10) as char]
  }

  /** The number a string of decimal digits denotes. */
  function DigitsValue(s: string): nat
    requires forall i :: 0 <= i < |s| ==> IsDigit(s[i])
  {
    if s == [] then 0
    else
      assert IsDigit(s[|s| - 1]);
      10 * DigitsValue(s[..|s| - 1]) + (s[|s| - 1] as int - '0' as int)
  }

  /** The digits DecimalOf writes denote the number. */
  lemma {:induction false} DecimalOfValue(n: nat)
    ensures DigitsValue(DecimalOf(n)) == n
    ensures n >= 10 ==> DecimalOf(n)[0] != '0'
  {
    if n >= 10 {
      var s := DecimalOf(n);
      DecimalOfValue(n / 10);
      assert s[..|s| - 1] == DecimalOf(n / 10);
      if n / 10 >= 10 {
        assert s[0] == DecimalOf(n / 10)[0];
      }
    }
  }

  // ---------------------------------------------------------------------
  // Searching

  /** String.indexOf(char): the first position of `c`, or -1. */
  function IndexOf(s: string, c: char): (r: int)
    ensures -1 <= r < |s|
    ensures r >= 0 ==> s[r] == c
    ensures forall i :: 0 <= i < |s| && (r < 0 || i < r) ==> s[i] != c
  {
    if s == [] then -1
    else if s[0] == c then 0
    else
      var r := IndexOf(s[1..], c);
      assert s[1..][..if r < 0 then 0 else r] == s[1..1 + (if r < 0 then 0 else r)];
      if r < 0 then -1 else r + 1
  }

  predicate StartsWith(s: string, prefix: string)
  {
    |prefix| <= |s| && s[..|prefix|] == prefix
  }

  /** A string starts with what was put in front of it. */
  lemma StartsWithAppended(prefix: string, rest: string)
    ensures StartsWith(prefix + rest, prefix)
  {
    assert (prefix + rest)[..|prefix|] == prefix;
  }

  /** String.endsWith(suffix). */
  predicate EndsWith(s: string, suffix: string)
  {
    |suffix| <= |s| && s[|s| - |suffix|..] == suffix
  }

  /** String.indexOf(String): the first position where `sub` starts, or -1. */
  function IndexOfText(s: string, sub: string): (r: int)
    ensures -1 <= r <= |s|
    ensures r >= 0 ==> StartsWith(s[r..], sub)
    ensures r >= 0 ==> forall i :: 0 <= i < r ==> !StartsWith(s[i..], sub)
    ensures r < 0 ==> forall i :: 0 <= i <= |s| ==> !StartsWith(s[i..], sub)
    decreases |s|
  {
    if StartsWith(s, sub) then 0
    else if s == [] then -1
    else
      var r := IndexOfText(s[1..], sub);
      TailSuffixes(s);
      if r < 0 then -1 else r + 1
  }

  /** Every suffix of `s` past its first character is a suffix of its tail. */
  lemma TailSuffixes(s: string)
    requires s != []
    ensures forall i :: 1 <= i <= |s| ==> s[i..] == s[1..][i - 1..]
  {
  }

  // ---------------------------------------------------------------------
  // The comma split `raw.split("\\s*,\\s*")`

  /** `s` cut at every comma (the commas removed). */
  function CommaPieces(s: string): (ps: seq<string>)
    ensures |ps| >= 1
    ensures |ps| == 1 <==> ',' !in s
    ensures forall k :: 0 <= k < |ps| ==> ',' !in ps[k]
    decreases |s|
  {
    var i := IndexOf(s, ',');
    if i < 0 then [s]
    else
      assert forall c :: c in s[..i] ==> c != ',';
      [s[..i]] + CommaPieces(s[i + 1..])
  }

  /** Piece `i` with the whitespace that the separator pattern absorbs removed:
      the run before a comma and the run after it. */
  function PieceAt(ps: seq<string>, i: nat): string
    requires i < |ps|
  {
    var a := if i > 0 then StripSpacesLeft(ps[i]) else ps[i];
    if i + 1 < |ps| then StripSpacesRight(a) else a
  }

  lemma PiecesHaveNoComma(ps: seq<string>)
    requires forall k :: 0 <= k < |ps| ==> ',' !in ps[k]
    ensures forall i :: 0 <= i < |ps| ==> ',' !in PieceAt(ps, i)
  {
    forall i | 0 <= i < |ps| ensures ',' !in PieceAt(ps, i) {
      var a := if i > 0 then StripSpacesLeft(ps[i]) else ps[i];
      assert forall c :: c in a ==> c in ps[i];
      var b := if i + 1 < |ps| then StripSpacesRight(a) else a;
      assert forall c :: c in b ==> c in a;
    }
  }

  function DropTrailingEmpty(xs: seq<string>): (ys: seq<string>)
    ensures ys <= xs
    ensures ys == [] || ys[|ys| - 1] != ""
  {
    if xs != [] && xs[|xs| - 1] == "" then DropTrailingEmpty(xs[..|xs| - 1]) else xs
  }

  /** `s.split("\\s*,\\s*")`: with no comma, `[s]`; otherwise the trimmed
      pieces with trailing empty strings removed. */
  function SplitCommas(s: string): (parts: seq<string>)
    ensures ',' !in s ==> parts == [s]
    ensures ',' in s ==> parts == [] || parts[|parts| - 1] != ""
    ensures |parts| <= |CommaPieces(s)|
    ensures forall k :: 0 <= k < |parts| ==> ',' !in parts[k]
  {
    PiecesHaveNoComma(CommaPieces(s));
    var ps := CommaPieces(s);
    if |ps| == 1 then ps
    else DropTrailingEmpty(seq(|ps|, i requires 0 <= i < |ps| => PieceAt(ps, i)))
  }
}
