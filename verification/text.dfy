/** String helpers the console relies on: Python's `str.strip`, the `\w`
    character class, the `", "` -> `" "` replacement of `str.replace`, a
    whitespace tokeniser standing in for `shlex.split`, and the
    "text before the first dot" used to read a class name out of a store key. */
module Text {

  /** Characters that Python's `str.isspace` accepts, which is the set
      `str.strip()` removes when called without arguments. */
  predicate IsSpace(c: char) {
    c == ' ' || c == '\t' || c == '\n' || c == '\r' || c == '\U{B}' || c == '\U{C}'
    || ('\U{1C}' <= c <= '\U{1F}') || c == '\U{85}' || c == '\U{A0}' || c == '\U{1680}'
    || ('\U{2000}' <= c <= '\U{200A}') || c == '\U{2028}' || c == '\U{2029}'
    || c == '\U{202F}' || c == '\U{205F}' || c == '\U{3000}'
  }

  /** The separators of `shlex.split` (its `whitespace` attribute). */
  predicate IsShlexSpace(c: char) {
    c == ' ' || c == '\t' || c == '\r' || c == '\n'
  }

  lemma ShlexSpaceIsSpace(c: char)
    ensures IsShlexSpace(c) ==> IsSpace(c)
  {
  }

  /** The regular-expression class `\w` over ASCII; it coincides with
      `cmd.Cmd.identchars`. */
  predicate IsWordChar(c: char) {
    ('a' <= c <= 'z') || ('A' <= c <= 'Z') || ('0' <= c <= '9') || c == '_'
  }

  /** A non-empty run of word characters: what `\w+` matches. */
  predicate IsWord(s: string) {
    |s| > 0 && forall i :: 0 <= i < |s| ==> IsWordChar(s[i])
  }

  /** What `.*` matches: any text without a line feed. */
  predicate NoNewline(s: string) {
    forall i :: 0 <= i < |s| ==> s[i] != '\n'
  }

  predicate AllSpace(s: string) {
    forall i :: 0 <= i < |s| ==> IsSpace(s[i])
  }

  lemma SplitAt(s: string, i: nat)
    requires i < |s|
    ensures s == s[..i] + ([s[i]] + s[i + 1..])
  {
  }

  /** Length of the longest prefix made of word characters. */
  function WordPrefixLength(s: string): (n: nat)
    ensures n <= |s|
    ensures forall i :: 0 <= i < n ==> IsWordChar(s[i])
    ensures n == |s| || !IsWordChar(s[n])
  {
    if s == [] || !IsWordChar(s[0]) then 0 else 1 + WordPrefixLength(s[1..])
  }

  // ---------------------------------------------------------------------
  // str.strip()
  // ---------------------------------------------------------------------

  /** `s.lstrip()`: the suffix of `s` left after dropping leading whitespace. */
  function TrimLeft(s: string): (r: string)
    ensures |r| <= |s| && r == s[|s| - |r|..]
    ensures forall i :: 0 <= i < |s| - |r| ==> IsSpace(s[i])
    ensures r == [] || !IsSpace(r[0])
  {
    if s != [] && IsSpace(s[0]) then TrimLeft(s[1..]) else s
  }

  /** `s.rstrip()`: the prefix of `s` left after dropping trailing whitespace. */
  function TrimRight(s: string): (r: string)
    ensures |r| <= |s| && r == s[..|r|]
    ensures forall i :: |r| <= i < |s| ==> IsSpace(s[i])
    ensures r == [] || !IsSpace(r[|r| - 1])
  {
    if s != [] && IsSpace(s[|s| - 1]) then TrimRight(s[..|s| - 1]) else s
  }

  /** `s.strip()`. */
  function Strip(s: string): (r: string)
    ensures r == [] || (!IsSpace(r[0]) && !IsSpace(r[|r| - 1]))
    ensures r == [] <==> AllSpace(s)
    ensures |r| <= |s|
  {
    var l := TrimLeft(s);
    assert AllSpace(s) ==> l == [];
    TrimRight(l)
  }

  /** Trimmed text: nothing `strip()` would remove. */
  predicate Trimmed(m: string) {
    m == [] || (!IsSpace(m[0]) && !IsSpace(m[|m| - 1]))
  }

  lemma {:induction false} TrimLeftSkips(a: string, t: string)
    requires AllSpace(a)
    requires t == [] || !IsSpace(t[0])
    ensures TrimLeft(a + t) == t
  {
    if a != [] {
      assert (a + t)[1..] == a[1..] + t;
      TrimLeftSkips(a[1..], t);
    }
  }

  lemma {:induction false} TrimRightSkips(t: string, b: string)
    requires AllSpace(b)
    requires t == [] || !IsSpace(t[|t| - 1])
    ensures TrimRight(t + b) == t
  {
    if b != [] {
      assert (t + b)[..|t + b| - 1] == t + b[..|b| - 1];
      TrimRightSkips(t, b[..|b| - 1]);
    }
  }

  /** `strip()` is characterised by what it keeps: whatever trimmed text sits
      between two runs of whitespace is exactly the result. */
  lemma StripUnique(a: string, m: string, b: string)
    requires AllSpace(a) && AllSpace(b) && Trimmed(m)
    ensures Strip(a + m + b) == m
  {
    if m == [] {
      assert a + m + b == a + b;
      assert AllSpace(a + b);
    } else {
      assert a + m + b == a + (m + b);
      TrimLeftSkips(a, m + b);
      TrimRightSkips(m, b);
    }
  }

  lemma StripIdempotent(s: string)
    ensures Strip(Strip(s)) == Strip(s)
  {
    var m := Strip(s);
    assert m == [] + m + [];
    StripUnique([], m, []);
  }

  // ---------------------------------------------------------------------
  // str.replace(", ", " ")
  // ---------------------------------------------------------------------

  /** `s.replace(", ", " ")`: left-to-right, non-overlapping replacement. */
  function ReplaceCommaSpace(s: string): (r: string)
    ensures |r| <= |s|
  {
    if |s| >= 2 && s[0] == ',' && s[1] == ' ' then " " + ReplaceCommaSpace(s[2..])
    else if s == [] then []
    else [s[0]] + ReplaceCommaSpace(s[1..])
  }

  /** Position `i` of `s` holds a comma with a space right after it. */
  predicate CommaBeforeSpace(s: string, i: nat)
    requires i < |s|
  {
    s[i] == ',' && i + 1 < |s| && s[i + 1] == ' '
  }

  /** Reference definition: keep every character except a comma that a space
      follows. Because `", "` cannot overlap itself, this is what replacing
      every occurrence of `", "` by `" "` amounts to. */
  function DropCommasBeforeSpaces(s: string): string {
    if s == [] then []
    else (if CommaBeforeSpace(s, 0) then [] else [s[0]]) + DropCommasBeforeSpaces(s[1..])
  }

  lemma {:induction false} ReplaceCommaSpaceIsDrop(s: string)
    ensures ReplaceCommaSpace(s) == DropCommasBeforeSpaces(s)
  {
    if |s| >= 2 && s[0] == ',' && s[1] == ' ' {
      ReplaceCommaSpaceIsDrop(s[2..]);
      assert s[1..][1..] == s[2..];
      assert !CommaBeforeSpace(s[1..], 0);
    } else if s != [] {
      ReplaceCommaSpaceIsDrop(s[1..]);
    }
  }

  /** Text without commas passes through the replacement untouched. */
  lemma {:induction false} ReplaceWithoutComma(s: string)
    requires forall i :: 0 <= i < |s| ==> s[i] != ','
    ensures ReplaceCommaSpace(s) == s
  {
    if s != [] {
      ReplaceWithoutComma(s[1..]);
      assert [s[0]] + s[1..] == s;
    }
  }

  /** The replacement keeps the last character (a comma there has no space
      after it); the first becomes a space only when the text starts with
      `", "`. */
  lemma {:induction false} ReplaceKeepsEnds(s: string)
    requires s != []
    ensures ReplaceCommaSpace(s) != []
    ensures ReplaceCommaSpace(s)[|ReplaceCommaSpace(s)| - 1] == s[|s| - 1]
    ensures ReplaceCommaSpace(s)[0] == (if CommaBeforeSpace(s, 0) then ' ' else s[0])
  {
    if |s| >= 2 && s[0] == ',' && s[1] == ' ' {
      if |s| > 2 {
        ReplaceKeepsEnds(s[2..]);
      }
    } else if |s| > 1 {
      ReplaceKeepsEnds(s[1..]);
    }
  }

  // ---------------------------------------------------------------------
  // shlex.split, as whitespace splitting
  // ---------------------------------------------------------------------

  /** A token: non-empty text without separators. */
  predicate IsToken(t: string) {
    |t| > 0 && forall i :: 0 <= i < |t| ==> !IsShlexSpace(t[i])
  }

  predicate AllTokens(toks: seq<string>) {
    forall i :: 0 <= i < |toks| ==> IsToken(toks[i])
  }

  /** Length of the longest separator-free prefix. */
  function TokenLength(s: string): (n: nat)
    ensures n <= |s|
    ensures forall i :: 0 <= i < n ==> !IsShlexSpace(s[i])
    ensures n == |s| || IsShlexSpace(s[n])
  {
    if s == [] || IsShlexSpace(s[0]) then 0 else 1 + TokenLength(s[1..])
  }

  /** The tokens of `s`, left to right. */
  function Tokenize(s: string): (toks: seq<string>)
    ensures AllTokens(toks)
    decreases |s|
  {
    if s == [] then []
    else if IsShlexSpace(s[0]) then Tokenize(s[1..])
    else
      var n := TokenLength(s);
      [s[..n]] + Tokenize(s[n..])
  }

  /** Tokens joined with single spaces: the inverse of `Tokenize`. */
  function Join(toks: seq<string>): string {
    if |toks| == 0 then ""
    else if |toks| == 1 then toks[0]
    else toks[0] + " " + Join(toks[1..])
  }

  lemma {:induction false} TokenLengthOfToken(t: string, rest: string)
    requires forall i :: 0 <= i < |t| ==> !IsShlexSpace(t[i])
    requires rest == [] || IsShlexSpace(rest[0])
    ensures TokenLength(t + rest) == |t|
  {
    if t == [] {
      assert t + rest == rest;
    } else {
      assert (t + rest)[1..] == t[1..] + rest;
      TokenLengthOfToken(t[1..], rest);
    }
  }

  lemma {:induction false} TokenizeJoin(toks: seq<string>)
    requires AllTokens(toks)
    ensures Tokenize(Join(toks)) == toks
  {
    if |toks| == 1 {
      var t := toks[0];
      TokenLengthOfToken(t, []);
      assert t + [] == t;
      assert t[..|t|] == t && t[|t|..] == [];
    } else if |toks| > 1 {
      var t := toks[0];
      var rest := Join(toks[1..]);
      var s := t + " " + rest;
      assert s == t + (" " + rest);
      TokenLengthOfToken(t, " " + rest);
      assert s[..|t|] == t;
      assert s[|t|..] == " " + rest;
      assert (" " + rest)[1..] == rest;
      TokenizeJoin(toks[1..]);
      assert [t] + toks[1..] == toks;
    }
  }

  /** A string yields no tokens exactly when it consists of separators. */
  lemma {:induction false} TokenizeEmpty(s: string)
    ensures Tokenize(s) == [] <==> forall i :: 0 <= i < |s| ==> IsShlexSpace(s[i])
  {
    if s != [] && IsShlexSpace(s[0]) {
      TokenizeEmpty(s[1..]);
      assert forall i :: 1 <= i < |s| ==> s[i] == s[1..][i - 1];
    }
  }

  /** Text whose first character is not whitespace yields at least one token. */
  lemma SolidStartHasToken(s: string)
    requires s != [] && !IsSpace(s[0])
    ensures |Tokenize(s)| > 0
  {
    ShlexSpaceIsSpace(s[0]);
  }

  /** The tokens written one after another. */
  function Concat(toks: seq<string>): string {
    if toks == [] then "" else toks[0] + Concat(toks[1..])
  }

  /** The text with its separators deleted. */
  function Solid(s: string): string {
    if s == [] then "" else (if IsShlexSpace(s[0]) then "" else [s[0]]) + Solid(s[1..])
  }

  lemma {:induction false} SolidAppend(a: string, b: string)
    ensures Solid(a + b) == Solid(a) + Solid(b)
  {
    if a != [] {
      assert (a + b)[1..] == a[1..] + b;
      SolidAppend(a[1..], b);
    } else {
      assert a + b == b;
    }
  }

  lemma {:induction false} SolidOfToken(t: string)
    requires forall i :: 0 <= i < |t| ==> !IsShlexSpace(t[i])
    ensures Solid(t) == t
  {
    if t != [] {
      SolidOfToken(t[1..]);
      assert [t[0]] + t[1..] == t;
    }
  }

  /** Every character of the tokens comes from the text and every
      non-separator of the text lands in a token: concatenating the tokens
      gives the text with its separators deleted. */
  lemma {:induction false} TokenizeKeepsText(s: string)
    ensures Concat(Tokenize(s)) == Solid(s)
    decreases |s|
  {
    if s != [] {
      if IsShlexSpace(s[0]) {
        TokenizeKeepsText(s[1..]);
      } else {
        var n := TokenLength(s);
        TokenizeKeepsText(s[n..]);
        assert s == s[..n] + s[n..];
        SolidAppend(s[..n], s[n..]);
        SolidOfToken(s[..n]);
        var toks := Tokenize(s);
        assert toks == [s[..n]] + Tokenize(s[n..]);
        assert toks[1..] == Tokenize(s[n..]);
      }
    }
  }

  // ---------------------------------------------------------------------
  // str(k).split(".")[0]
  // ---------------------------------------------------------------------

  /** The text before the first dot, or all of `s` when it has none. */
  function BeforeFirstDot(s: string): (r: string)
    ensures |r| <= |s| && r == s[..|r|]
    ensures forall i :: 0 <= i < |r| ==> r[i] != '.'
    ensures |r| < |s| ==> s[|r|] == '.'
  {
    if s == [] || s[0] == '.' then [] else [s[0]] + BeforeFirstDot(s[1..])
  }

  lemma BeforeFirstDotOfJoin(a: string, b: string)
    requires forall i :: 0 <= i < |a| ==> a[i] != '.'
    ensures BeforeFirstDot(a + "." + b) == a
  {
    var s := a + "." + b;
    assert forall i :: 0 <= i < |a| ==> s[i] == a[i];
    assert s[|a|] == '.';
  }
}
