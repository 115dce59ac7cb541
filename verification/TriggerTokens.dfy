/**
 * The tokenizer behind hx-trigger: symbols, string-like runs between quotes or slashes,
 * and single characters. It is total and loses nothing, and it works piece by piece.
 */
module TriggerTokens {
  import opened Prelude

  /** /[_$a-zA-Z]/ */
  predicate SymbolStart(c: char)
  {
    c == '_' || c == '$' || 'a' <= c <= 'z' || 'A' <= c <= 'Z'
  }

  /** What a symbol may start with, and what else it may hold, written out. */
  const LETTERS: string := "abcdefghijklmnopqrstuvwxyz" + "ABCDEFGHIJKLMNOPQRSTUVWXYZ" + "_$"
  const DIGITS: string := "0123456789"

  lemma LettersStart(c: char)
    ensures SymbolStart(c) <==> c in LETTERS
    ensures SymbolCont(c) <==> c in LETTERS + DIGITS
  {
  }

  predicate Digit(c: char)
  {
    '0' <= c <= '9'
  }

  /** /[_$a-zA-Z0-9]/ */
  predicate SymbolCont(c: char)
  {
    SymbolStart(c) || Digit(c)
  }

  predicate StringishStart(c: char)
  {
    c == '"' || c == '\'' || c == '/'
  }

  /** Where the run of symbol characters from position i ends. */
  function SymbolEnd(s: string, i: nat): (end: nat)
    requires i <= |s|
    ensures i <= end <= |s|
    decreases |s| - i
  {
    if i < |s| && SymbolCont(s[i]) then SymbolEnd(s, i + 1) else i
  }

  /** Where a string-like run ends: behind its closing quote, or at the end of the text. */
  function QuotedEnd(s: string, i: nat, quote: char): (end: nat)
    ensures i <= |s| ==> i <= end
    ensures end <= |s|
    decreases |s| - i
  {
    if i >= |s| then |s|
    else if s[i] == quote then i + 1
    else QuotedEnd(s, if s[i] == '\\' then i + 2 else i + 1, quote)
  }

  function TokenEnd(s: string): (end: nat)
    requires s != ""
    ensures 1 <= end <= |s|
  {
    if SymbolStart(s[0]) then SymbolEnd(s, 1)
    else if StringishStart(s[0]) then QuotedEnd(s, 1, s[0])
    else 1
  }

  function Tokens(s: string): (tokens: seq<string>)
    ensures forall t <- tokens :: t != ""
  {
    if s == "" then [] else [s[..TokenEnd(s)]] + Tokens(s[TokenEnd(s)..])
  }

  /** Tokenizing loses nothing: for every text the tokens are non-empty and make it up. */
  lemma {:induction false} TokensLossless(s: string)
    ensures Concat(Tokens(s)) == s
  {
    if s != "" {
      var end := TokenEnd(s);
      TokensLossless(s[end..]);
      assert s == s[..end] + s[end..];
    }
  }

  // ---------------------------------------------------------------------------
  // Which list of tokens it is
  // ---------------------------------------------------------------------------

  /** The inside of a closed run: a backslash goes with the character behind it. */
  predicate Body(s: string, quote: char)
  {
    s == "" || if s[0] == '\\' then |s| > 1 && Body(s[2..], quote) else s[0] != quote && Body(s[1..], quote)
  }

  /** The rest of a run that is never closed; it may end in a backslash. */
  predicate OpenBody(s: string, quote: char)
  {
    s == "" || if s[0] == '\\' then |s| == 1 || OpenBody(s[2..], quote) else s[0] != quote && OpenBody(s[1..], quote)
  }

  predicate Quoted(t: string)
  {
    |t| > 1 && t[|t| - 1] == t[0] && Body(t[1..|t| - 1], t[0])
  }

  /**
   * A token in front of others: a symbol with no symbol character behind it, a quoted run,
   * which is left open only at the end of the text, or a single other character.
   */
  predicate Shape(t: string, rest: seq<string>)
  {
    t != "" &&
    if t[0] in LETTERS then
      (forall c <- t :: c in LETTERS + DIGITS)
      && (rest != [] && rest[0] != "" ==> rest[0][0] !in LETTERS + DIGITS)
    else if t[0] in ['"', '\'', '/'] then Quoted(t) || (rest == [] && OpenBody(t[1..], t[0]))
    else |t| == 1
  }

  predicate Lexed(tokens: seq<string>)
  {
    tokens == [] || (Shape(tokens[0], tokens[1..]) && Lexed(tokens[1..]))
  }

  lemma {:induction false} BodyEnds(s: string, i: nat, n: nat, quote: char)
    requires quote != '\\' && i <= n < |s| && s[n] == quote && Body(s[i..n], quote)
    ensures QuotedEnd(s, i, quote) == n + 1
    decreases n - i
  {
    if i < n {
      var next := if s[i] == '\\' then i + 2 else i + 1;
      assert s[i..n][next - i..] == s[next..n];
      BodyEnds(s, next, n, quote);
    }
  }

  lemma {:induction false} OpenEnds(s: string, i: nat, quote: char)
    requires quote != '\\' && i <= |s| && OpenBody(s[i..], quote)
    ensures QuotedEnd(s, i, quote) == |s|
    decreases |s| - i
  {
    if i < |s| {
      var next := if s[i] == '\\' then i + 2 else i + 1;
      if next <= |s| {
        assert s[i..][next - i..] == s[next..];
        OpenEnds(s, next, quote);
      }
    }
  }

  /** A quoted run ends behind its closing quote, or it is never closed. */
  lemma {:induction false} EndsBody(s: string, i: nat, quote: char)
    requires i <= |s|
    ensures var end := QuotedEnd(s, i, quote);
            || (i < end && s[end - 1] == quote && Body(s[i..end - 1], quote))
            || (end == |s| && OpenBody(s[i..], quote))
    decreases |s| - i
  {
    var end := QuotedEnd(s, i, quote);
    if i < |s| && s[i] == quote {
      assert s[i..end - 1] == "";
    } else if i < |s| {
      var next := if s[i] == '\\' then i + 2 else i + 1;
      if next <= |s| {
        EndsBody(s, next, quote);
        assert s[i..][next - i..] == s[next..];
        if next < end {
          assert s[i..end - 1][next - i..] == s[next..end - 1];
        }
      }
    }
  }

  lemma {:induction false} SymbolsRun(s: string, i: nat)
    requires i <= |s|
    ensures var end := SymbolEnd(s, i);
            && (forall k | i <= k < end :: SymbolCont(s[k]))
            && (end < |s| ==> !SymbolCont(s[end]))
    decreases |s| - i
  {
    if i < |s| && SymbolCont(s[i]) {
      SymbolsRun(s, i + 1);
    }
  }

  lemma {:induction false} SymbolRunEnds(s: string, i: nat, n: nat)
    requires i <= n <= |s| && (forall k | i <= k < n :: SymbolCont(s[k])) && (n < |s| ==> !SymbolCont(s[n]))
    ensures SymbolEnd(s, i) == n
    decreases n - i
  {
    if i < n {
      SymbolRunEnds(s, i + 1, n);
    }
  }

  /** What the tokenizer takes first has its shape. */
  lemma FirstShape(s: string)
    requires s != ""
    ensures var end := TokenEnd(s);
            Shape(s[..end], Tokens(s[end..])) && (end < |s| ==> Tokens(s[end..])[0][0] == s[end])
  {
    var end := TokenEnd(s);
    var t, rest := s[..end], Tokens(s[end..]);
    if end < |s| {
      assert rest[0][0] == s[end];
      LettersStart(s[end]);
    }
    LettersStart(s[0]);
    if SymbolStart(s[0]) {
      SymbolsRun(s, 1);
      forall k | 0 <= k < |t|
        ensures t[k] in LETTERS + DIGITS
      {
        LettersStart(s[k]);
      }
    } else if StringishStart(s[0]) {
      EndsBody(s, 1, s[0]);
      if end > 1 && s[end - 1] == s[0] && Body(s[1..end - 1], s[0]) {
        assert t[1..|t| - 1] == s[1..end - 1];
      } else {
        assert t == s && s[end..] == "";
      }
    }
  }

  lemma {:induction false} TokensLexed(s: string)
    ensures Lexed(Tokens(s))
  {
    if s != "" {
      var end := TokenEnd(s);
      FirstShape(s);
      TokensLexed(s[end..]);
      assert Tokens(s)[1..] == Tokens(s[end..]);
      hide Shape, TokenEnd;
    }
  }

  /** A token of the right shape is what the tokenizer takes first. */
  lemma ShapeIsFirst(t: string, rest: seq<string>)
    requires Shape(t, rest) && Lexed(rest)
    ensures TokenEnd(t + Concat(rest)) == |t|
  {
    var s := t + Concat(rest);
    if rest != [] {
      assert Concat(rest)[0] == rest[0][0];
      LettersStart(s[|t|]);
    }
    LettersStart(t[0]);
    if SymbolStart(t[0]) {
      forall k | 1 <= k < |t|
        ensures SymbolCont(s[k])
      {
        assert t[k] in t;
        LettersStart(t[k]);
      }
      SymbolRunEnds(s, 1, |t|);
    } else if StringishStart(t[0]) {
      if Quoted(t) {
        assert s[1..|t| - 1] == t[1..|t| - 1];
        BodyEnds(s, 1, |t| - 1, t[0]);
      } else {
        assert s == t;
        OpenEnds(s, 1, t[0]);
      }
    }
  }

  /**
   * The tokens of a text are the only list that makes it up and in which every token is a
   * longest symbol, a quoted run up to its first unescaped quote, or a single character.
   */
  lemma {:induction false} LexedExactly(s: string, tokens: seq<string>)
    ensures tokens == Tokens(s) <==> Concat(tokens) == s && Lexed(tokens)
    decreases |tokens|
  {
    TokensLossless(s);
    TokensLexed(s);
    if tokens != [] && Concat(tokens) == s && Lexed(tokens) {
      var t, rest := tokens[0], tokens[1..];
      ShapeIsFirst(t, rest);
      LexedExactly(Concat(rest), rest);
      assert s == t + Concat(rest) && t != "";
      assert s[..|t|] == t && s[|t|..] == Concat(rest);
      assert tokens == [t] + rest;
    }
  }

  function From(s: string, i: nat): string
  {
    if i < |s| then s[i..] else ""
  }

  /** tokenizeString: one pass over the text by position. */
  method TokenizeString(str: string) returns (tokens: seq<string>)
    ensures tokens == Tokens(str)
    ensures Concat(tokens) == str && forall t <- tokens :: t != ""
  {
    hide TokenEnd, SymbolEnd, QuotedEnd;
    tokens := [];
    var position := 0;
    while position < |str|
      invariant tokens + Tokens(From(str, position)) == Tokens(str)
    {
      var startPosition := position;
      if SymbolStart(str[position]) {
        position := ScanSymbol(str, position);
      } else if StringishStart(str[position]) {
        position := ScanQuoted(str, position);
      }
      TokenEndAt(str, startPosition, position);
      tokens := Push(tokens, str, startPosition, position);
      position := position + 1;
    }
    assert tokens + [] == tokens;
    TokensLossless(str);
  }

  lemma TokenEndAt(str: string, start: nat, position: nat)
    requires start < |str|
    requires if SymbolStart(str[start]) then start <= position < |str| && SymbolEnd(str[start..], 1) == position + 1 - start
             else if StringishStart(str[start]) then
               start < position && QuotedEnd(str[start..], 1, str[start]) == Upto(str, position) - start
             else position == start
    ensures start <= position && TokenEnd(str[start..]) == Upto(str, position) - start
  {
  }

  /** The end of str.substring(_, position + 1). */
  function Upto(str: string, position: nat): nat
  {
    if position < |str| then position + 1 else |str|
  }

  /** The position of the last character of a symbol. */
  method ScanSymbol(str: string, start: nat) returns (position: nat)
    requires start < |str|
    ensures start <= position < |str| && SymbolEnd(str[start..], 1) == position + 1 - start
  {
    ghost var rest := str[start..];
    position := start;
    while position + 1 < |str| && SymbolCont(str[position + 1])
      invariant start <= position < |str|
      invariant SymbolEnd(rest, 1) == SymbolEnd(rest, position + 1 - start)
    {
      position := position + 1;
    }
  }

  /** The position of the closing quote, or one past the last character looked at. */
  method ScanQuoted(str: string, start: nat) returns (position: nat)
    requires start < |str|
    ensures start < position
    ensures QuotedEnd(str[start..], 1, str[start]) == Upto(str, position) - start
  {
    var startChar := str[start];
    ghost var rest := str[start..];
    position := start + 1;
    while position < |str| && str[position] != startChar
      invariant start < position
      invariant QuotedEnd(rest, 1, startChar) == QuotedEnd(rest, position - start, startChar)
    {
      if str[position] == '\\' {
        position := position + 1;
      }
      position := position + 1;
    }
  }

  /** tokens.push(str.substring(start, position + 1)) */
  method Push(tokens: seq<string>, str: string, start: nat, position: nat) returns (more: seq<string>)
    requires start < |str| && start <= position && TokenEnd(str[start..]) == Upto(str, position) - start
    requires tokens + Tokens(From(str, start)) == Tokens(str)
    ensures more + Tokens(From(str, position + 1)) == Tokens(str)
  {
    var token := str[start..Upto(str, position)];
    more := tokens + [token];
    TokensCons(str, start, position);
    hide Tokens;
    Regroup(tokens, [token], Tokens(From(str, position + 1)));
  }

  lemma TokensCons(str: string, start: nat, position: nat)
    requires start < |str| && start <= position && TokenEnd(str[start..]) == Upto(str, position) - start
    ensures Tokens(From(str, start)) == [str[start..Upto(str, position)]] + Tokens(From(str, position + 1))
  {
    hide TokenEnd;
    var rest, end := str[start..], Upto(str, position) - start;
    assert str[start..Upto(str, position)] == rest[..end];
    assert From(str, position + 1) == rest[end..];
  }

  // ---------------------------------------------------------------------------
  // Piece by piece
  // ---------------------------------------------------------------------------

  /** A string-like run that starts before position i meets its closing quote. */
  predicate QuotedCloses(s: string, i: nat, quote: char)
    decreases |s| - i
  {
    i < |s| && (s[i] == quote || QuotedCloses(s, if s[i] == '\\' then i + 2 else i + 1, quote))
  }

  /** Every string-like run in the text is closed. */
  predicate Closed(s: string)
  {
    s == "" || ((StringishStart(s[0]) ==> QuotedCloses(s, 1, s[0])) && Closed(s[TokenEnd(s)..]))
  }

  /** No symbol runs across the place where two texts meet. */
  predicate Seam(a: string, b: string)
  {
    a == "" || b == "" || !SymbolCont(a[|a| - 1]) || !SymbolCont(b[0])
  }

  lemma {:induction false} SymbolEndAppend(a: string, b: string, i: nat)
    requires 1 <= i <= |a| && SymbolCont(a[i - 1]) && Seam(a, b)
    ensures SymbolEnd(a + b, i) == SymbolEnd(a, i)
    decreases |a| - i
  {
    if i < |a| && SymbolCont(a[i]) {
      SymbolEndAppend(a, b, i + 1);
    }
  }

  lemma {:induction false} QuotedEndAppend(a: string, b: string, i: nat, quote: char)
    requires QuotedCloses(a, i, quote)
    ensures QuotedEnd(a + b, i, quote) == QuotedEnd(a, i, quote)
    decreases |a| - i
  {
    if a[i] != quote {
      QuotedEndAppend(a, b, if a[i] == '\\' then i + 2 else i + 1, quote);
    }
  }

  lemma TokenEndAppend(a: string, b: string)
    requires a != "" && Seam(a, b) && (StringishStart(a[0]) ==> QuotedCloses(a, 1, a[0]))
    ensures TokenEnd(a + b) == TokenEnd(a)
  {
    if SymbolStart(a[0]) {
      SymbolEndAppend(a, b, 1);
    } else if StringishStart(a[0]) {
      QuotedEndAppend(a, b, 1, a[0]);
    }
  }

  /** Tokens do not run from a closed text into the next one. */
  lemma {:induction false} TokensAppend(a: string, b: string)
    requires Closed(a) && Seam(a, b)
    ensures Tokens(a + b) == Tokens(a) + Tokens(b)
  {
    if a == "" {
      assert a + b == b;
    } else {
      hide *;
      var end := TokenEnd(a);
      var rest := a[end..];
      FirstToken(a, b);
      TokensAppend(rest, b);
      Regroup([a[..end]], Tokens(rest), Tokens(b));
    }
  }

  lemma FirstToken(a: string, b: string)
    requires a != "" && Closed(a) && Seam(a, b)
    ensures Closed(a[TokenEnd(a)..]) && Seam(a[TokenEnd(a)..], b)
    ensures Tokens(a) == [a[..TokenEnd(a)]] + Tokens(a[TokenEnd(a)..])
    ensures Tokens(a + b) == [a[..TokenEnd(a)]] + Tokens(a[TokenEnd(a)..] + b)
  {
    TokenEndAppend(a, b);
    hide TokenEnd, Closed, Seam;
    var end := TokenEnd(a);
    assert (a + b)[..end] == a[..end] && (a + b)[end..] == a[end..] + b;
  }

  lemma {:induction false} SymbolToEnd(s: string, i: nat)
    requires i <= |s| && forall k | i <= k < |s| :: SymbolCont(s[k])
    ensures SymbolEnd(s, i) == |s|
    decreases |s| - i
  {
    if i < |s| {
      SymbolToEnd(s, i + 1);
    }
  }

  /** A word of symbol characters is one token. */
  lemma WordIsToken(word: string)
    requires Word(word)
    ensures Tokens(word) == [word] && Closed(word)
  {
    SymbolToEnd(word, 1);
    assert word[..|word|] == word && word[|word|..] == "";
    assert Tokens("") == [] && Closed("");
  }

  predicate Word(word: string)
  {
    word != "" && SymbolStart(word[0]) && forall k | 0 <= k < |word| :: SymbolCont(word[k])
  }

  /** A word in front of a text that starts with no symbol character is a token of its own. */
  lemma WordFirst(word: string, text: string)
    requires Word(word) && (text == "" || !SymbolCont(text[0]))
    ensures Tokens(word + text) == [word] + Tokens(text)
    ensures Closed(word + text) <==> Closed(text)
  {
    var all := word + text;
    SymbolToEnd(word, 1);
    SymbolEndAppend(word, text, 1);
    assert all[..|word|] == word && all[|word|..] == text;
    assert !StringishStart(all[0]);
  }

  /** A single character in front of a text is a token of its own. */
  lemma CharFirst(c: char, text: string)
    requires !SymbolCont(c) && !StringishStart(c)
    ensures Tokens([c] + text) == [[c]] + Tokens(text)
    ensures Closed([c] + text) <==> Closed(text)
  {
    assert ([c] + text)[..1] == [c] && ([c] + text)[1..] == text;
  }

  /** A character that starts neither a symbol nor a string-like run is a token. */
  lemma CharIsToken(c: char)
    requires !SymbolStart(c) && !StringishStart(c)
    ensures Tokens([c]) == [[c]] && Closed([c])
  {
    assert [c][..1] == [c] && [c][1..] == "";
    assert Tokens("") == [] && Closed("");
  }

  /** Without quotes and slashes a text is closed. */
  lemma {:induction false} UnquotedCloses(s: string)
    requires forall i | 0 <= i < |s| :: !StringishStart(s[i])
    ensures Closed(s)
  {
    if s != "" {
      UnquotedCloses(s[TokenEnd(s)..]);
    }
  }

  lemma ClosedAppend(a: string, b: string)
    requires Closed(a) && Closed(b) && Seam(a, b)
    ensures Closed(a + b)
  {
    if a == "" {
      assert a + b == b;
    } else {
      TokenEndAppend(a, b);
      var end := TokenEnd(a);
      assert (a + b)[end..] == a[end..] + b;
      assert Seam(a[end..], b);
      ClosedAppend(a[end..], b);
      if StringishStart(a[0]) {
        QuotedClosesAppend(a, b, 1, a[0]);
      }
    }
  }

  lemma {:induction false} QuotedClosesAppend(a: string, b: string, i: nat, quote: char)
    requires QuotedCloses(a, i, quote)
    ensures QuotedCloses(a + b, i, quote)
    decreases |a| - i
  {
    if a[i] != quote {
      QuotedClosesAppend(a, b, if a[i] == '\\' then i + 2 else i + 1, quote);
    }
  }
}
