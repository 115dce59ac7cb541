/**
 * The source that a trigger filter is rewritten to: it tells the filter it came from. Its
 * own tokens are those of the filter, with a fixed list of tokens for each name that is
 * looked up.
 */
module TriggerFilters {
  import opened Prelude
  import opened TriggerTokens
  import opened TriggerParser
  import opened TriggerPrinter

  /** The tokens that a looked-up name becomes. */
  function Lookup(t: string): seq<string>
  {
    ["(", "(", "event", ".", t, ")", " ", "?", " ", "(", "event", ".", t, ")", " ", ":", " ", "(", "window", ".", t, ")", ")"]
  }

  function FlatPart(tokens: seq<string>, i: nat): (part: seq<string>)
    requires i < |tokens|
    ensures part != []
  {
    if LooksUp(tokens, i) then Lookup(tokens[i]) else [tokens[i]]
  }

  /** The tokens of the source, from token i of the filter on. */
  function Flat(tokens: seq<string>, i: nat): seq<string>
    requires i <= |tokens|
    decreases |tokens| - i
  {
    if i == |tokens| then [] else FlatPart(tokens, i) + Flat(tokens, i + 1)
  }

  // ---------------------------------------------------------------------------
  // The tokens of the source
  // ---------------------------------------------------------------------------

  lemma {:induction false} ConcatCons(parts: seq<string>)
    ensures parts != [] ==> Concat(parts) == parts[0] + Concat(parts[1..])
  {
  }

  /** The list in the pieces between the name's three places. */
  lemma LookupPieces(t: string)
    ensures Lookup(t) == ["(", "(", "event", "."] + ([t] + EVENT_TAIL + ([t] + WINDOW_TAIL + [t, ")", ")"]))
  {
  }

  const EVENT_TAIL := [")", " ", "?", " ", "(", "event", "."]
  const WINDOW_TAIL := [")", " ", ":", " ", "(", "window", "."]

  lemma LookupText(t: string)
    ensures Concat(Lookup(t)) == "((event." + t + ") ? (event." + t + ") : (window." + t + "))"
  {
    var a, b, c, d := ["(", "(", "event", "."], [t] + EVENT_TAIL, [t] + WINDOW_TAIL, [t, ")", ")"];
    LookupPieces(t);
    SpellEnds(t);
    SpellTails();
    hide Concat, Lookup;
    ConcatAppend(a, b + (c + d));
    ConcatAppend(b, c + d);
    ConcatAppend(c, d);
    Spell([t] + EVENT_TAIL, t, EVENT_TAIL);
    Spell([t] + WINDOW_TAIL, t, WINDOW_TAIL);
  }

  lemma SpellEnds(t: string)
    ensures Concat(["(", "(", "event", "."]) == "((event."
    ensures Concat([t, ")", ")"]) == t + "))"
  {
    hide Concat;
    Spell(["(", "(", "event", "."], "(", ["(", "event", "."]);
    Spell(["(", "event", "."], "(", ["event", "."]);
    Spell(["event", "."], "event", ["."]);
    ConcatSingle(".");
    Spell([t, ")", ")"], t, [")", ")"]);
    Spell([")", ")"], ")", [")"]);
    ConcatSingle(")");
  }

  lemma SpellTails()
    ensures Concat(EVENT_TAIL) == ") ? (event."
    ensures Concat(WINDOW_TAIL) == ") : (window."
  {
    hide Concat;
    Spell([")", " ", "?", " ", "(", "event", "."], ")", [" ", "?", " ", "(", "event", "."]);
    Spell([" ", "?", " ", "(", "event", "."], " ", ["?", " ", "(", "event", "."]);
    Spell(["?", " ", "(", "event", "."], "?", [" ", "(", "event", "."]);
    Spell([" ", "(", "event", "."], " ", ["(", "event", "."]);
    Spell(["(", "event", "."], "(", ["event", "."]);
    Spell(["event", "."], "event", ["."]);
    Spell([")", " ", ":", " ", "(", "window", "."], ")", [" ", ":", " ", "(", "window", "."]);
    Spell([" ", ":", " ", "(", "window", "."], " ", [":", " ", "(", "window", "."]);
    Spell([":", " ", "(", "window", "."], ":", [" ", "(", "window", "."]);
    Spell([" ", "(", "window", "."], " ", ["(", "window", "."]);
    Spell(["(", "window", "."], "(", ["window", "."]);
    Spell(["window", "."], "window", ["."]);
    ConcatSingle(".");
  }

  lemma Spell(all: seq<string>, first: string, rest: seq<string>)
    requires all == [first] + rest
    ensures Concat(all) == first + Concat(rest)
  {
    assert all[1..] == rest;
  }

  /** The tokens of the source spell its parts. */
  lemma {:induction false} FlatSpells(tokens: seq<string>, i: nat)
    requires i <= |tokens|
    ensures Concat(Flat(tokens, i)) == Concat(Parts(tokens)[i..])
    decreases |tokens| - i
  {
    if i < |tokens| {
      FlatSpells(tokens, i + 1);
      ConcatAppend(FlatPart(tokens, i), Flat(tokens, i + 1));
      ConcatCons(Parts(tokens)[i..]);
      assert Parts(tokens)[i..][1..] == Parts(tokens)[i + 1..] && Parts(tokens)[i..][0] == Part(tokens, i);
      LookupText(tokens[i]);
      ConcatSingle(tokens[i]);
      hide Concat, Lookup, Flat;
    }
  }

  predicate PlainToken(t: string)
  {
    |t| == 1 && t[0] !in LETTERS + DIGITS && t[0] !in ['"', '\'', '/']
  }

  predicate SymbolToken(t: string)
  {
    t != "" && t[0] in LETTERS && forall c <- t :: c in LETTERS + DIGITS
  }

  /** Plain characters and symbols, each symbol with a plain character behind it. */
  predicate Atoms(ts: seq<string>)
  {
    forall i | 0 <= i < |ts| :: PlainToken(ts[i]) || (SymbolToken(ts[i]) && i + 1 < |ts| && PlainToken(ts[i + 1]))
  }

  lemma {:induction false} AtomsLexed(ts: seq<string>, rest: seq<string>)
    requires Atoms(ts) && Lexed(rest)
    ensures Lexed(ts + rest)
  {
    if ts == [] {
      assert ts + rest == rest;
    } else {
      var all := ts + rest;
      assert all[1..] == ts[1..] + rest && all[0] == ts[0];
      assert forall i | 0 <= i < |ts| - 1 :: ts[1..][i] == ts[i + 1];
      AtomsLexed(ts[1..], rest);
      assert |ts| > 1 ==> all[1..][0] == ts[1];
      hide Quoted, OpenBody, Lexed;
      assert Shape(ts[0], all[1..]);
    }
  }

  lemma PlainChar(c: char)
    requires !SymbolCont(c) && !StringishStart(c)
    ensures PlainToken([c])
  {
    LettersStart(c);
  }

  lemma PlainTokens()
    ensures PlainToken("(") && PlainToken(")") && PlainToken(".") && PlainToken(" ") && PlainToken("?") && PlainToken(":")
  {
    hide PlainToken;
    PlainChar('(');
    PlainChar(')');
    PlainChar('.');
    PlainChar(' ');
    PlainChar('?');
    PlainChar(':');
  }

  lemma SymbolTokens()
    ensures SymbolToken("event") && SymbolToken("window")
  {
    hide SymbolToken;
    AllSymbols("event");
    AllSymbols("window");
  }

  lemma AllSymbols(t: string)
    requires Word(t)
    ensures SymbolToken(t)
  {
    LettersStart(t[0]);
    forall c <- t
      ensures c in LETTERS + DIGITS
    {
      LettersStart(c);
    }
  }

  lemma LookupAtoms(t: string)
    requires SymbolToken(t)
    ensures Atoms(["(", "(", "event", "."]) && Atoms([t] + EVENT_TAIL) && Atoms([t] + WINDOW_TAIL) && Atoms([t, ")", ")"])
  {
    PlainTokens();
    SymbolTokens();
    hide PlainToken, SymbolToken;
  }

  lemma LookupLexed(t: string, rest: seq<string>)
    requires SymbolToken(t) && Lexed(rest)
    ensures Lexed(Lookup(t) + rest)
  {
    var a, b, c, d := ["(", "(", "event", "."], [t] + EVENT_TAIL, [t] + WINDOW_TAIL, [t, ")", ")"];
    LookupAtoms(t);
    LookupPieces(t);
    hide Atoms, Lexed, Lookup;
    AtomsLexed(d, rest);
    AtomsLexed(c, d + rest);
    AtomsLexed(b, c + (d + rest));
    AtomsLexed(a, b + (c + (d + rest)));
    RegroupFour(a, b, c, d, rest);
  }

  lemma RegroupFour(a: seq<string>, b: seq<string>, c: seq<string>, d: seq<string>, rest: seq<string>)
    ensures a + (b + (c + (d + rest))) == a + (b + (c + d)) + rest
  {
  }

  lemma {:induction false} LexedFrom(tokens: seq<string>, i: nat)
    requires i <= |tokens| && Lexed(tokens)
    ensures Lexed(tokens[i..])
    decreases i
  {
    if i == 0 {
      assert tokens[0..] == tokens;
    } else {
      LexedFrom(tokens, i - 1);
      assert tokens[i - 1..][1..] == tokens[i..];
      hide Shape;
    }
  }

  /** What follows a token of the source starts as what followed it in the filter, or with a bracket. */
  lemma FlatHead(tokens: seq<string>, i: nat)
    requires i < |tokens|
    ensures Flat(tokens, i) != [] && (Flat(tokens, i)[0] == tokens[i] || Flat(tokens, i)[0] == "(")
  {
  }

  lemma {:induction false} FlatLexed(tokens: seq<string>, i: nat)
    requires i <= |tokens| && Lexed(tokens)
    ensures Lexed(Flat(tokens, i))
    decreases |tokens| - i
  {
    if i < |tokens| {
      var t, rest, flat := tokens[i], tokens[i + 1..], Flat(tokens, i + 1);
      FlatLexed(tokens, i + 1);
      LexedFrom(tokens, i);
      assert tokens[i..][1..] == rest && tokens[i..][0] == t;
      assert Shape(t, rest);
      if LooksUp(tokens, i) {
        assert SymbolToken(t);
        LookupLexed(t, flat);
      } else {
        if i + 1 < |tokens| {
          FlatHead(tokens, i + 1);
          assert rest[0] == tokens[i + 1];
        }
        BracketEndsSymbols();
        assert Shape(t, flat) by {
          hide Flat, Lexed, Body, OpenBody;
        }
        assert ([t] + flat)[1..] == flat;
      }
    }
  }

  lemma BracketEndsSymbols()
    ensures '(' !in LETTERS + DIGITS
  {
    LettersStart('(');
  }

  lemma SourceTokens(tokens: seq<string>)
    requires Lexed(tokens)
    ensures Tokens(Concat(Parts(tokens))) == Flat(tokens, 0)
  {
    FlatLexed(tokens, 0);
    FlatSpells(tokens, 0);
    assert Parts(tokens)[0..] == Parts(tokens);
    hide Flat, Parts, Lexed;
    LexedExactly(Concat(Parts(tokens)), Flat(tokens, 0));
  }

  // ---------------------------------------------------------------------------
  // The filter from its source
  // ---------------------------------------------------------------------------

  lemma FlatFirst(tokens: seq<string>, i: nat)
    requires i < |tokens|
    ensures var flat := Flat(tokens, i);
            if LooksUp(tokens, i) then |flat| > 1 && flat[0] == "(" && flat[1] == "("
            else flat == [tokens[i]] + Flat(tokens, i + 1)
  {
    LookupStarts(tokens[i]);
    hide Lookup, LooksUp;
  }

  lemma LookupStarts(t: string)
    ensures |Lookup(t)| == 23 && Lookup(t)[0] == "(" && Lookup(t)[1] == "("
  {
  }

  /** No two brackets in a row, nor one at the end. */
  predicate NoLookupIn(expected: seq<string>)
  {
    forall k | 0 <= k < |expected| && expected[k] == "(" :: k + 1 < |expected| && expected[k + 1] != "("
  }

  /** The first of such tokens stands for itself, and leaves the others. */
  lemma VerbatimFirst(tokens: seq<string>, i: nat, expected: seq<string>)
    requires i <= |tokens| && expected != [] && expected <= Flat(tokens, i) && NoLookupIn(expected)
    ensures i < |tokens| && !LooksUp(tokens, i) && tokens[i] == expected[0]
    ensures expected[1..] <= Flat(tokens, i + 1) && NoLookupIn(expected[1..])
  {
    FlatFirst(tokens, i);
    var flat := Flat(tokens, i);
    hide Flat, LooksUp;
    assert flat[0] == expected[0] && (|expected| > 1 ==> flat[1] == expected[1]);
    assert flat == [tokens[i]] + Flat(tokens, i + 1);
  }

  /** Tokens that no lookup starts among stand for themselves. */
  lemma {:induction false} Verbatim(tokens: seq<string>, i: nat, expected: seq<string>)
    requires i <= |tokens| && expected <= Flat(tokens, i) && NoLookupIn(expected)
    ensures i + |expected| <= |tokens|
    ensures forall k | 0 <= k < |expected| :: tokens[i + k] == expected[k] && !LooksUp(tokens, i + k)
    decreases |expected|
  {
    if expected != [] {
      hide *;
      VerbatimFirst(tokens, i, expected);
      Verbatim(tokens, i + 1, expected[1..]);
      forall k | 0 < k < |expected|
        ensures tokens[i + k] == expected[k] && !LooksUp(tokens, i + k)
      {
        assert expected[1..][k - 1] == expected[k] && i + k == i + 1 + (k - 1);
      }
    }
  }

  /** The tokens of a lookup behind its first bracket, up to the word `window`. */
  function Middle(t: string): seq<string>
  {
    Lookup(t)[1..19]
  }

  lemma MiddleIs(t: string, more: seq<string>)
    ensures |Middle(t)| == 18 && Middle(t)[16] == "(" && Middle(t)[17] == "window"
    ensures t != "(" ==> NoLookupIn(Middle(t))
    ensures Middle(t) <= (Lookup(t) + more)[1..]
  {
    SliceOfLonger(Lookup(t), more, 19);
  }

  lemma SliceOfLonger(a: seq<string>, more: seq<string>, n: nat)
    requires 0 < n <= |a|
    ensures a[1..n] <= (a + more)[1..]
  {
    assert a[1..n] == (a + more)[1..][..n - 1];
  }

  lemma WindowLooksUp(tokens: seq<string>, i: nat)
    requires 0 < i < |tokens| && tokens[i] == "window" && tokens[i - 1] == "("
    ensures LooksUp(tokens, i)
  {
    LettersStart('w');
  }

  /** A bracket that stands for itself is not followed by what a name becomes. */
  lemma NoFakeLookup(tokens: seq<string>, i: nat, t: string, more: seq<string>)
    requires i < |tokens| && !LooksUp(tokens, i) && SymbolToken(t)
    ensures Flat(tokens, i) != Lookup(t) + more
  {
    if Flat(tokens, i) == Lookup(t) + more {
      assert t != "(" by { BracketEndsSymbols(); }
      MiddleIs(t, more);
      FlatFirst(tokens, i);
      hide Flat, LooksUp, SymbolToken, Lookup, Middle, NoLookupIn;
      assert Flat(tokens, i)[1..] == Flat(tokens, i + 1);
      Verbatim(tokens, i + 1, Middle(t));
      WindowLooksUp(tokens, i + 18);
    }
  }

  lemma LookupTail(t: string, u: string, a: seq<string>, b: seq<string>)
    requires Lookup(t) + a == Lookup(u) + b
    ensures t == u && a == b
  {
    var x, y := Lookup(t) + a, Lookup(u) + b;
    assert |Lookup(t)| == 23 && |Lookup(u)| == 23;
    assert x[4] == t && y[4] == u;
    assert x[23..] == a && y[23..] == b;
  }

  lemma {:induction false} FlatTells(a: seq<string>, b: seq<string>, i: nat)
    requires Lexed(a) && Lexed(b)
    requires i <= |a| && i <= |b| && a[..i] == b[..i] && Flat(a, i) == Flat(b, i)
    ensures a == b
    decreases |a| - i
  {
    if i == |a| || i == |b| {
      assert Flat(a, i) == [] && Flat(b, i) == [];
      assert |a| == i && |b| == i && a[..i] == a && b[..i] == b;
    } else {
      NamesAreSymbols(a, i);
      NamesAreSymbols(b, i);
      assert Flat(a, i) == FlatPart(a, i) + Flat(a, i + 1) && Flat(b, i) == FlatPart(b, i) + Flat(b, i + 1);
      hide Flat, Lexed, Lookup, SymbolToken, LooksUp;
      if LooksUp(a, i) && LooksUp(b, i) {
        LookupTail(a[i], b[i], Flat(a, i + 1), Flat(b, i + 1));
      } else if LooksUp(a, i) {
        NoFakeLookup(b, i, a[i], Flat(a, i + 1));
      } else if LooksUp(b, i) {
        NoFakeLookup(a, i, b[i], Flat(b, i + 1));
      } else {
        assert ([a[i]] + Flat(a, i + 1))[1..] == Flat(a, i + 1) && ([b[i]] + Flat(b, i + 1))[1..] == Flat(b, i + 1);
      }
      assert a[..i + 1] == a[..i] + [a[i]] && b[..i + 1] == b[..i] + [b[i]];
      FlatTells(a, b, i + 1);
    }
  }

  lemma NamesAreSymbols(tokens: seq<string>, i: nat)
    requires i < |tokens| && Lexed(tokens)
    ensures LooksUp(tokens, i) ==> SymbolToken(tokens[i])
  {
    LexedFrom(tokens, i);
    assert tokens[i..][0] == tokens[i];
  }

  /** A filter whose source is that of no filter at all is empty or the word `true`. */
  lemma TrueFilter(text: string)
    requires Concat(Parts(Tokens(text))) == "true"
    ensures text == "true"
  {
    var tokens := Tokens(text);
    TokensLexed(text);
    TokensLossless(text);
    SourceTokens(tokens);
    WordIsToken("true");
    assert Flat(tokens, 0) == ["true"];
    assert tokens != [] && FlatPart(tokens, 0) == ["true"] by {
      assert Flat(tokens, 0) == FlatPart(tokens, 0) + Flat(tokens, 1);
      assert |Lookup(tokens[0])| == 23;
    }
    assert Flat(tokens, 1) == [];
    assert tokens == ["true"];
    ConcatSingle("true");
  }

  /** What the condition function returns. */
  function BodyOf(text: string): string
  {
    if Tokens(text) == [] then "true" else Concat(Parts(Tokens(text)))
  }

  lemma SourceBody(a: string, b: string)
    ensures FilterSource(a) == FilterSource(b) <==> BodyOf(a) == BodyOf(b)
  {
    SourceIs(a);
    SourceIs(b);
    hide FilterSource, BodyOf;
    SameMiddle(" return (function(event){ return (", BodyOf(a), BodyOf(b), ")})");
  }

  lemma SourceIs(text: string)
    ensures FilterSource(text) == " return (function(event){ return (" + BodyOf(text) + ")})"
  {
    hide Tokens, Concat, Parts;
  }

  lemma SameMiddle(start: string, x: string, y: string, end: string)
    ensures start + x + end == start + y + end <==> x == y
  {
    if start + x + end == start + y + end {
      assert (start + x + end)[|start|..|start| + |x|] == x && (start + y + end)[|start|..|start| + |y|] == y;
    }
  }

  lemma TrueBody(text: string)
    ensures BodyOf(text) == "true" <==> text == "" || text == "true"
  {
    EmptyTokens(text);
    if text == "true" {
      WordIsToken("true");
      assert Parts(["true"]) == ["true"];
      ConcatSingle("true");
    }
    hide Concat, Parts, Tokens;
    if text != "" && BodyOf(text) == "true" {
      TrueFilter(text);
    }
  }

  lemma SameBody(a: string, b: string)
    requires a != "" && b != "" && BodyOf(a) == BodyOf(b)
    ensures a == b
  {
    EmptyTokens(a);
    EmptyTokens(b);
    assert Concat(Parts(Tokens(a))) == Concat(Parts(Tokens(b)));
    hide *;
    TokensLexed(a);
    TokensLexed(b);
    SourceTokens(Tokens(a));
    SourceTokens(Tokens(b));
    assert Tokens(a)[..0] == Tokens(b)[..0];
    FlatTells(Tokens(a), Tokens(b), 0);
    TokensLossless(a);
    TokensLossless(b);
  }

  lemma EmptyTokens(text: string)
    ensures Tokens(text) == [] <==> text == ""
  {
  }

  /**
   * The source of a filter tells the filter: two filters have the same source exactly when
   * they are the same text, or are `[]` and `[true]`.
   */
  lemma SourceTellsFilter(a: string, b: string)
    ensures FilterSource(a) == FilterSource(b) <==>
      a == b || ((a == "" || a == "true") && (b == "" || b == "true"))
  {
    hide *;
    SourceBody(a, b);
    TrueBody(a);
    TrueBody(b);
    if a != "" && b != "" && BodyOf(a) == BodyOf(b) {
      SameBody(a, b);
    }
  }
}
