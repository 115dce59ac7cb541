/**
 * What the pieces of the hx-trigger parser take from the text, told by written-out
 * character lists: up to a separator, a selector in either kind of bracket, a trimmed
 * text, the keywords, and decimal intervals.
 */
module TriggerReading {
  import opened Prelude
  import opened TriggerTokens
  import opened TriggerParser
  import opened TriggerPrinter

  // ---------------------------------------------------------------------------
  // Up to a separator
  // ---------------------------------------------------------------------------

  /** Every white space character of ECMAScript. */
  const SPACES: string :=
    "\t\n\U{B}\U{C}\r \U{A0}\U{1680}\U{2000}\U{2001}\U{2002}\U{2003}\U{2004}"
    + "\U{2005}\U{2006}\U{2007}\U{2008}\U{2009}\U{200A}\U{2028}\U{2029}\U{202F}\U{205F}\U{3000}\U{FEFF}"

  predicate Space(c: char)
  {
    c in SPACES
  }

  predicate Stop(test: Class, c: char)
  {
    match test
    case NotWhitespace => !Space(c)
    case NameEnd => Space(c) || c in ",["
    case WordEnd => Space(c) || c == ','
    case SelectorStart => c in "{("
    case SelectorEnd => c in "})"
  }

  lemma SpacesExactly(c: char)
    ensures Whitespace(c) <==> Space(c)
  {
  }

  lemma ClassesExactly(test: Class, c: char)
    ensures InClass(test, c) <==> Stop(test, c)
  {
    SpacesExactly(c);
    hide Whitespace, Space;
  }

  /** The token has a character of the class, at whatever place. */
  predicate Stops(test: Class, token: string)
  {
    exists c <- token :: Stop(test, c)
  }

  lemma HitsExactly(test: Class, token: string)
    ensures Hits(test, token) <==> Stops(test, token)
  {
    forall i | 0 <= i < |token|
      ensures InClass(test, token[i]) <==> Stop(test, token[i])
    {
      ClassesExactly(test, token[i]);
    }
    hide InClass, Stop;
    if Hits(test, token) {
      var i :| 0 <= i < |token| && InClass(test, token[i]);
      assert token[i] in token && Stop(test, token[i]);
    }
  }

  /** All tokens are taken before the first that has a character of the class anywhere. */
  lemma {:induction false} UntilExactly(test: Class, tokens: seq<string>)
    ensures var t := Until(test, tokens); var n := |tokens| - |t.rest|;
            && n >= 0 && t.rest == tokens[n..] && t.text == Concat(tokens[..n])
            && (forall i | 0 <= i < n :: !Stops(test, tokens[i]))
            && (t.rest != [] ==> Stops(test, t.rest[0]))
  {
    if tokens != [] {
      HitsExactly(test, tokens[0]);
      hide Hits, Stops;
      if !Hits(test, tokens[0]) {
        UntilExactly(test, tokens[1..]);
        var t := Until(test, tokens);
        var n := |tokens| - |t.rest|;
        assert tokens[..n][1..] == tokens[1..][..n - 1] && tokens[..n][0] == tokens[0];
        assert tokens[1..][n - 1..] == tokens[n..];
        assert forall i | 0 < i < n :: tokens[i] == tokens[1..][i - 1];
      }
    }
  }

  // ---------------------------------------------------------------------------
  // Selectors
  // ---------------------------------------------------------------------------

  lemma {:induction false} TrimStartExactly(s: string) returns (i: nat)
    ensures i <= |s| && TrimStart(s) == s[i..]
    ensures (forall k | 0 <= k < i :: Space(s[k])) && (i < |s| ==> !Space(s[i]))
  {
    hide Space, Whitespace;
    i := 0;
    if s != "" {
      SpacesExactly(s[0]);
      if Whitespace(s[0]) {
        var j := TrimStartExactly(s[1..]);
        i := j + 1;
        assert forall k | 0 < k < |s| :: s[k] == s[1..][k - 1];
        assert s[1..][j..] == s[i..];
      }
    }
  }

  lemma {:induction false} TrimEndExactly(s: string) returns (j: nat)
    ensures j <= |s| && TrimEnd(s) == s[..j]
    ensures (forall k | j <= k < |s| :: Space(s[k])) && (j > 0 ==> !Space(s[j - 1]))
  {
    hide Space, Whitespace;
    j := |s|;
    assert s[..|s|] == s;
    if s != "" {
      SpacesExactly(s[|s| - 1]);
      if Whitespace(s[|s| - 1]) {
        j := TrimEndExactly(s[..|s| - 1]);
        assert forall k | 0 <= k < |s| - 1 :: s[..|s| - 1][k] == s[k];
        assert s[..|s| - 1][..j] == s[..j];
      }
    }
  }

  /** Trimming takes all white space from both ends and nothing else. */
  lemma TrimExactly(s: string) returns (i: nat, j: nat)
    ensures i <= j <= |s| && Trim(s) == s[i..j]
    ensures (forall k | 0 <= k < i || j <= k < |s| :: Space(s[k]))
    ensures i < j ==> !Space(s[i]) && !Space(s[j - 1])
  {
    hide Space, TrimStart, TrimEnd;
    i := TrimStartExactly(s);
    var t := s[i..];
    var n := TrimEndExactly(t);
    j := i + n;
    assert t[..n] == s[i..j];
    assert forall k | i <= k < |s| :: s[k] == t[k - i];
  }

  /**
   * A wrapped selector is the trimmed text between an opening brace or parenthesis and the
   * next closing one of either kind.
   */
  lemma SelectorBrackets(open: string, inner: seq<string>, close: string, rest: seq<string>)
    requires open in ["{", "("] && close in ["}", ")"]
    requires forall t <- inner, c <- t :: c !in "})"
    ensures Selector([open] + (inner + ([close] + rest))) == Taken(Trim(Concat(inner)), rest)
  {
    var behind := inner + ([close] + rest);
    var tokens := [open] + behind;
    BracketsHit();
    assert Hits(SelectorStart, open) && Hits(SelectorEnd, close);
    forall t <- inner
      ensures !Hits(SelectorEnd, t)
    {
      HitsExactly(SelectorEnd, t);
    }
    hide Hits, Trim;
    UntilAll(SelectorEnd, inner, [close] + rest);
    assert tokens[1..] == behind && ([close] + rest)[1..] == rest;
  }

  lemma BracketsHit()
    ensures Hits(SelectorStart, "{") && Hits(SelectorStart, "(") && Hits(SelectorEnd, "}") && Hits(SelectorEnd, ")")
  {
    assert InClass(SelectorStart, "{"[0]) && InClass(SelectorStart, "("[0]);
    assert InClass(SelectorEnd, "}"[0]) && InClass(SelectorEnd, ")"[0]);
  }

  // ---------------------------------------------------------------------------
  // Keywords
  // ---------------------------------------------------------------------------

  /** No word but its own is taken for a keyword. */
  lemma KeywordsExactly(token: string, k: Keyword)
    requires k != NoKeyword
    ensures KeywordOf(token) == k <==> token == WordOf(k)
  {
    KeywordOfWord(k);
  }

  // ---------------------------------------------------------------------------
  // Errors
  // ---------------------------------------------------------------------------

  /** The words that are modifiers by themselves, and those that take an argument behind a colon. */
  predicate FlagWord(word: string)
  {
    word == "changed" || word == "once" || word == "consume"
  }

  predicate ArgumentWord(word: string)
  {
    || word == "delay" || word == "from" || word == "target" || word == "throttle"
    || word == "queue" || word == "root" || word == "threshold"
  }

  lemma StrayModifier(spec: Spec, word: string, rest: seq<string>)
    requires spec.On? && !FlagWord(word) && (ArgumentWord(word) ==> !At(rest, ":"))
    ensures Modifier(spec, [word] + rest) == Modified(spec, Tail(rest), [Unexpected(Head(rest))])
  {
    assert ([word] + rest)[1..] == rest;
    hide Apply, Argument;
  }

  lemma ModifiersOnce(spec: Spec, tokens: seq<string>, next: Modified)
    requires spec.On? && tokens != [] && tokens[0] != "," && Modifier(spec, tokens) == next
    ensures Modifiers(spec, tokens) ==
      var more := Modifiers(next.spec, SkipSpace(next.rest)); more.(errors := next.errors + more.errors)
  {
    hide Modifier, SkipSpace;
  }

  /**
   * A token that is no modifier, or lacks its colon, is dropped together with the token
   * behind it, which is reported; what follows is read as if neither was there.
   */
  lemma StrayWord(spec: Spec, word: string, next: string, rest: seq<string>)
    requires spec.On? && word != "," && !FlagWord(word) && (ArgumentWord(word) ==> next != ":")
    ensures var more := Modifiers(spec, SkipSpace(rest));
            Modifiers(spec, [word] + ([next] + rest)) == more.(errors := [Unexpected(Some(next))] + more.errors)
  {
    StrayModifier(spec, word, [next] + rest);
    HeadAndTail(next, rest);
    hide *;
    ModifiersOnce(spec, [word] + ([next] + rest), Modified(spec, rest, [Unexpected(Some(next))]));
  }

  lemma HeadAndTail(next: string, rest: seq<string>)
    ensures Head([next] + rest) == Some(next) && Tail([next] + rest) == rest
  {
  }

  lemma StrayAtEnd(spec: Spec, word: string)
    requires spec.On? && word != "," && !FlagWord(word)
    ensures Modifiers(spec, [word]) == Modified(spec, [], [Unexpected(None)])
  {
    StrayModifier(spec, word, []);
    SkipNothing([]);
    assert [word] + [] == [word];
    hide Modifier, SkipSpace;
    assert [Unexpected(None)] + [] == [Unexpected(None)];
  }

  lemma {:induction false} ListClosed(ts: seq<Trig>)
    requires ts != [] && forall t <- ts :: ValidTrig(t)
    ensures Closed(ListText(ts))
  {
    TrigClosed(ts[0]);
    if |ts| > 1 {
      ListClosed(ts[1..]);
      var more := ListText(ts[1..]);
      hide TrigText, ValidTrig, Closed;
      SpaceFirst(more);
      CharFirst(',', " " + more);
      ClosedAppend(TrigText(ts[0]), "," + (" " + more));
    }
  }

  lemma Parsing(compiles: string -> bool, tokens: seq<string>, spec: Spec, rest: seq<string>)
    requires Element(compiles, tokens) == Single(Some(spec), [","] + rest, [])
    ensures Parse(compiles, tokens) ==
      var more := Parse(compiles, rest); Parsed([spec] + more.specs, more.errors)
  {
    ParseStep(compiles, tokens, spec, [","] + rest);
    assert ([","] + rest)[1..] == rest;
    hide Parse, Element;
  }

  /** A list of triggers in front of a comma is read as such, and then what is behind the comma. */
  lemma {:induction false} ListThen(compiles: string -> bool, ts: seq<Trig>, spaced: bool, rest: seq<string>)
    requires ts != [] && Printable(compiles, ts)
    ensures var more := Parse(compiles, rest);
            Parse(compiles, Lead(spaced) + (Tokens(ListText(ts)) + ([","] + rest)))
              == Parsed(Meanings(ts) + more.specs, more.errors)
    decreases |ts|
  {
    var first, tail := Tokens(TrigText(ts[0])), [","] + rest;
    assert ValidTrig(ts[0]) && Compiles(compiles, ts[0].filter);
    if |ts| == 1 {
      OneTrigger(ts);
      hide *;
      assert Over(tail) by { CommaIsOver(rest); }
      ElementParses(compiles, ts[0], spaced, tail);
      Parsing(compiles, Lead(spaced) + (first + tail), Meaning(ts[0]), rest);
    } else {
      var list := Tokens(ListText(ts[1..]));
      var behind := [" "] + (list + tail);
      ListTokens(ts);
      MeaningsCons(ts);
      LeadSpace();
      hide *;
      assert Over([","] + behind) by { CommaIsOver(behind); }
      ElementParses(compiles, ts[0], spaced, [","] + behind);
      Parsing(compiles, Lead(spaced) + (first + ([","] + behind)), Meaning(ts[0]), behind);
      assert Printable(compiles, ts[1..]) by { PrintableTail(compiles, ts); }
      ListThen(compiles, ts[1..], true, rest);
      CommaRegroup(first, list, tail);
      Regroup([Meaning(ts[0])], Meanings(ts[1..]), Parse(compiles, rest).specs);
    }
  }

  lemma CommaRegroup(first: seq<string>, list: seq<string>, tail: seq<string>)
    ensures first + ([","] + ([" "] + list)) + tail == first + ([","] + ([" "] + (list + tail)))
  {
  }

  lemma CommaIsOver(rest: seq<string>)
    ensures Over([","] + rest)
  {
  }

  lemma LeadSpace()
    ensures Lead(true) == [" "]
  {
  }

  lemma OneTrigger(ts: seq<Trig>)
    requires |ts| == 1 && ValidTrig(ts[0])
    ensures ListText(ts) == TrigText(ts[0]) && Meanings(ts) == [Meaning(ts[0])]
  {
    assert ts[1..] == [];
    hide TrigText, Meaning;
  }

  lemma MeaningsCons(ts: seq<Trig>)
    requires ts != [] && forall t <- ts :: ValidTrig(t)
    ensures Meanings(ts) == [Meaning(ts[0])] + Meanings(ts[1..])
  {
  }

  lemma PrintableTail(compiles: string -> bool, ts: seq<Trig>)
    requires ts != [] && Printable(compiles, ts)
    ensures Printable(compiles, ts[1..])
  {
    hide ValidTrig, Compiles;
  }

  /** The tokens of a list in front of a comma. */
  lemma ListBefore(compiles: string -> bool, ts: seq<Trig>, text: string)
    requires ts != [] && Printable(compiles, ts)
    ensures Tokens(ListText(ts) + ("," + text)) == Tokens(ListText(ts)) + ([","] + Tokens(text))
  {
    var list := ListText(ts);
    assert Closed(list) by { ListClosed(ts); }
    CommasSeam(list, text);
    hide *;
    TokensAppend(list, "," + text);
    CommaTokens(text);
  }

  lemma CommaTokens(text: string)
    ensures Tokens("," + text) == [","] + Tokens(text)
  {
    CharFirst(',', text);
  }

  /**
   * An empty place between two commas ends the parse, and whatever triggers are behind it
   * are lost, unless a third comma follows: then it goes on behind that one. Only the comma
   * itself is reported.
   */
  lemma EmptyPlace(compiles: string -> bool, ts: seq<Trig>, text: string)
    requires ts != [] && Printable(compiles, ts)
    ensures var behind := SkipSpace(Tokens(text));
            var more := if At(behind, ",") then Parse(compiles, behind[1..]) else Parsed([], []);
            Parse(compiles, Tokens(ListText(ts) + ("," + ("," + text))))
              == Parsed(Meanings(ts) + more.specs, [Unexpected(Some(","))] + more.errors)
  {
    hide *;
    ListBefore(compiles, ts, "," + text);
    CommaTokens(text);
    EmptyElement(compiles, Tokens(text));
    ListAndThen(compiles, ts, [","] + Tokens(text));
    assert [Unexpected(Some(","))] + [] == [Unexpected(Some(","))];
  }

  /** A comma at the end is reported, and does no harm. */
  lemma TrailingComma(compiles: string -> bool, ts: seq<Trig>)
    requires ts != [] && Printable(compiles, ts)
    ensures Parse(compiles, Tokens(ListText(ts) + ",")) == Parsed(Meanings(ts), [Unexpected(None)])
  {
    assert Tokens("") == [] && "," + "" == ",";
    hide *;
    ListBefore(compiles, ts, "");
    EmptyElement(compiles, []);
    ListAndThen(compiles, ts, []);
    NoSpecs(Meanings(ts));
  }

  lemma NoSpecs(specs: seq<Spec>)
    ensures specs + [] == specs
  {
  }

  lemma CommaHits()
    ensures Hits(NotWhitespace, ",") && Hits(NameEnd, ",")
  {
    assert InClass(NotWhitespace, ","[0]) && InClass(NameEnd, ","[0]);
  }

  lemma NothingTaken(compiles: string -> bool, rest: seq<string>)
    ensures Element(compiles, [","] + rest) == Single(None, SkipSpace(rest), [Unexpected(Some(","))])
    ensures Element(compiles, []) == Single(None, [], [Unexpected(None)])
  {
    var start := [","] + rest;
    CommaHits();
    SkipNothing(start);
    SkipNothing([]);
    hide Hits;
    assert Trigger(compiles, start) == Single(None, start, []);
    assert Trigger(compiles, []) == Single(None, [], []);
    assert start[1..] == rest;
    hide Trigger, SkipSpace;
    assert [] + [Unexpected(Some(","))] == [Unexpected(Some(","))] && [] + [Unexpected(None)] == [Unexpected(None)];
  }

  /**
   * A comma, or the end, where a trigger should be is dropped and reported. Then the parse
   * ends, unless there is another comma next.
   */
  lemma EmptyElement(compiles: string -> bool, rest: seq<string>)
    ensures var behind := SkipSpace(rest);
            Parse(compiles, [","] + rest) ==
              if At(behind, ",") then
                var more := Parse(compiles, behind[1..]);
                Parsed(more.specs, [Unexpected(Some(","))] + more.errors)
              else Parsed([], [Unexpected(Some(","))])
    ensures Parse(compiles, []) == Parsed([], [Unexpected(None)])
  {
    var start := [","] + rest;
    NothingTaken(compiles, rest);
    hide Element, SkipSpace;
    ParseOnce(compiles, []);
    ParseOnce(compiles, start);
    if At(SkipSpace(rest), ",") {
      var more := Parse(compiles, SkipSpace(rest)[1..]);
      assert [] + more.specs == more.specs;
    }
  }

  lemma ListAndThen(compiles: string -> bool, ts: seq<Trig>, rest: seq<string>)
    requires ts != [] && Printable(compiles, ts)
    ensures var more := Parse(compiles, rest);
            Parse(compiles, Tokens(ListText(ts)) + ([","] + rest)) == Parsed(Meanings(ts) + more.specs, more.errors)
  {
    hide *;
    ListThen(compiles, ts, false, rest);
    NoLead(Tokens(ListText(ts)) + ([","] + rest));
  }

  lemma CommasSeam(list: string, text: string)
    ensures Seam(list, "," + text)
  {
  }

  // ---------------------------------------------------------------------------
  // Decimal intervals
  // ---------------------------------------------------------------------------

  /** A decimal with its sign, digits around the point, and power of ten. */
  datatype Decimal = Decimal(minus: bool, whole: string, fraction: string, exponent: int)

  predicate AllDigit(s: string)
  {
    forall i | 0 <= i < |s| :: Digit(s[i])
  }

  predicate ValidDecimal(d: Decimal)
  {
    AllDigit(d.whole) && AllDigit(d.fraction) && d.whole + d.fraction != ""
  }

  function ExponentText(n: int): string
  {
    "e" + if n < 0 then "-" + Digits(-n) else Digits(n)
  }

  function UnsignedText(d: Decimal): string
  {
    d.whole + ("." + (d.fraction + ExponentText(d.exponent)))
  }

  function DecimalText(d: Decimal): string
  {
    (if d.minus then "-" else "") + UnsignedText(d)
  }

  function TenTo(n: nat): nat
  {
    if n == 0 then 1 else 10 * TenTo(n - 1)
  }

  lemma {:induction false} TenToPositive(n: nat)
    ensures TenTo(n) > 0 && Power(n) == TenTo(n) as real
  {
    if n > 0 {
      TenToPositive(n - 1);
    }
  }

  /** All digits as one number, over the power of ten of the fraction's length. */
  function Mantissa(d: Decimal): real
    requires ValidDecimal(d)
  {
    TenToPositive(|d.fraction|);
    Number(d.whole + d.fraction) as real / TenTo(|d.fraction|) as real
  }

  /** x times ten to the power of n. */
  function Shifted(x: real, n: int): real
  {
    TenToPositive(if n < 0 then -n else n);
    if n < 0 then x / TenTo(-n) as real else x * TenTo(n) as real
  }

  function Magnitude(d: Decimal): real
    requires ValidDecimal(d)
  {
    Shifted(Mantissa(d), d.exponent)
  }

  function DecimalValue(d: Decimal): real
    requires ValidDecimal(d)
  {
    if d.minus then -Magnitude(d) else Magnitude(d)
  }

  lemma NumberMore(s: string, c: char)
    requires AllDigit(s) && Digit(c)
    ensures AllDigit(s + [c]) && Number(s + [c]) == Number(s) * 10 + DigitValue(c)
  {
    assert (s + [c])[..|s|] == s;
  }

  lemma TenToMore(n: nat)
    ensures TenTo(n + 1) == 10 * TenTo(n)
  {
  }

  lemma Distribute(x: nat, y: nat, p: nat, z: nat)
    ensures (x * p + y) * 10 + z == x * (10 * p) + (y * 10 + z)
  {
  }

  lemma {:induction false} NumberAppend(a: string, b: string)
    requires AllDigit(a) && AllDigit(b)
    ensures AllDigit(a + b) && Number(a + b) == Number(a) * TenTo(|b|) + Number(b)
  {
    if b == "" {
      assert a + b == a;
    } else {
      var front, last := b[..|b| - 1], b[|b| - 1];
      assert AllDigit(front) && Digit(last);
      hide *;
      NumberAppend(a, front);
      NumberMore(a + front, last);
      NumberMore(front, last);
      TenToMore(|front|);
      FrontAndLast(b);
      Regroup(a, front, [last]);
      Distribute(Number(a), Number(front), TenTo(|front|), DigitValue(last));
    }
  }

  lemma {:induction false} DigitsThen(s: string, rest: string)
    requires AllDigit(s) && (rest != "" ==> !Digit(rest[0]))
    ensures DigitsLength(s + rest) == |s| && (s + rest)[..|s|] == s && (s + rest)[|s|..] == rest
  {
    if s == "" {
      assert s + rest == rest;
    } else {
      assert (s + rest)[1..] == s[1..] + rest;
      DigitsThen(s[1..], rest);
    }
  }

  lemma ExponentReads(n: int)
    ensures Exponent(ExponentText(n)) == Shifted(1.0, n)
  {
    var m: nat := if n < 0 then -n else n;
    var digits := Digits(m);
    var s := ExponentText(n);
    NumberOfDigits(m);
    AllDigits(digits);
    TenToPositive(m);
    assert digits[..|digits|] == digits;
    if n < 0 {
      assert s[2..] == digits && s[1] == '-';
    } else {
      assert s[1..] == digits && s[1] == digits[0] && Digit(s[1]);
    }
    hide Digits, Number, TenTo, Power, DigitsLength;
  }

  lemma FractionValue(w: nat, f: nat, p: nat)
    requires p > 0
    ensures w as real + f as real / p as real == (w * p + f) as real / p as real
  {
    var x, y, z := w as real, f as real, p as real;
    assert (x * z + y) / z == x + y / z by {
      assert (x * z + y) / z == (x * z) / z + y / z;
    }
    assert (w * p) as real == x * z;
  }

  lemma MantissaIs(d: Decimal)
    requires ValidDecimal(d)
    ensures Mantissa(d) == Number(d.whole) as real + Fraction(d.fraction)
  {
    NumberAppend(d.whole, d.fraction);
    TenToPositive(|d.fraction|);
    hide Number, TenTo, Power;
    FractionValue(Number(d.whole), Number(d.fraction), TenTo(|d.fraction|));
  }

  lemma UnsignedAt(s: string, w: nat, f: nat)
    requires w < |s| && DigitsLength(s) == w && s[w] == '.' && DigitsLength(s[w + 1..]) == f && w + f > 0
    ensures ParseUnsigned(s) == Some(Combined(Number(s[..w]), Fraction(s[w + 1..][..f]), Exponent(s[w + 1 + f..])))
  {
    hide Number, Fraction, Combined, Exponent;
  }

  /** The text cut at its point and behind the digits of its fraction. */
  predicate CutAs(s: string, whole: string, fraction: string, e: string)
  {
    && |whole| + 1 + |fraction| <= |s|
    && s[..|whole|] == whole && DigitsLength(s) == |whole| && s[|whole|] == '.'
    && s[|whole| + 1..][..|fraction|] == fraction && DigitsLength(s[|whole| + 1..]) == |fraction|
    && s[|whole| + 1 + |fraction|..] == e
  }

  lemma CutFraction(s: string, whole: string, fraction: string, e: string)
    requires AllDigit(whole) && AllDigit(fraction) && e != "" && !Digit(e[0])
    requires |whole| < |s| && s[..|whole|] == whole && s[|whole|] == '.' && s[|whole| + 1..] == fraction + e
    ensures CutAs(s, whole, fraction, e)
  {
    assert DigitsLength(s) == |whole| by {
      assert s == whole + s[|whole|..];
      DigitsThen(whole, s[|whole|..]);
    }
    DigitsThen(fraction, e);
    assert s[|whole| + 1 + |fraction|..] == s[|whole| + 1..][|fraction|..];
    hide DigitsLength, AllDigit;
  }

  lemma CutPoint(s: string, whole: string, rest: string)
    requires s == whole + ("." + rest)
    ensures |whole| < |s| && s[..|whole|] == whole && s[|whole|] == '.' && s[|whole| + 1..] == rest
  {
  }

  lemma UnsignedParts(s: string, whole: string, fraction: string, e: string)
    requires AllDigit(whole) && AllDigit(fraction) && whole + fraction != "" && CutAs(s, whole, fraction, e)
    ensures ParseUnsigned(s) == Some(Combined(Number(whole), Fraction(fraction), Exponent(e)))
  {
    hide ParseUnsigned, Number, Fraction, Combined, Exponent, DigitsLength;
    UnsignedAt(s, |whole|, |fraction|);
  }

  lemma CombinedShift(w: nat, f: real, n: int)
    ensures Combined(w, f, Shifted(1.0, n)) == Shifted(w as real + f, n)
  {
    var p := TenTo(if n < 0 then -n else n) as real;
    TenToPositive(if n < 0 then -n else n);
    hide TenTo;
    Inverse(w as real + f, p);
  }

  lemma Inverse(m: real, p: real)
    requires p > 0.0
    ensures m * (1.0 / p) == m / p
  {
  }

  lemma CombinedIs(d: Decimal)
    requires ValidDecimal(d)
    ensures Combined(Number(d.whole), Fraction(d.fraction), Exponent(ExponentText(d.exponent))) == Magnitude(d)
  {
    MantissaIs(d);
    ExponentReads(d.exponent);
    hide Combined, Number, Fraction, Exponent, ExponentText, Mantissa, Shifted;
    CombinedShift(Number(d.whole), Fraction(d.fraction), d.exponent);
  }

  lemma UnsignedReads(d: Decimal)
    requires ValidDecimal(d)
    ensures ParseUnsigned(UnsignedText(d)) == Some(Magnitude(d))
  {
    ExponentStarts(d.exponent);
    var s, e := UnsignedText(d), ExponentText(d.exponent);
    assert s == d.whole + ("." + (d.fraction + e));
    assert AllDigit(d.whole) && AllDigit(d.fraction);
    hide *;
    CutPoint(s, d.whole, d.fraction + e);
    CutFraction(s, d.whole, d.fraction, e);
    UnsignedParts(s, d.whole, d.fraction, e);
    CombinedIs(d);
  }

  lemma ExponentStarts(n: int)
    ensures ExponentText(n) != "" && !Digit(ExponentText(n)[0])
  {
  }

  lemma UnitReads(s: string, x: real)
    requires |s| >= 2 && Digit(s[|s| - 1]) && ParseFloat(s) == Some(x)
    ensures ParseInterval(s) == Some(x)
    ensures ParseInterval(s + "ms") == Some(x)
    ensures ParseInterval(s + "s") == Some(x * 1000.0)
    ensures ParseInterval(s + "m") == Some(x * 60000.0)
  {
    hide ParseFloat;
    PlainUnit(s);
    MillisUnit(s);
    LetterUnit(s, 's');
    LetterUnit(s, 'm');
  }

  lemma PlainUnit(s: string)
    requires |s| >= 2 && Digit(s[|s| - 1])
    ensures ParseInterval(s) == ParseFloat(s)
  {
    hide ParseFloat;
    assert s[|s| - 2..][1] == s[|s| - 1];
  }

  lemma MillisUnit(s: string)
    ensures ParseInterval(s + "ms") == ParseFloat(s)
  {
    hide ParseFloat;
    var t := s + "ms";
    assert t[|t| - 2..] == "ms" && t[..|t| - 2] == s;
  }

  lemma LetterUnit(s: string, unit: char)
    requires s != "" && Digit(s[|s| - 1]) && (unit == 's' || unit == 'm')
    ensures ParseInterval(s + [unit]) == Scaled(ParseFloat(s), if unit == 's' then 1000.0 else 60000.0)
  {
    hide ParseFloat;
    var t := s + [unit];
    assert t[..|t| - 1] == s && t[|t| - 2..][0] == s[|s| - 1] && t[|t| - 2..][1] == unit;
  }

  lemma DecimalEnds(d: Decimal)
    requires ValidDecimal(d)
    ensures |DecimalText(d)| >= 2 && Digit(DecimalText(d)[|DecimalText(d)| - 1])
  {
    var digits := Digits(if d.exponent < 0 then -d.exponent else d.exponent);
    assert Digit(digits[|digits| - 1]);
    hide Digits;
    var e := ExponentText(d.exponent);
    assert e[|e| - 1] == digits[|digits| - 1];
  }

  lemma UnsignedStarts(d: Decimal)
    requires ValidDecimal(d)
    ensures UnsignedText(d) != "" && (UnsignedText(d)[0] == '.' || Digit(UnsignedText(d)[0]))
  {
  }

  lemma SignedReads(d: Decimal)
    requires ValidDecimal(d)
    ensures ParseFloat(DecimalText(d)) == Some(DecimalValue(d))
  {
    hide *;
    UnsignedReads(d);
    UnsignedStarts(d);
    Signs(d);
    if d.minus {
      MinusReads(DecimalText(d), UnsignedText(d), Magnitude(d));
    } else {
      PlusReads(UnsignedText(d));
    }
  }

  lemma Signs(d: Decimal)
    requires ValidDecimal(d)
    ensures if d.minus then
              DecimalText(d) != "" && DecimalText(d)[0] == '-' && DecimalText(d)[1..] == UnsignedText(d)
              && DecimalValue(d) == -Magnitude(d)
            else DecimalText(d) == UnsignedText(d) && DecimalValue(d) == Magnitude(d)
  {
    hide UnsignedText, Magnitude;
  }

  lemma MinusReads(s: string, u: string, x: real)
    requires s != "" && s[0] == '-' && s[1..] == u && ParseUnsigned(u) == Some(x)
    ensures ParseFloat(s) == Some(-x)
  {
    assert TrimStart(s) == s;
    hide ParseUnsigned, TrimStart;
  }

  lemma PlusReads(u: string)
    requires u != "" && (u[0] == '.' || Digit(u[0]))
    ensures ParseFloat(u) == ParseUnsigned(u)
  {
    assert !Whitespace(u[0]);
    hide ParseUnsigned;
  }

  lemma DecimalReads(d: Decimal)
    requires ValidDecimal(d)
    ensures |DecimalText(d)| >= 2 && Digit(DecimalText(d)[|DecimalText(d)| - 1])
    ensures ParseFloat(DecimalText(d)) == Some(DecimalValue(d))
  {
    DecimalEnds(d);
    SignedReads(d);
  }

  /** A decimal with any unit parses to its exact value in milliseconds. */
  lemma ParseDecimalText(d: Decimal)
    requires ValidDecimal(d)
    ensures var s, x := DecimalText(d), DecimalValue(d);
            && ParseInterval(s) == ParseInterval(s + "ms") == Some(x)
            && ParseInterval(s + "s") == Some(x * 1000.0)
            && ParseInterval(s + "m") == Some(x * 60000.0)
  {
    hide *;
    DecimalReads(d);
    UnitReads(DecimalText(d), DecimalValue(d));
  }
}
