/**
 * Canonical trigger texts: printing any list of triggers and parsing the text gives the
 * list back, without an error.
 */
module TriggerPrinter {
  import opened Prelude
  import opened TriggerTokens
  import opened TriggerParser

  datatype Interval = Millis(n: nat) | Seconds(n: nat) | Minutes(n: nat) | Unitless(n: nat)

  /** A selector as one word, or in braces where it may hold spaces and commas. */
  datatype Sel = Bare(text: string) | Wrapped(text: string)

  datatype Place = Simple(sel: Sel) | Relative(word: string, sel: Sel)

  datatype Mod =
    | FlagMod(k: Keyword)
    | IntervalMod(k: Keyword, interval: Interval)
    | WordMod(k: Keyword, text: string)
    | SelectorMod(k: Keyword, sel: Sel)
    | FromMod(place: Place)

  datatype Trig =
    | Timer(interval: Interval, filter: Option<string>)
    | Event(name: string, filter: Option<string>, mods: seq<Mod>)

  // ---------------------------------------------------------------------------
  // Texts
  // ---------------------------------------------------------------------------

  function Digits(n: nat): (s: string)
    ensures s != "" && forall i | 0 <= i < |s| :: Digit(s[i])
  {
    var last := [(n % 10 + '0' as int) as char];
    if n < 10 then last else Digits(n / 10) + last
  }

  function IntervalText(i: Interval): string
  {
    match i
    case Millis(n) => Digits(n) + "ms"
    case Seconds(n) => Digits(n) + "s"
    case Minutes(n) => Digits(n) + "m"
    case Unitless(n) => Digits(n)
  }

  function SelText(sel: Sel): string
  {
    match sel
    case Bare(text) => text
    case Wrapped(text) => "{" + text + "}"
  }

  function PlaceText(place: Place): string
  {
    match place
    case Simple(sel) => SelText(sel)
    case Relative(word, sel) => word + " " + SelText(sel)
  }

  function WordOf(k: Keyword): string
  {
    match k
    case Changed => "changed"
    case Once => "once"
    case Consume => "consume"
    case Delay => "delay"
    case FromWord => "from"
    case Target => "target"
    case Throttle => "throttle"
    case Queue => "queue"
    case Root => "root"
    case Threshold => "threshold"
    case NoKeyword => "none"
  }

  function KeyOf(m: Mod): Keyword
  {
    if m.FromMod? then FromWord else m.k
  }

  function ArgText(m: Mod): string
  {
    match m
    case FlagMod(_) => ""
    case IntervalMod(_, interval) => IntervalText(interval)
    case WordMod(_, text) => text
    case SelectorMod(_, sel) => SelText(sel)
    case FromMod(place) => PlaceText(place)
  }

  function ModText(m: Mod): string
  {
    if m.FlagMod? then WordOf(m.k) else WordOf(KeyOf(m)) + (":" + ArgText(m))
  }

  function ModsText(mods: seq<Mod>): string
  {
    if mods == [] then "" else " " + (ModText(mods[0]) + ModsText(mods[1..]))
  }

  function FilterText(filter: Option<string>): string
  {
    if filter.None? then "" else "[" + (filter.value + "]")
  }

  function TrigText(t: Trig): string
  {
    match t
    case Timer(interval, filter) =>
      "every" + (" " + (IntervalText(interval) + if filter.None? then "" else " " + FilterText(filter)))
    case Event(name, filter, mods) => name + (FilterText(filter) + ModsText(mods))
  }

  function ListText(ts: seq<Trig>): string
    requires ts != []
  {
    if |ts| == 1 then TrigText(ts[0]) else TrigText(ts[0]) + ("," + (" " + ListText(ts[1..])))
  }

  // ---------------------------------------------------------------------------
  // Meanings
  // ---------------------------------------------------------------------------

  function Value(i: Interval): real
  {
    match i
    case Millis(n) => n as real
    case Seconds(n) => n as real * 1000.0
    case Minutes(n) => n as real * 60000.0
    case Unitless(n) => n as real
  }

  function SelValue(sel: Sel): string
  {
    match sel
    case Bare(text) => text
    case Wrapped(text) => Trim(text)
  }

  function PlaceValue(place: Place): string
  {
    match place
    case Simple(sel) => SelValue(sel)
    case Relative(word, sel) => word + " " + SelValue(sel)
  }

  function Effect(spec: Spec, m: Mod): (s: Spec)
    requires spec.On? && ValidMod(m)
    ensures s.On?
  {
    match m
    case FlagMod(k) =>
      if k == Changed then spec.(changed := true)
      else if k == Once then spec.(once := true) else spec.(consume := true)
    case IntervalMod(k, i) =>
      if k == Delay then spec.(delay := Some(Value(i))) else spec.(throttle := Some(Value(i)))
    case WordMod(k, text) =>
      if k == Queue then spec.(queue := Some(text)) else spec.(threshold := Some(text))
    case SelectorMod(k, sel) =>
      if k == Target then spec.(target := Some(SelValue(sel))) else spec.(root := Some(SelValue(sel)))
    case FromMod(place) => spec.(from := Some(PlaceValue(place)))
  }

  function Effects(spec: Spec, mods: seq<Mod>): (s: Spec)
    requires spec.On? && forall m <- mods :: ValidMod(m)
    ensures s.On?
    decreases |mods|
  {
    if mods == [] then spec else Effects(Effect(spec, mods[0]), mods[1..])
  }

  /** Token i of a filter is a name, but no literal, not `this` or `event`, and no member. */
  predicate LooksUp(tokens: seq<string>, i: nat)
    requires i < |tokens|
  {
    && tokens[i] != "" && tokens[i][0] in LETTERS
    && tokens[i] !in {"true", "false", "this", "event"} && (i > 0 ==> tokens[i - 1] != ".")
  }

  /** What token i becomes: a name is looked up on the event first, anything else is kept. */
  function Part(tokens: seq<string>, i: nat): string
    requires i < |tokens|
  {
    var t := tokens[i];
    if LooksUp(tokens, i) then "((event." + t + ") ? (event." + t + ") : (window." + t + "))" else t
  }

  function Parts(tokens: seq<string>): seq<string>
  {
    seq(|tokens|, i requires 0 <= i < |tokens| => Part(tokens, i))
  }

  /** The source of the condition function: one part for each token of the filter. */
  function FilterSource(text: string): string
  {
    " return (function(event){ return ("
      + (if Tokens(text) == [] then "true" else Concat(Parts(Tokens(text)))) + ")})"
  }

  function FilterMeaning(filter: Option<string>): Option<string>
  {
    if filter.None? then None else Some(FilterSource(filter.value))
  }

  function Meaning(t: Trig): Spec
    requires ValidTrig(t)
  {
    match t
    case Timer(interval, filter) => Every(Some(Value(interval)), FilterMeaning(filter))
    case Event(name, filter, mods) => Effects(Plain(name, FilterMeaning(filter)), mods)
  }

  function Meanings(ts: seq<Trig>): seq<Spec>
    requires forall t <- ts :: ValidTrig(t)
  {
    if ts == [] then [] else [Meaning(ts[0])] + Meanings(ts[1..])
  }

  // ---------------------------------------------------------------------------
  // What can be printed
  // ---------------------------------------------------------------------------

  /** A text whose quotes are closed and that has no character of the class. */
  predicate Within(test: Class, text: string)
  {
    Closed(text) && forall i | 0 <= i < |text| :: !InClass(test, text[i])
  }

  predicate ValidSel(sel: Sel)
  {
    match sel
    case Bare(text) => Within(WordEnd, text) && (text != "" ==> !Hits(SelectorStart, text[..TokenEnd(text)]))
    case Wrapped(text) => Within(SelectorEnd, text)
  }

  /** The words that make an origin relative. */
  predicate Scope(word: string)
  {
    word == "next" || word == "previous" || word == "find" || word == "closest"
  }

  predicate ValidPlace(place: Place)
  {
    match place
    case Simple(sel) => ValidSel(sel) && (sel.Bare? ==> !Scope(sel.text))
    case Relative(word, sel) => Scope(word) && ValidSel(sel) && SelValue(sel) != ""
  }

  predicate ValidMod(m: Mod)
  {
    match m
    case FlagMod(k) => Flag(k)
    case IntervalMod(k, _) => k == Delay || k == Throttle
    case WordMod(k, text) => (k == Queue || k == Threshold) && Within(WordEnd, text)
    case SelectorMod(k, sel) => (k == Target || k == Root) && ValidSel(sel)
    case FromMod(place) => ValidPlace(place)
  }

  /** Brackets inside a filter match, counted from the given depth. */
  predicate Balanced(tokens: seq<string>, depth: int)
  {
    if tokens == [] then depth == 1
    else
      !(tokens[0] == "]" && depth == 1)
      && Balanced(tokens[1..], depth + if tokens[0] == "[" then 1 else if tokens[0] == "]" then -1 else 0)
  }

  predicate ValidFilter(filter: Option<string>)
  {
    filter.Some? ==> Closed(filter.value) && Balanced(Tokens(filter.value), 1)
  }

  predicate ValidTrig(t: Trig)
  {
    match t
    case Timer(_, filter) => ValidFilter(filter)
    case Event(name, filter, mods) =>
      && name != "" && name != "every" && Within(NameEnd, name)
      && ValidFilter(filter) && forall m <- mods :: ValidMod(m)
  }

  // ---------------------------------------------------------------------------
  // Reading up to a separator
  // ---------------------------------------------------------------------------

  /** No token of a text has a character that the text has not. */
  lemma {:induction false} TokensWithin(test: Class, text: string)
    requires forall i | 0 <= i < |text| :: !InClass(test, text[i])
    ensures forall t <- Tokens(text) :: !Hits(test, t)
  {
    if text != "" {
      var end := TokenEnd(text);
      assert !Hits(test, text[..end]);
      TokensWithin(test, text[end..]);
    }
  }

  lemma {:induction false} UntilAll(test: Class, tokens: seq<string>, rest: seq<string>)
    requires forall t <- tokens :: !Hits(test, t)
    requires rest != [] ==> Hits(test, rest[0])
    ensures Until(test, tokens + rest) == Taken(Concat(tokens), rest)
  {
    if tokens == [] {
      assert tokens + rest == rest;
    } else {
      assert (tokens + rest)[1..] == tokens[1..] + rest;
      UntilAll(test, tokens[1..], rest);
    }
  }

  /** Consuming a text that is followed by its separator gives the text. */
  lemma UntilText(test: Class, text: string, rest: seq<string>)
    requires forall i | 0 <= i < |text| :: !InClass(test, text[i])
    requires rest != [] ==> Hits(test, rest[0])
    ensures Until(test, Tokens(text) + rest) == Taken(text, rest)
  {
    TokensWithin(test, text);
    hide Tokens, Hits;
    UntilAll(test, Tokens(text), rest);
    TokensLossless(text);
  }

  /** Spaces end, and modifiers and triggers begin, at a token with another character. */
  lemma SkipNothing(tokens: seq<string>)
    requires tokens != [] ==> Hits(NotWhitespace, tokens[0])
    ensures SkipSpace(tokens) == tokens
  {
  }

  lemma SkipOne(tokens: seq<string>)
    requires tokens != [] ==> Hits(NotWhitespace, tokens[0])
    ensures SkipSpace([" "] + tokens) == tokens
  {
    assert ([" "] + tokens)[1..] == tokens;
    assert !Hits(NotWhitespace, " ");
    SkipNothing(tokens);
  }

  // ---------------------------------------------------------------------------
  // Intervals
  // ---------------------------------------------------------------------------

  lemma {:induction false} NumberOfDigits(n: nat)
    ensures Number(Digits(n)) == n
  {
    var s := Digits(n);
    if n >= 10 {
      NumberOfDigits(n / 10);
      assert s[..|s| - 1] == Digits(n / 10);
    } else {
      assert s[..0] == "";
    }
  }

  lemma {:induction false} AllDigits(s: string)
    requires forall i | 0 <= i < |s| :: Digit(s[i])
    ensures DigitsLength(s) == |s|
  {
    if s != "" {
      AllDigits(s[1..]);
    }
  }

  lemma UnsignedDigits(s: string)
    requires s != "" && forall i | 0 <= i < |s| :: Digit(s[i])
    ensures ParseUnsigned(s) == Some(Number(s) as real)
  {
    AllDigits(s);
    hide Number;
    assert s[..|s|] == s && s[|s|..] == "";
  }

  lemma ParseDigits(n: nat)
    ensures ParseFloat(Digits(n)) == Some(n as real)
  {
    var s := Digits(n);
    UnsignedDigits(s);
    NumberOfDigits(n);
    hide Digits, Number, ParseUnsigned;
    assert Digit(s[0]);
  }

  lemma ParseIntervalText(i: Interval)
    ensures ParseInterval(IntervalText(i)) == Some(Value(i))
  {
    var s := IntervalText(i);
    ParseDigits(i.n);
    hide ParseFloat, Digits;
    match i {
      case Millis(n) => assert s[..|s| - 2] == Digits(n);
      case Seconds(n) =>
        assert s[..|s| - 1] == Digits(n);
        assert Digit(s[|s| - 2..][0]);
      case Minutes(n) =>
        assert s[..|s| - 1] == Digits(n);
        assert s[|s| - 2..][1] == 'm';
      case Unitless(n) => assert Digit(s[|s| - 1]);
    }
  }

  lemma IntervalWithin(i: Interval, test: Class)
    requires test == NameEnd || test == WordEnd
    ensures Within(test, IntervalText(i)) && IntervalText(i) != "" && !Whitespace(IntervalText(i)[0])
  {
    var s := IntervalText(i);
    assert forall k | 0 <= k < |s| :: Digit(s[k]) || s[k] == 'm' || s[k] == 's';
    hide IntervalText;
    UnquotedCloses(s);
  }

  // ---------------------------------------------------------------------------
  // Modifiers
  // ---------------------------------------------------------------------------

  lemma WordToken(k: Keyword)
    ensures Tokens(WordOf(k)) == [WordOf(k)] && Closed(WordOf(k))
    ensures SymbolStart(WordOf(k)[0]) && SymbolCont(WordOf(k)[|WordOf(k)| - 1])
  {
    WordIsToken(WordOf(k));
  }

  lemma KeywordOfWord(k: Keyword)
    ensures KeywordOf(WordOf(k)) == k
    ensures WordOf(k) != ","
  {
    var w := WordOf(k);
    assert w[0] != ',';
    match k {
      case Changed => assert |w| == 7 && w[1] == 'h';
      case Once => assert |w| == 4 && w[0] == 'o';
      case Consume => assert |w| == 7 && w[1] == 'o';
      case Delay => assert |w| == 5;
      case FromWord => assert |w| == 4 && w[0] == 'f';
      case Target => assert |w| == 6;
      case Throttle => assert |w| == 8;
      case Queue => assert |w| == 5 && w[0] == 'q';
      case Root => assert |w| == 4 && w[0] == 'r';
      case Threshold => assert |w| == 9;
      case NoKeyword => assert |w| == 4 && w[0] == 'n';
    }
  }

  lemma WrappedTokens(text: string, rest: string)
    requires Closed(text)
    ensures Tokens("{" + text + "}") == ["{"] + (Tokens(text) + ["}"]) && Closed("{" + text + "}")
  {
    CharIsToken('}');
    TokensAppend(text, "}");
    ClosedAppend(text, "}");
    CharFirst('{', text + "}");
    assert "{" + text + "}" == ['{'] + (text + "}");
  }

  predicate Ends(rest: seq<string>)
  {
    rest == [] || rest[0] == " " || rest[0] == ","
  }

  lemma EndsHit(rest: seq<string>)
    requires Ends(rest)
    ensures rest != [] ==> Hits(WordEnd, rest[0]) && Hits(NameEnd, rest[0]) && !Hits(SelectorStart, rest[0])
  {
    if rest != [] {
      assert InClass(WordEnd, rest[0][0]) && InClass(NameEnd, rest[0][0]);
    }
  }

  lemma SelectorParses(sel: Sel, rest: seq<string>)
    requires ValidSel(sel) && Ends(rest)
    ensures Selector(Tokens(SelText(sel)) + rest) == Taken(SelValue(sel), rest)
    ensures Closed(SelText(sel))
  {
    EndsHit(rest);
    match sel {
      case Bare(text) =>
        UntilText(WordEnd, text, rest);
        var all := Tokens(text) + rest;
        if text != "" {
          assert all[0] == text[..TokenEnd(text)];
        } else {
          assert all == rest;
        }
      case Wrapped(text) =>
        WrappedParses(text, rest);
    }
  }

  lemma WrappedParses(text: string, rest: seq<string>)
    requires Within(SelectorEnd, text)
    ensures Selector(Tokens("{" + text + "}") + rest) == Taken(Trim(text), rest)
    ensures Closed("{" + text + "}")
  {
    WrappedTokens(text, "");
    var all := Tokens("{" + text + "}") + rest;
    assert Hits(SelectorEnd, "}") && Hits(SelectorStart, "{") by {
      assert InClass(SelectorEnd, "}"[0]) && InClass(SelectorStart, "{"[0]);
    }
    UntilText(SelectorEnd, text, ["}"] + rest);
    hide Tokens, Hits, Trim, Until, Closed;
    assert all[0] == "{" && all[1..] == Tokens(text) + (["}"] + rest);
    assert (["}"] + rest)[1..] == rest;
  }

  lemma RelativeTokens(word: string, rest: string)
    requires RelativeWord(word)
    ensures Tokens(word + " " + rest) == [word] + ([" "] + Tokens(rest))
    ensures Closed(word + " " + rest) <==> Closed(rest)
  {
    hide *;
    RelativeIsWord(word);
    SpaceFirst(rest);
    WordFirst(word, " " + rest);
    Regroup(word, " ", rest);
  }

  lemma RelativeIsWord(word: string)
    requires RelativeWord(word)
    ensures Word(word)
  {
  }

  lemma SpaceFirst(text: string)
    ensures Tokens(" " + text) == [" "] + Tokens(text)
    ensures Closed(" " + text) <==> Closed(text)
    ensures !SymbolCont((" " + text)[0])
  {
    CharFirst(' ', text);
  }

  lemma PlaceParses(place: Place, rest: seq<string>)
    requires ValidPlace(place) && Ends(rest)
    ensures Origin(Tokens(PlaceText(place)) + rest) == Taken(PlaceValue(place), rest)
    ensures Closed(PlaceText(place))
  {
    match place {
      case Simple(sel) => SelectorParses(sel, rest);
      case Relative(word, sel) => RelativeParses(word, sel, rest);
    }
  }

  lemma WordThenSpace(word: string, behind: seq<string>)
    requires RelativeWord(word)
    ensures Until(WordEnd, [word] + ([" "] + behind)) == Taken(word, [" "] + behind)
    ensures !Hits(SelectorStart, word)
  {
    EndsHit([" "] + behind);
    assert !Hits(WordEnd, word) && !Hits(SelectorStart, word);
    assert Concat([word]) == word by { ConcatSingle(word); }
    hide Hits;
    UntilAll(WordEnd, [word], [" "] + behind);
  }

  lemma RelativeParses(word: string, sel: Sel, rest: seq<string>)
    requires ValidPlace(Relative(word, sel)) && Ends(rest)
    ensures Origin(Tokens(word + " " + SelText(sel)) + rest) == Taken(word + " " + SelValue(sel), rest)
    ensures Closed(word + " " + SelText(sel))
  {
    RelativeTokens(word, SelText(sel));
    SelectorParses(sel, rest);
    hide Tokens, Hits, Closed, Until, Selector, SelText, SelValue, TokenEnd;
    RelativeOrigin(word, Tokens(SelText(sel)), SelValue(sel), rest);
  }

  lemma RelativeOrigin(word: string, tokens: seq<string>, value: string, rest: seq<string>)
    requires RelativeWord(word) && value != "" && Selector(tokens + rest) == Taken(value, rest)
    ensures Origin([word] + ([" "] + tokens) + rest) == Taken(word + " " + value, rest)
  {
    var all, behind := [word] + ([" "] + tokens) + rest, tokens + rest;
    WordThenSpace(word, behind);
    hide Hits, Until, Selector, RelativeWord;
    assert all == [word] + ([" "] + behind);
    assert ([" "] + behind)[1..] == behind;
  }

  function ArgValue(m: Mod): string
  {
    match m
    case SelectorMod(_, sel) => SelValue(sel)
    case FromMod(place) => PlaceValue(place)
    case _ => ArgText(m)
  }

  lemma ArgumentParses(m: Mod, rest: seq<string>)
    requires ValidMod(m) && !m.FlagMod? && Ends(rest)
    ensures Argument(KeyOf(m), Tokens(ArgText(m)) + rest) == Taken(ArgValue(m), rest)
    ensures Closed(ArgText(m))
  {
    hide Tokens, Closed, IntervalText, PlaceText, SelText, Selector, Origin, Until, Hits;
    match m {
      case IntervalMod(_, interval) =>
        IntervalWithin(interval, WordEnd);
        EndsHit(rest);
        UntilText(WordEnd, ArgText(m), rest);
      case WordMod(_, text) =>
        EndsHit(rest);
        UntilText(WordEnd, text, rest);
      case SelectorMod(_, sel) => SelectorParses(sel, rest);
      case FromMod(place) => PlaceParses(place, rest);
      case FlagMod(_) =>
    }
  }

  lemma EffectIsApply(spec: Spec, m: Mod)
    requires spec.On? && ValidMod(m)
    ensures Effect(spec, m) == Apply(spec, KeyOf(m), ArgValue(m))
  {
    hide IntervalText, ParseInterval, Value, ValidSel, ValidPlace, Within, SelValue, PlaceValue;
    if m.IntervalMod? {
      ParseIntervalText(m.interval);
    }
  }

  lemma ModTokens(m: Mod)
    requires ValidMod(m)
    ensures Closed(ModText(m))
    ensures Tokens(ModText(m)) == [WordOf(KeyOf(m))] + if m.FlagMod? then [] else [":"] + Tokens(ArgText(m))
  {
    WordToken(KeyOf(m));
    if !m.FlagMod? {
      assert Closed(ArgText(m)) by { ArgumentParses(m, []); }
      hide *;
      WordColon(KeyOf(m), ArgText(m));
    }
  }

  lemma WordColon(k: Keyword, text: string)
    requires Closed(text)
    ensures Tokens(WordOf(k) + (":" + text)) == [WordOf(k)] + ([":"] + Tokens(text))
    ensures Closed(WordOf(k) + (":" + text))
  {
    assert Word(WordOf(k));
    hide WordOf, Tokens, Closed, Word;
    CharFirst(':', text);
    WordFirst(WordOf(k), ":" + text);
  }

  lemma FlagParses(spec: Spec, k: Keyword, rest: seq<string>)
    requires spec.On? && Flag(k)
    ensures Modifier(spec, [WordOf(k)] + rest) == Modified(Apply(spec, k, ""), rest, [])
  {
    KeywordOfWord(k);
    hide KeywordOf, WordOf, Apply;
    assert ([WordOf(k)] + rest)[1..] == rest;
  }

  lemma ArgumentModifier(spec: Spec, k: Keyword, argument: seq<string>, text: string, rest: seq<string>)
    requires spec.On? && !Flag(k) && k != NoKeyword && Argument(k, argument + rest) == Taken(text, rest)
    ensures Modifier(spec, [WordOf(k)] + ([":"] + argument) + rest) == Modified(Apply(spec, k, text), rest, [])
  {
    KeywordOfWord(k);
    hide KeywordOf, WordOf, Apply, Argument, Flag;
    var all := [WordOf(k)] + ([":"] + argument) + rest;
    assert all[1..] == [":"] + (argument + rest);
    assert all[1..][1..] == argument + rest;
  }

  lemma ModifierParses(spec: Spec, m: Mod, rest: seq<string>)
    requires spec.On? && ValidMod(m) && Ends(rest)
    ensures Modifier(spec, Tokens(ModText(m)) + rest) == Modified(Effect(spec, m), rest, [])
  {
    ModTokens(m);
    EffectIsApply(spec, m);
    if m.FlagMod? {
      FlagParses(spec, m.k, rest);
      hide *;
      assert [WordOf(m.k)] + [] == [WordOf(m.k)];
    } else {
      assert !Flag(KeyOf(m)) && KeyOf(m) != NoKeyword;
      ArgumentParses(m, rest);
      hide *;
      ArgumentModifier(spec, KeyOf(m), Tokens(ArgText(m)), ArgValue(m), rest);
    }
  }

  lemma {:induction false} ModsTokens(mods: seq<Mod>)
    requires forall m <- mods :: ValidMod(m)
    ensures Closed(ModsText(mods)) && (ModsText(mods) != "" ==> !SymbolCont(ModsText(mods)[0]))
    ensures Tokens(ModsText(mods)) ==
      if mods == [] then [] else [" "] + (Tokens(ModText(mods[0])) + Tokens(ModsText(mods[1..])))
  {
    if mods != [] {
      var first, more := ModText(mods[0]), ModsText(mods[1..]);
      assert ModsText(mods) == " " + (first + more);
      ModsTokens(mods[1..]);
      ModTokens(mods[0]);
      assert Seam(first, more);
      hide *;
      SpaceFirst(first + more);
      TokensAppend(first, more);
      ClosedAppend(first, more);
    }
  }

  /** A comma or the end of the text comes next. */
  predicate Over(tail: seq<string>)
  {
    tail == [] || tail[0] == ","
  }

  lemma {:induction false} ModifiersParse(spec: Spec, mods: seq<Mod>, tail: seq<string>)
    requires spec.On? && Over(tail) && forall m <- mods :: ValidMod(m)
    ensures Modifiers(spec, SkipSpace(Tokens(ModsText(mods)) + tail)) == Modified(Effects(spec, mods), tail, [])
    decreases |mods|
  {
    hide *;
    ModsTokens(mods);
    EffectsCons(spec, mods);
    if mods == [] {
      assert [] + tail == tail;
      NothingBehind(spec, tail);
    } else {
      var m, text := mods[0], ModsText(mods[1..]);
      var first, more := Tokens(ModText(m)), Tokens(text) + tail;
      BehindMod(mods[1..], tail);
      ModifierParses(spec, m, more);
      ModStarts(m);
      ModifiersParse(Effect(spec, m), mods[1..], tail);
      Regroup([" "], first + Tokens(text), tail);
      Regroup(first, Tokens(text), tail);
      ModifiersCons(spec, Effect(spec, m), first, more);
    }
  }

  lemma EffectsCons(spec: Spec, mods: seq<Mod>)
    requires spec.On? && forall m <- mods :: ValidMod(m)
    ensures Effects(spec, mods) == if mods == [] then spec else Effects(Effect(spec, mods[0]), mods[1..])
  {
  }

  lemma NothingBehind(spec: Spec, tail: seq<string>)
    requires spec.On? && Over(tail)
    ensures Modifiers(spec, SkipSpace(tail)) == Modified(spec, tail, [])
  {
    CommaStarts(tail);
    SkipNothing(tail);
  }

  lemma BehindMod(mods: seq<Mod>, tail: seq<string>)
    requires Over(tail) && forall m <- mods :: ValidMod(m)
    ensures Ends(Tokens(ModsText(mods)) + tail)
  {
    ModsTokens(mods);
    hide Tokens, ModsText;
  }

  lemma ModifiersCons(spec: Spec, next: Spec, first: seq<string>, more: seq<string>)
    requires spec.On? && next.On? && first != [] && first[0] != "," && Hits(NotWhitespace, first[0])
    requires Modifier(spec, first + more) == Modified(next, more, [])
    ensures Modifiers(spec, SkipSpace([" "] + (first + more))) == Modifiers(next, SkipSpace(more))
  {
    hide *;
    SkipOne(first + more);
    ModifiersMore(spec, next, first + more, more);
  }

  lemma CommaStarts(tail: seq<string>)
    requires Over(tail)
    ensures tail != [] ==> Hits(NotWhitespace, tail[0])
  {
    if tail != [] {
      assert InClass(NotWhitespace, tail[0][0]);
    }
  }

  lemma ModStarts(m: Mod)
    requires ValidMod(m)
    ensures Tokens(ModText(m)) != [] && Tokens(ModText(m))[0] != "," && Hits(NotWhitespace, Tokens(ModText(m))[0])
  {
    ModTokens(m);
    KeywordOfWord(KeyOf(m));
    assert InClass(NotWhitespace, WordOf(KeyOf(m))[0]);
  }

  lemma ModifiersMore(spec: Spec, next: Spec, tokens: seq<string>, rest: seq<string>)
    requires spec.On? && next.On? && tokens != [] && tokens[0] != ","
    requires Modifier(spec, tokens) == Modified(next, rest, [])
    ensures Modifiers(spec, tokens) == Modifiers(next, SkipSpace(rest))
  {
    var more := Modifiers(next, SkipSpace(rest));
    hide Modifier, SkipSpace;
    assert [] + more.errors == more.errors;
  }

  // ---------------------------------------------------------------------------
  // Filters
  // ---------------------------------------------------------------------------

  /** The body of a filter as the parser rewrites it, token by token. */
  function Rewritten(tokens: seq<string>, last: Option<string>): string
  {
    if tokens == [] then "" else Piece(tokens[0], last) + Rewritten(tokens[1..], Some(tokens[0]))
  }

  lemma PieceIsPart(tokens: seq<string>, i: nat)
    requires i < |tokens|
    ensures Piece(tokens[i], if i == 0 then None else Some(tokens[i - 1])) == Part(tokens, i)
  {
    if tokens[i] != "" {
      LettersStart(tokens[i][0]);
    }
  }

  lemma {:induction false} RewrittenIsParts(tokens: seq<string>, i: nat)
    requires i <= |tokens|
    ensures Rewritten(tokens[i..], if i == 0 then None else Some(tokens[i - 1])) == Concat(Parts(tokens)[i..])
    decreases |tokens| - i
  {
    if i < |tokens| {
      PieceIsPart(tokens, i);
      RewrittenIsParts(tokens, i + 1);
      assert tokens[i..][1..] == tokens[i + 1..];
      assert Parts(tokens)[i..][1..] == Parts(tokens)[i + 1..];
      hide Piece, Part;
    }
  }

  lemma {:induction false} ConditionRuns(tokens: seq<string>, depth: int, last: Option<string>, source: string, rest: seq<string>)
    requires Balanced(tokens, depth)
    ensures Condition(tokens + (["]"] + rest), depth, last, source)
         == (Some(source + Rewritten(tokens, last) + (if last.None? && tokens == [] then "true" else "") + SOURCE_END), rest)
  {
    var all := tokens + (["]"] + rest);
    if tokens == [] {
      assert all == ["]"] + rest && all[1..] == rest;
      assert source + "" == source;
    } else {
      var token, piece := tokens[0], Piece(tokens[0], last);
      assert all[1..] == tokens[1..] + (["]"] + rest) && all[0] == token;
      hide Piece;
      ConditionRuns(tokens[1..], Deeper(depth, token), Some(token), source + piece, rest);
      Regroup(source, piece, Rewritten(tokens[1..], Some(token)));
    }
  }

  lemma FilterTokens(text: string)
    requires Closed(text)
    ensures Tokens("[" + (text + "]")) == ["["] + (Tokens(text) + ["]"]) && Closed("[" + (text + "]"))
  {
    hide Tokens, Closed;
    CharIsToken(']');
    TokensAppend(text, "]");
    ClosedAppend(text, "]");
    CharFirst('[', text + "]");
  }

  predicate Compiles(compiles: string -> bool, filter: Option<string>)
  {
    filter.Some? ==> compiles(FilterSource(filter.value))
  }

  /** A filter is read exactly up to its matching bracket; one that does not compile is reported. */
  lemma FilterParses(compiles: string -> bool, filter: Option<string>, rest: seq<string>)
    requires ValidFilter(filter)
    requires filter.None? ==> !At(rest, "[")
    ensures Conditional(compiles, Tokens(FilterText(filter)) + rest) ==
      if Compiles(compiles, filter) then Filtered(FilterMeaning(filter), rest, [])
      else Filtered(None, rest, [BadFilter(FilterSource(filter.value))])
    ensures Closed(FilterText(filter))
  {
    if filter.None? {
      assert Tokens("") == [] && [] + rest == rest;
    } else {
      var body := Tokens(filter.value);
      FilterTokens(filter.value);
      ConditionRuns(body, 1, None, SOURCE_START, rest);
      Sources(filter.value);
      assert FilterText(filter) == "[" + (filter.value + "]");
      hide Condition, Tokens, Rewritten, Balanced, Closed, FilterText, FilterSource;
      InBrackets(compiles, body, FilterSource(filter.value), rest);
    }
  }

  lemma InBrackets(compiles: string -> bool, body: seq<string>, source: string, rest: seq<string>)
    requires Condition(body + (["]"] + rest), 1, None, SOURCE_START) == (Some(source), rest)
    ensures Conditional(compiles, ["["] + (body + ["]"]) + rest) ==
      if compiles(source) then Filtered(Some(source), rest, []) else Filtered(None, rest, [BadFilter(source)])
  {
    hide Condition;
    var all := ["["] + (body + ["]"]) + rest;
    assert all[1..] == body + (["]"] + rest);
  }

  lemma Sources(text: string)
    ensures var body := Tokens(text);
            SOURCE_START + Rewritten(body, None) + (if body == [] then "true" else "") + SOURCE_END == FilterSource(text)
  {
    var body := Tokens(text);
    RewrittenIsParts(body, 0);
    assert body[0..] == body && Parts(body)[0..] == Parts(body);
    hide Tokens, Rewritten, Part;
    assert SOURCE_START + "" == SOURCE_START;
    assert SOURCE_START + Rewritten(body, None) + "" == SOURCE_START + Rewritten(body, None);
  }

  /** The bracket never closes, counted from the given depth. */
  predicate Unclosed(tokens: seq<string>, depth: int)
  {
    tokens != [] ==>
      !(tokens[0] == "]" && depth == 1)
      && Unclosed(tokens[1..], depth + if tokens[0] == "[" then 1 else if tokens[0] == "]" then -1 else 0)
  }

  lemma {:induction false} UnclosedRuns(tokens: seq<string>, depth: int, last: Option<string>, source: string)
    requires Unclosed(tokens, depth)
    ensures Condition(tokens, depth, last, source) == (None, [])
  {
    if tokens != [] {
      UnclosedRuns(tokens[1..], Deeper(depth, tokens[0]), Some(tokens[0]), source + Piece(tokens[0], last));
    }
  }

  /** A filter without its closing bracket swallows the rest of the text, without an error. */
  lemma UnclosedFilter(compiles: string -> bool, tokens: seq<string>)
    requires Unclosed(tokens, 1)
    ensures Conditional(compiles, ["["] + tokens) == Filtered(None, [], [])
  {
    UnclosedRuns(tokens, 1, None, SOURCE_START);
    assert (["["] + tokens)[1..] == tokens;
  }

  // ---------------------------------------------------------------------------
  // Triggers
  // ---------------------------------------------------------------------------

  lemma FilterThenMods(filter: Option<string>, mods: seq<Mod>)
    requires ValidFilter(filter) && forall m <- mods :: ValidMod(m)
    ensures var text := FilterText(filter) + ModsText(mods);
            && Tokens(text) == Tokens(FilterText(filter)) + Tokens(ModsText(mods)) && Closed(text)
            && (text != "" ==> !SymbolCont(text[0]))
  {
    ModsTokens(mods);
    if filter.Some? {
      FilterTokens(filter.value);
    }
    assert Closed(FilterText(filter));
    hide Tokens, Closed, ModsText;
    TokensAppend(FilterText(filter), ModsText(mods));
    ClosedAppend(FilterText(filter), ModsText(mods));
  }

  lemma EventTokens(t: Trig)
    requires ValidTrig(t) && t.Event?
    ensures Tokens(TrigText(t)) == Tokens(t.name) + (Tokens(FilterText(t.filter)) + Tokens(ModsText(t.mods)))
    ensures Closed(TrigText(t))
  {
    FilterThenMods(t.filter, t.mods);
    hide Tokens, Closed, FilterText, ModsText;
    TokensAppend(t.name, FilterText(t.filter) + ModsText(t.mods));
    ClosedAppend(t.name, FilterText(t.filter) + ModsText(t.mods));
  }

  /** What follows the name of an event ends it, and is no filter unless there is one. */
  lemma BehindName(filter: Option<string>, mods: seq<Mod>, tail: seq<string>)
    requires ValidFilter(filter) && Over(tail) && forall m <- mods :: ValidMod(m)
    ensures var modsTail := Tokens(ModsText(mods)) + tail;
            var behind := Tokens(FilterText(filter)) + modsTail;
            && !At(modsTail, "[") && (behind != [] ==> Hits(NameEnd, behind[0]))
  {
    BehindMod(mods, tail);
    EndsHit(Tokens(ModsText(mods)) + tail);
    if filter.Some? {
      FilterTokens(filter.value);
      assert InClass(NameEnd, "["[0]);
    }
    hide Tokens, ModsText, Balanced, Closed;
  }

  lemma EventParses(compiles: string -> bool, t: Trig, tail: seq<string>)
    requires ValidTrig(t) && t.Event? && Compiles(compiles, t.filter) && Over(tail)
    ensures Trigger(compiles, Tokens(TrigText(t)) + tail) == Single(Some(Meaning(t)), tail, [])
  {
    var filter, mods := Tokens(FilterText(t.filter)), Tokens(ModsText(t.mods));
    EventTokens(t);
    BehindName(t.filter, t.mods, tail);
    UntilText(NameEnd, t.name, filter + (mods + tail));
    FilterParses(compiles, t.filter, mods + tail);
    ModifiersParse(Plain(t.name, FilterMeaning(t.filter)), t.mods, tail);
    hide Tokens, TrigText, FilterText, ModsText, Until, Conditional, Modifiers, SkipSpace, Effects, FilterMeaning, Hits, Closed;
    Regroup(Tokens(t.name), filter + mods, tail);
    Regroup(filter, mods, tail);
  }

  function TimerTail(filter: Option<string>): string
  {
    if filter.None? then "" else " " + FilterText(filter)
  }

  lemma TimerTailTokens(filter: Option<string>)
    requires ValidFilter(filter)
    ensures Closed(TimerTail(filter)) && (filter.Some? ==> !SymbolCont(TimerTail(filter)[0]))
    ensures Tokens(TimerTail(filter)) == if filter.None? then [] else [" "] + Tokens(FilterText(filter))
  {
    if filter.Some? {
      FilterTokens(filter.value);
      SpaceFirst(FilterText(filter));
    } else {
      assert Tokens("") == [] && Closed("");
    }
  }

  lemma TimerTokens(interval: Interval, filter: Option<string>)
    requires ValidFilter(filter)
    ensures var text := TrigText(Timer(interval, filter));
            && Tokens(text) == ["every"] + ([" "] + (Tokens(IntervalText(interval)) + Tokens(TimerTail(filter))))
            && Closed(text)
  {
    TimerTailTokens(filter);
    IntervalWithin(interval, WordEnd);
    hide Tokens, Closed, IntervalText, FilterText, TimerTail, ValidFilter;
    var body := IntervalText(interval) + TimerTail(filter);
    TokensAppend(IntervalText(interval), TimerTail(filter));
    ClosedAppend(IntervalText(interval), TimerTail(filter));
    EverySpace(body);
    TimerText(interval, filter);
  }

  lemma TimerText(interval: Interval, filter: Option<string>)
    ensures TrigText(Timer(interval, filter)) == "every" + (" " + (IntervalText(interval) + TimerTail(filter)))
  {
  }

  lemma EverySpace(text: string)
    ensures Tokens("every" + (" " + text)) == ["every"] + ([" "] + Tokens(text))
    ensures Closed("every" + (" " + text)) <==> Closed(text)
  {
    hide Tokens, Closed;
    SpaceFirst(text);
    WordFirst("every", " " + text);
  }

  lemma EveryName(behind: seq<string>)
    ensures Until(NameEnd, ["every"] + ([" "] + behind)) == Taken("every", [" "] + behind)
  {
    EndsHit([" "] + behind);
    assert !Hits(NameEnd, "every");
    ConcatSingle("every");
    UntilAll(NameEnd, ["every"], [" "] + behind);
  }

  /** From the interval of a timer on. */
  lemma TimerRest(compiles: string -> bool, interval: Interval, filter: Option<string>, tail: seq<string>)
    requires ValidFilter(filter) && Compiles(compiles, filter) && Over(tail)
    ensures var rest := Tokens(TimerTail(filter)) + tail;
            var behind := Tokens(IntervalText(interval)) + rest;
            && SkipSpace([" "] + behind) == behind && Until(NameEnd, behind) == Taken(IntervalText(interval), rest)
            && Conditional(compiles, SkipSpace(rest)) == Filtered(FilterMeaning(filter), tail, [])
  {
    var text, rest := IntervalText(interval), Tokens(TimerTail(filter)) + tail;
    TimerTailTokens(filter);
    IntervalWithin(interval, NameEnd);
    hide IntervalText, Closed;
    assert Ends(rest);
    EndsHit(rest);
    UntilText(NameEnd, text, rest);
    assert Hits(NotWhitespace, Tokens(text)[0]) by {
      assert InClass(NotWhitespace, Tokens(text)[0][0]);
    }
    hide Conditional, Hits, FilterMeaning;
    SkipOne(Tokens(text) + rest);
    FilterParses(compiles, filter, tail);
    SkipToFilter(filter, tail);
  }

  lemma SkipToFilter(filter: Option<string>, tail: seq<string>)
    requires ValidFilter(filter) && Over(tail)
    ensures SkipSpace(Tokens(TimerTail(filter)) + tail) == Tokens(FilterText(filter)) + tail
  {
    TimerTailTokens(filter);
    CommaStarts(tail);
    if filter.Some? {
      FilterTokens(filter.value);
      assert InClass(NotWhitespace, "["[0]);
      hide Tokens;
      Regroup([" "], Tokens(FilterText(filter)), tail);
      SkipOne(Tokens(FilterText(filter)) + tail);
    } else {
      assert Tokens("") == [] && [] + tail == tail;
      SkipNothing(tail);
    }
  }

  lemma TimerParses(compiles: string -> bool, interval: Interval, filter: Option<string>, tail: seq<string>)
    requires ValidFilter(filter) && Compiles(compiles, filter) && Over(tail)
    ensures var t := Timer(interval, filter);
            Trigger(compiles, Tokens(TrigText(t)) + tail) == Single(Some(Meaning(t)), tail, [])
  {
    var text, rest := Tokens(IntervalText(interval)), Tokens(TimerTail(filter));
    TimerTokens(interval, filter);
    TimerRest(compiles, interval, filter, tail);
    ParseIntervalText(interval);
    hide *;
    EveryTrigger(compiles, text + (rest + tail), IntervalText(interval), rest + tail, FilterMeaning(filter), tail);
    EveryRegroup(text, rest, tail);
    assert Meaning(Timer(interval, filter)) == Every(Some(Value(interval)), FilterMeaning(filter)) by {
      TimerMeaning(interval, filter);
    }
  }

  lemma TimerMeaning(interval: Interval, filter: Option<string>)
    requires ValidFilter(filter)
    ensures ValidTrig(Timer(interval, filter))
    ensures Meaning(Timer(interval, filter)) == Every(Some(Value(interval)), FilterMeaning(filter))
  {
  }

  lemma EveryTrigger(compiles: string -> bool, behind: seq<string>, text: string, rest: seq<string>,
                     filter: Option<string>, tail: seq<string>)
    requires SkipSpace([" "] + behind) == behind && Until(NameEnd, behind) == Taken(text, rest)
    requires Conditional(compiles, SkipSpace(rest)) == Filtered(filter, tail, [])
    ensures Trigger(compiles, ["every"] + ([" "] + behind)) == Single(Some(Every(ParseInterval(text), filter)), tail, [])
  {
    hide SkipSpace, Until, Conditional, ParseInterval;
    EveryName(behind);
  }

  lemma EveryRegroup(a: seq<string>, b: seq<string>, tail: seq<string>)
    ensures ["every"] + ([" "] + (a + b)) + tail == ["every"] + ([" "] + (a + (b + tail)))
  {
  }

  lemma TrigParses(compiles: string -> bool, t: Trig, tail: seq<string>)
    requires ValidTrig(t) && Compiles(compiles, t.filter) && Over(tail)
    ensures Trigger(compiles, Tokens(TrigText(t)) + tail) == Single(Some(Meaning(t)), tail, [])
    ensures Closed(TrigText(t)) && Tokens(TrigText(t)) != [] && Hits(NotWhitespace, Tokens(TrigText(t))[0])
  {
    match t {
      case Timer(interval, filter) =>
        TimerTokens(interval, filter);
        TimerParses(compiles, interval, filter, tail);
        assert InClass(NotWhitespace, "every"[0]);
      case Event(name, _, _) =>
        EventTokens(t);
        EventParses(compiles, t, tail);
        assert InClass(NotWhitespace, Tokens(name)[0][0]);
    }
  }

  // ---------------------------------------------------------------------------
  // Lists of triggers
  // ---------------------------------------------------------------------------

  function Lead(spaced: bool): seq<string> {
    if spaced then [" "] else []
  }

  lemma ElementParses(compiles: string -> bool, t: Trig, spaced: bool, tail: seq<string>)
    requires ValidTrig(t) && Compiles(compiles, t.filter) && Over(tail)
    ensures Element(compiles, Lead(spaced) + (Tokens(TrigText(t)) + tail)) == Single(Some(Meaning(t)), tail, [])
  {
    var start := Tokens(TrigText(t)) + tail;
    TrigParses(compiles, t, tail);
    assert start[0] == Tokens(TrigText(t))[0] && |tail| < |start|;
    CommaStarts(tail);
    hide Trigger, SkipSpace, Tokens, TrigText, Hits, Meaning, Closed;
    SkipNothing(tail);
    if spaced {
      SkipOne(start);
    } else {
      assert [] + start == start;
      SkipNothing(start);
    }
  }

  lemma ListTokens(ts: seq<Trig>)
    requires |ts| > 1 && ValidTrig(ts[0])
    ensures Tokens(ListText(ts)) == Tokens(TrigText(ts[0])) + ([","] + ([" "] + Tokens(ListText(ts[1..]))))
  {
    var more := ListText(ts[1..]);
    assert Closed(TrigText(ts[0])) by {
      TrigClosed(ts[0]);
    }
    hide TrigText, Tokens, Closed, ValidTrig;
    assert ListText(ts) == TrigText(ts[0]) + ("," + (" " + more));
    SpaceFirst(more);
    CharFirst(',', " " + more);
    TokensAppend(TrigText(ts[0]), "," + (" " + more));
  }

  lemma TrigClosed(t: Trig)
    requires ValidTrig(t)
    ensures Closed(TrigText(t))
  {
    match t {
      case Timer(interval, filter) => TimerTokens(interval, filter);
      case Event(_, _, _) => EventTokens(t);
    }
  }

  ghost predicate Printable(compiles: string -> bool, ts: seq<Trig>)
  {
    forall t <- ts :: ValidTrig(t) && Compiles(compiles, t.filter)
  }

  lemma ParseStep(compiles: string -> bool, tokens: seq<string>, spec: Spec, tail: seq<string>)
    requires Element(compiles, tokens) == Single(Some(spec), tail, [])
    ensures Parse(compiles, tokens) ==
      if At(tail, ",") then
        var more := Parse(compiles, tail[1..]);
        Parsed([spec] + more.specs, more.errors)
      else Parsed([spec], [])
  {
    hide Element;
    if At(tail, ",") {
      var more := Parse(compiles, tail[1..]);
      assert [] + more.errors == more.errors;
    }
  }

  lemma {:induction false} ListParses(compiles: string -> bool, ts: seq<Trig>, spaced: bool)
    requires ts != [] && Printable(compiles, ts)
    ensures Parse(compiles, Lead(spaced) + Tokens(ListText(ts))) == Parsed(Meanings(ts), [])
    decreases |ts|
  {
    var first := Tokens(TrigText(ts[0]));
    var tail := if |ts| == 1 then [] else [","] + ([" "] + Tokens(ListText(ts[1..])));
    assert ValidTrig(ts[0]) && Compiles(compiles, ts[0].filter);
    assert Tokens(ListText(ts)) == first + tail by {
      if |ts| == 1 {
        assert first + [] == first;
      } else {
        ListTokens(ts);
      }
    }
    assert Over(tail);
    hide Tokens, TrigText, ListText, ValidTrig, Compiles, Parse, Meaning, Element;
    ElementParses(compiles, ts[0], spaced, tail);
    ParseStep(compiles, Lead(spaced) + (first + tail), Meaning(ts[0]), tail);
    if |ts| == 1 {
      assert [Meaning(ts[0])] + [] == [Meaning(ts[0])];
    } else {
      ListParses(compiles, ts[1..], true);
      assert tail[1..] == Lead(true) + Tokens(ListText(ts[1..]));
    }
  }

  /**
   * Parsing the canonical text of any list of triggers gives their meanings back in
   * order, without an error: names, intervals, filters up to their matching bracket, and
   * every modifier, later ones overriding earlier ones.
   */
  lemma PrintedParsesBack(compiles: string -> bool, ts: seq<Trig>)
    requires ts != [] && Printable(compiles, ts)
    ensures Parse(compiles, Tokens(ListText(ts))) == Parsed(Meanings(ts), [])
  {
    ListParses(compiles, ts, false);
    hide *;
    assert Lead(false) + Tokens(ListText(ts)) == Tokens(ListText(ts)) by {
      NoLead(Tokens(ListText(ts)));
    }
  }

  lemma NoLead(tokens: seq<string>)
    ensures Lead(false) + tokens == tokens
  {
  }

  // ---------------------------------------------------------------------------
  // Lists of specifications
  // ---------------------------------------------------------------------------

  predicate WholeMillis(x: Option<real>)
  {
    x.Some? ==> x.value >= 0.0 && x.value.Floor as real == x.value
  }

  predicate WordLike(text: Option<string>)
  {
    text.Some? ==> Within(WordEnd, text.value)
  }

  /** One word that starts with no brace, or a trimmed text without closing ones. */
  predicate SelectorLike(text: Option<string>)
  {
    text.Some? ==> ValidSel(Bare(text.value)) || Wrappable(text.value)
  }

  predicate Wrappable(text: string)
  {
    Within(SelectorEnd, text) && Trim(text) == text
  }

  function SelFor(text: string): Sel
  {
    if ValidSel(Bare(text)) && !Scope(text) then Bare(text) else Wrapped(text)
  }

  /** Specifications without a filter, with intervals in whole milliseconds. */
  predicate FilterFree(spec: Spec)
  {
    match spec
    case Every(interval, filter) => filter.None? && interval.Some? && WholeMillis(interval)
    case On(trigger, filter, _, _, _, delay, throttle, from, target, queue, root, threshold) =>
      && filter.None? && trigger != "" && trigger != "every" && Within(NameEnd, trigger)
      && WholeMillis(delay) && WholeMillis(throttle) && WordLike(queue) && WordLike(threshold)
      && SelectorLike(from) && SelectorLike(target) && SelectorLike(root)
  }

  function Flags(present: bool, k: Keyword): seq<Mod> {
    if present then [FlagMod(k)] else []
  }

  function Intervals(k: Keyword, x: Option<real>): seq<Mod>
    requires WholeMillis(x)
  {
    if x.Some? then [IntervalMod(k, Millis(x.value.Floor))] else []
  }

  function Words(k: Keyword, text: Option<string>): seq<Mod>
  {
    if text.Some? then [WordMod(k, text.value)] else []
  }

  function Selectors(k: Keyword, text: Option<string>): seq<Mod>
  {
    if text.Some? then [SelectorMod(k, SelFor(text.value))] else []
  }

  function Places(text: Option<string>): seq<Mod>
  {
    if text.Some? then [FromMod(Simple(SelFor(text.value)))] else []
  }

  function ModsOf(spec: Spec): seq<Mod>
    requires spec.On? && FilterFree(spec)
  {
    Flags(spec.changed, Changed) + (Flags(spec.once, Once) + (Flags(spec.consume, Consume)
    + (Intervals(Delay, spec.delay) + (Intervals(Throttle, spec.throttle) + LaterMods(spec)))))
  }

  function LaterMods(spec: Spec): seq<Mod>
    requires spec.On?
  {
    Texts(FromWord, spec.from) + (Texts(Target, spec.target) + (Texts(Queue, spec.queue)
    + (Texts(Root, spec.root) + (Texts(Threshold, spec.threshold) + []))))
  }

  function Canonical(spec: Spec): Trig
    requires FilterFree(spec)
  {
    if spec.Every? then Timer(Millis(spec.interval.value.Floor), None) else Event(spec.trigger, None, ModsOf(spec))
  }

  lemma {:induction false} EffectsAppend(spec: Spec, a: seq<Mod>, b: seq<Mod>)
    requires spec.On? && (forall m <- a :: ValidMod(m)) && (forall m <- b :: ValidMod(m))
    ensures forall m <- a + b :: ValidMod(m)
    ensures Effects(spec, a + b) == Effects(Effects(spec, a), b)
    decreases |a|
  {
    if a == [] {
      assert a + b == b;
    } else {
      EffectsAppend(Effect(spec, a[0]), a[1..], b);
      assert (a + b)[1..] == a[1..] + b;
    }
  }

  /** One optional modifier in front of others sets its field and no other. */
  lemma OptionalFirst(s: Spec, first: seq<Mod>, rest: seq<Mod>, next: Spec)
    requires s.On? && next.On? && |first| <= 1
    requires (forall m <- first :: ValidMod(m)) && (forall m <- rest :: ValidMod(m))
    requires next == if first == [] then s else Effect(s, first[0])
    ensures forall m <- first + rest :: ValidMod(m)
    ensures Effects(s, first + rest) == Effects(next, rest)
  {
    EffectsAppend(s, first, rest);
  }

  lemma ValidMillis(x: Option<real>, k: Keyword)
    requires WholeMillis(x) && (k == Delay || k == Throttle)
    ensures forall m <- Intervals(k, x) :: ValidMod(m)
    ensures x.Some? ==> |Intervals(k, x)| == 1 && Value(Intervals(k, x)[0].interval) == x.value
  {
  }

  lemma WordWrappable(word: string)
    requires Word(word)
    ensures Wrappable(word)
  {
    UnquotedCloses(word);
    hide Closed;
    assert !Whitespace(word[0]) && !Whitespace(word[|word| - 1]);
  }

  lemma SelForIs(text: string)
    requires SelectorLike(Some(text))
    ensures ValidPlace(Simple(SelFor(text))) && ValidSel(SelFor(text)) && SelValue(SelFor(text)) == text
  {
    if RelativeWord(text) {
      RelativeIsWord(text);
      WordWrappable(text);
    }
    hide Within, Trim, RelativeWord, Hits, TokenEnd;
  }

  lemma ValidTexts(text: Option<string>, k: Keyword)
    ensures SelectorLike(text) && (k == Target || k == Root) ==>
      forall m <- Selectors(k, text) :: ValidMod(m) && SelValue(m.sel) == text.value
    ensures SelectorLike(text) ==> forall m <- Places(text) :: ValidMod(m) && PlaceValue(m.place) == text.value
    ensures WordLike(text) && (k == Queue || k == Threshold) ==> forall m <- Words(k, text) :: ValidMod(m)
  {
    if text.Some? && SelectorLike(text) {
      SelForIs(text.value);
    }
    hide Within, Trim, SelFor, ValidSel, SelectorLike;
  }

  /** The field a text modifier sets. */
  function Set(s: Spec, k: Keyword, text: Option<string>): (t: Spec)
    requires s.On?
    ensures t.On?
  {
    match k
    case FromWord => s.(from := text)
    case Target => s.(target := text)
    case Queue => s.(queue := text)
    case Root => s.(root := text)
    case Threshold => s.(threshold := text)
    case _ => s
  }

  function Texts(k: Keyword, text: Option<string>): (mods: seq<Mod>)
  {
    if k == FromWord then Places(text) else if k == Target || k == Root then Selectors(k, text) else Words(k, text)
  }

  lemma TextFirst(s: Spec, k: Keyword, text: Option<string>, rest: seq<Mod>)
    requires s.On? && k in {FromWord, Target, Queue, Root, Threshold} && Set(s, k, None) == s
    requires if k == Queue || k == Threshold then WordLike(text) else SelectorLike(text)
    requires forall m <- rest :: ValidMod(m)
    ensures forall m <- Texts(k, text) + rest :: ValidMod(m)
    ensures Effects(s, Texts(k, text) + rest) == Effects(Set(s, k, text), rest)
  {
    ValidTexts(text, k);
    hide Within, Trim, Effects, ValidMod, SelectorLike, WordLike, SelValue, PlaceValue;
    OptionalFirst(s, Texts(k, text), rest, Set(s, k, text));
  }

  lemma LaterEffects(spec: Spec, s: Spec)
    requires spec.On? && FilterFree(spec)
    requires s == spec.(from := None, target := None, queue := None, root := None, threshold := None)
    ensures forall m <- LaterMods(spec) :: ValidMod(m)
    ensures Effects(s, LaterMods(spec)) == spec
  {
    hide Texts, SelectorLike, WordLike, WholeMillis, ValidMod, Within;
    var s1 := Set(s, FromWord, spec.from);
    var s2 := Set(s1, Target, spec.target);
    var s3 := Set(s2, Queue, spec.queue);
    var s4 := Set(s3, Root, spec.root);
    var none: seq<Mod> := [];
    var e := Texts(Threshold, spec.threshold) + none;
    var d := Texts(Root, spec.root) + e;
    var c := Texts(Queue, spec.queue) + d;
    var b := Texts(Target, spec.target) + c;
    TextFirst(s4, Threshold, spec.threshold, none);
    TextFirst(s3, Root, spec.root, e);
    TextFirst(s2, Queue, spec.queue, d);
    TextFirst(s1, Target, spec.target, c);
    TextFirst(s, FromWord, spec.from, b);
    assert Set(s4, Threshold, spec.threshold) == spec;
    EffectsCons(spec, none);
  }

  lemma ModsEffects(spec: Spec)
    requires spec.On? && FilterFree(spec)
    ensures forall m <- ModsOf(spec) :: ValidMod(m)
    ensures Effects(Plain(spec.trigger, None), ModsOf(spec)) == spec
  {
    var a, b, c, d, e := Flags(spec.changed, Changed), Flags(spec.once, Once), Flags(spec.consume, Consume),
      Intervals(Delay, spec.delay), Intervals(Throttle, spec.throttle);
    var rest := LaterMods(spec);
    var s := Plain(spec.trigger, None);
    var s1 := s.(changed := spec.changed);
    var s2 := s1.(once := spec.once);
    var s3 := s2.(consume := spec.consume);
    var s4 := s3.(delay := spec.delay);
    var s5 := s4.(throttle := spec.throttle);
    LaterEffects(spec, s5);
    ValidMillis(spec.delay, Delay);
    ValidMillis(spec.throttle, Throttle);
    hide Within, Trim, Effects, LaterMods, Value;
    OptionalFirst(s4, e, rest, s5);
    OptionalFirst(s3, d, e + rest, s4);
    OptionalFirst(s2, c, d + (e + rest), s3);
    OptionalFirst(s1, b, c + (d + (e + rest)), s2);
    OptionalFirst(s, a, b + (c + (d + (e + rest))), s1);
  }

  lemma CanonicalMeans(spec: Spec)
    requires FilterFree(spec)
    ensures ValidTrig(Canonical(spec)) && Canonical(spec).filter.None? && Meaning(Canonical(spec)) == spec
  {
    if spec.On? {
      ModsEffects(spec);
      hide ModsOf, Effects;
    }
  }

  function Canonicals(specs: seq<Spec>): (ts: seq<Trig>)
    requires forall spec <- specs :: FilterFree(spec)
    ensures |ts| == |specs|
  {
    if specs == [] then [] else [Canonical(specs[0])] + Canonicals(specs[1..])
  }

  lemma {:induction false} CanonicalsMean(compiles: string -> bool, specs: seq<Spec>)
    requires forall spec <- specs :: FilterFree(spec)
    ensures Printable(compiles, Canonicals(specs)) && Meanings(Canonicals(specs)) == specs
  {
    if specs != [] {
      CanonicalMeans(specs[0]);
      CanonicalsMean(compiles, specs[1..]);
      hide Canonical, FilterFree, Meaning, ValidTrig;
      var ts := Canonicals(specs);
      assert ts[0] == Canonical(specs[0]) && ts[1..] == Canonicals(specs[1..]);
      assert forall t <- ts :: t == ts[0] || t in ts[1..];
    }
  }

  /** Every list of such specifications is printed to a text that parses to that list. */
  lemma SpecsParseBack(compiles: string -> bool, specs: seq<Spec>)
    requires specs != [] && forall spec <- specs :: FilterFree(spec)
    ensures Parse(compiles, Tokens(ListText(Canonicals(specs)))) == Parsed(specs, [])
  {
    CanonicalsMean(compiles, specs);
    PrintedParsesBack(compiles, Canonicals(specs));
  }
}
