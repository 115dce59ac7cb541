/**
 * The hx-trigger parser: the grammar as functions on the list of tokens, the code that
 * consumes a mutable token list proved equal to them, and the cache of parsed triggers.
 */
module TriggerParser {
  import opened Prelude
  import opened TriggerTokens

  /** The character classes tokens are tested against; any character of the token may match. */
  datatype Class = NotWhitespace | NameEnd | WordEnd | SelectorStart | SelectorEnd

  /** \s */
  predicate Whitespace(c: char)
  {
    var n := c as int;
    || 9 <= n <= 13 || n == 0x20 || n == 0xA0 || n == 0x1680 || 0x2000 <= n <= 0x200A
    || n == 0x2028 || n == 0x2029 || n == 0x202F || n == 0x205F || n == 0x3000 || n == 0xFEFF
  }

  predicate InClass(test: Class, c: char)
  {
    match test
    case NotWhitespace => !Whitespace(c)
    case NameEnd => c == ',' || c == '[' || Whitespace(c)
    case WordEnd => c == ',' || Whitespace(c)
    case SelectorStart => c == '{' || c == '('
    case SelectorEnd => c == '}' || c == ')'
  }

  predicate Hits(test: Class, token: string)
  {
    exists i | 0 <= i < |token| :: InClass(test, token[i])
  }

  // ---------------------------------------------------------------------------
  // The grammar on tokens
  // ---------------------------------------------------------------------------

  /** tokens.shift(), which leaves an empty list empty. */
  function Tail(tokens: seq<string>): seq<string>
  {
    if tokens == [] then [] else tokens[1..]
  }

  function Head(tokens: seq<string>): Option<string>
  {
    if tokens == [] then None else Some(tokens[0])
  }

  predicate At(tokens: seq<string>, token: string)
  {
    tokens != [] && tokens[0] == token
  }

  /** A text and the tokens behind it. */
  datatype Taken = Taken(text: string, rest: seq<string>)

  function Until(test: Class, tokens: seq<string>): (t: Taken)
    ensures |t.rest| <= |tokens|
  {
    if tokens == [] || Hits(test, tokens[0]) then Taken("", tokens)
    else
      var more := Until(test, tokens[1..]);
      Taken(tokens[0] + more.text, more.rest)
  }

  function SkipSpace(tokens: seq<string>): (rest: seq<string>)
    ensures |rest| <= |tokens|
  {
    Until(NotWhitespace, tokens).rest
  }

  function TrimStart(s: string): (t: string)
    ensures t != "" ==> !Whitespace(t[0])
  {
    if s != "" && Whitespace(s[0]) then TrimStart(s[1..]) else s
  }

  function TrimEnd(s: string): string
  {
    if s != "" && Whitespace(s[|s| - 1]) then TrimEnd(s[..|s| - 1]) else s
  }

  function Trim(s: string): string
  {
    TrimEnd(TrimStart(s))
  }

  function Selector(tokens: seq<string>): (t: Taken)
    ensures |t.rest| <= |tokens|
  {
    if tokens != [] && Hits(SelectorStart, tokens[0]) then
      var inner := Until(SelectorEnd, tokens[1..]);
      Taken(Trim(inner.text), Tail(inner.rest))
    else Until(WordEnd, tokens)
  }

  predicate RelativeWord(word: string)
  {
    word == "closest" || word == "find" || word == "next" || word == "previous"
  }

  /** The argument of from: a selector, or a relative word followed by one. */
  function Origin(tokens: seq<string>): (t: Taken)
    ensures |t.rest| <= |tokens|
  {
    if tokens != [] && Hits(SelectorStart, tokens[0]) then Selector(tokens)
    else
      var word := Until(WordEnd, tokens);
      if !RelativeWord(word.text) then word
      else
        var selector := Selector(Tail(word.rest));
        Taken(if selector.text != "" then word.text + " " + selector.text else word.text, selector.rest)
  }

  /** Unexpected reports the token shifted at the error, None when there was none. */
  datatype Error = Unexpected(token: Option<string>) | BadFilter(source: string)

  /** A trigger specification; a filter is the source of its condition function. */
  datatype Spec =
    | Every(interval: Option<real>, filter: Option<string>)
    | On(trigger: string, filter: Option<string>, changed: bool, once: bool, consume: bool,
         delay: Option<real>, throttle: Option<real>, from: Option<string>, target: Option<string>,
         queue: Option<string>, root: Option<string>, threshold: Option<string>)

  function Plain(trigger: string, filter: Option<string>): (spec: Spec)
    ensures spec.On?
  {
    On(trigger, filter, false, false, false, None, None, None, None, None, None, None)
  }

  predicate PossibleReference(token: string, last: Option<string>)
  {
    && token != "" && SymbolStart(token[0])
    && token != "true" && token != "false" && token != "this" && token != "event" && last != Some(".")
  }

  function Piece(token: string, last: Option<string>): string
  {
    if PossibleReference(token, last)
    then "((event." + token + ") ? (event." + token + ") : (window." + token + "))"
    else token
  }

  const SOURCE_START := " return (function(event){ return ("
  const SOURCE_END := ")})"

  /** Inside a filter: the finished source with what follows its bracket, or all consumed. */
  function Condition(tokens: seq<string>, depth: int, last: Option<string>, source: string): (r: (Option<string>, seq<string>))
    ensures |r.1| <= |tokens|
  {
    if tokens == [] then (None, [])
    else if tokens[0] == "]" && depth == 1 then
      (Some(source + (if last.None? then "true" else "") + SOURCE_END), tokens[1..])
    else
      Condition(tokens[1..], Deeper(depth, tokens[0]), Some(tokens[0]), source + Piece(tokens[0], last))
  }

  function Deeper(depth: int, token: string): int
  {
    if token == "[" then depth + 1 else if token == "]" then depth - 1 else depth
  }

  datatype Filtered = Filtered(filter: Option<string>, rest: seq<string>, errors: seq<Error>)

  function Conditional(compiles: string -> bool, tokens: seq<string>): (f: Filtered)
    ensures |f.rest| <= |tokens|
  {
    if !At(tokens, "[") then Filtered(None, tokens, [])
    else
      var (source, rest) := Condition(tokens[1..], 1, None, SOURCE_START);
      if source.None? then Filtered(None, rest, [])
      else if compiles(source.value) then Filtered(source, rest, [])
      else Filtered(None, rest, [BadFilter(source.value)])
  }

  datatype Keyword =
    | Changed | Once | Consume | Delay | FromWord | Target | Throttle | Queue | Root | Threshold | NoKeyword

  function KeywordOf(token: string): Keyword
  {
    if token == "changed" then Changed
    else if token == "once" then Once
    else if token == "consume" then Consume
    else if token == "delay" then Delay
    else if token == "from" then FromWord
    else if token == "target" then Target
    else if token == "throttle" then Throttle
    else if token == "queue" then Queue
    else if token == "root" then Root
    else if token == "threshold" then Threshold
    else NoKeyword
  }

  predicate Flag(k: Keyword)
  {
    k == Changed || k == Once || k == Consume
  }

  datatype Modified = Modified(spec: Spec, rest: seq<string>, errors: seq<Error>)

  /** What a keyword does to a specification, with the text of its argument. */
  function Apply(spec: Spec, k: Keyword, text: string): (s: Spec)
    requires spec.On?
    ensures s.On?
  {
    match k
    case Changed => spec.(changed := true)
    case Once => spec.(once := true)
    case Consume => spec.(consume := true)
    case Delay => spec.(delay := ParseInterval(text))
    case FromWord => spec.(from := Some(text))
    case Target => spec.(target := Some(text))
    case Throttle => spec.(throttle := ParseInterval(text))
    case Queue => spec.(queue := Some(text))
    case Root => spec.(root := Some(text))
    case Threshold => spec.(threshold := Some(text))
    case NoKeyword => spec
  }

  function Argument(k: Keyword, tokens: seq<string>): (t: Taken)
    ensures |t.rest| <= |tokens|
  {
    if k == FromWord then Origin(tokens)
    else if k == Target || k == Root then Selector(tokens)
    else Until(WordEnd, tokens)
  }

  /** One modifier; an unknown one, or one without its colon, swallows the next token too. */
  function Modifier(spec: Spec, tokens: seq<string>): (m: Modified)
    requires spec.On? && tokens != []
    ensures m.spec.On? && |m.rest| < |tokens|
  {
    var k, rest := KeywordOf(tokens[0]), tokens[1..];
    if Flag(k) then Modified(Apply(spec, k, ""), rest, [])
    else if k != NoKeyword && At(rest, ":") then
      var argument := Argument(k, rest[1..]);
      Modified(Apply(spec, k, argument.text), argument.rest, [])
    else Modified(spec, Tail(rest), [Unexpected(Head(rest))])
  }

  function Modifiers(spec: Spec, tokens: seq<string>): (m: Modified)
    requires spec.On?
    ensures m.spec.On? && |m.rest| <= |tokens|
    decreases |tokens|
  {
    if tokens == [] || tokens[0] == "," then Modified(spec, tokens, [])
    else
      var one := Modifier(spec, tokens);
      var more := Modifiers(one.spec, SkipSpace(one.rest));
      more.(errors := one.errors + more.errors)
  }

  datatype Single = Single(spec: Option<Spec>, rest: seq<string>, errors: seq<Error>)

  /** One trigger, from its first token. */
  function Trigger(compiles: string -> bool, tokens: seq<string>): (s: Single)
    ensures |s.rest| <= |tokens|
  {
    var name := Until(NameEnd, tokens);
    if name.text == "" then Single(None, name.rest, [])
    else if name.text == "every" then
      var interval := Until(NameEnd, SkipSpace(name.rest));
      var f := Conditional(compiles, SkipSpace(interval.rest));
      Single(Some(Every(ParseInterval(interval.text), f.filter)), f.rest, f.errors)
    else
      var f := Conditional(compiles, name.rest);
      var m := Modifiers(Plain(name.text, f.filter), SkipSpace(f.rest));
      Single(Some(m.spec), m.rest, f.errors + m.errors)
  }

  datatype Parsed = Parsed(specs: seq<Spec>, errors: seq<Error>)

  /** One trigger with the error for a token that starts none. */
  function Element(compiles: string -> bool, tokens: seq<string>): (s: Single)
    ensures |s.rest| <= |tokens|
  {
    var start := SkipSpace(tokens);
    var one := Trigger(compiles, start);
    if |one.rest| == |start|
    then Single(one.spec, SkipSpace(Tail(one.rest)), one.errors + [Unexpected(Head(one.rest))])
    else one.(rest := SkipSpace(one.rest))
  }

  function Listed(spec: Option<Spec>): seq<Spec>
  {
    if spec.Some? then [spec.value] else []
  }

  /** The whole text: triggers separated by commas. It halts, since every comma is consumed. */
  function Parse(compiles: string -> bool, tokens: seq<string>): Parsed
    decreases |tokens|
  {
    var one := Element(compiles, tokens);
    if At(one.rest, ",") then
      var more := Parse(compiles, one.rest[1..]);
      Parsed(Listed(one.spec) + more.specs, one.errors + more.errors)
    else Parsed(Listed(one.spec), one.errors)
  }

  lemma ParseOnce(compiles: string -> bool, tokens: seq<string>)
    ensures var one := Element(compiles, tokens);
            Parse(compiles, tokens) ==
              if At(one.rest, ",") then
                var more := Parse(compiles, one.rest[1..]);
                Parsed(Listed(one.spec) + more.specs, one.errors + more.errors)
              else Parsed(Listed(one.spec), one.errors)
  {
  }

  // ---------------------------------------------------------------------------
  // Intervals
  // ---------------------------------------------------------------------------

  function DigitsLength(s: string): (n: nat)
    ensures n <= |s|
    ensures forall i | 0 <= i < n :: Digit(s[i])
  {
    if s != "" && Digit(s[0]) then 1 + DigitsLength(s[1..]) else 0
  }

  function Number(digits: string): nat
    requires forall i | 0 <= i < |digits| :: Digit(digits[i])
  {
    if digits == "" then 0
    else Number(digits[..|digits| - 1]) * 10 + DigitValue(digits[|digits| - 1])
  }

  function DigitValue(c: char): nat
    requires Digit(c)
  {
    c as int - '0' as int
  }

  function Power(n: nat): (p: real)
    ensures p > 0.0
  {
    if n == 0 then 1.0 else 10.0 * Power(n - 1)
  }

  /** The factor of an exponent part, if the text starts with one. */
  function Exponent(s: string): real
  {
    if s == "" || (s[0] != 'e' && s[0] != 'E') then 1.0
    else
      var signed := |s| > 1 && (s[1] == '-' || s[1] == '+');
      var digits := if signed then s[2..] else s[1..];
      var n := DigitsLength(digits);
      if n == 0 then 1.0
      else if signed && s[1] == '-' then 1.0 / Power(Number(digits[..n]))
      else Power(Number(digits[..n]))
  }

  /** The digits behind a decimal point. */
  function Fraction(digits: string): real
    requires forall i | 0 <= i < |digits| :: Digit(digits[i])
  {
    Number(digits) as real / Power(|digits|)
  }

  function Combined(whole: nat, tail: real, factor: real): real
  {
    (whole as real + tail) * factor
  }

  /** An unsigned decimal at the start of the text; None stands for NaN. */
  function ParseUnsigned(s: string): Option<real>
  {
    var whole := DigitsLength(s);
    var point := whole < |s| && s[whole] == '.';
    var fraction := if point then DigitsLength(s[whole + 1..]) else 0;
    if whole + fraction == 0 then None
    else
      var end := if point then whole + 1 + fraction else whole;
      var tail := if point then Fraction(s[whole + 1..][..fraction]) else 0.0;
      Some(Combined(Number(s[..whole]), tail, Exponent(s[end..])))
  }

  /** parseFloat, in exact arithmetic. */
  function ParseFloat(s: string): Option<real>
  {
    var t := TrimStart(s);
    if t != "" && t[0] == '-' then Scaled(ParseUnsigned(t[1..]), -1.0)
    else if t != "" && t[0] == '+' then ParseUnsigned(t[1..])
    else ParseUnsigned(t)
  }

  function Scaled(x: Option<real>, factor: real): Option<real>
  {
    if x.Some? then Some(x.value * factor) else None
  }

  /** parseInterval: milliseconds. */
  function ParseInterval(s: string): Option<real>
  {
    if |s| >= 2 && s[|s| - 2..] == "ms" then ParseFloat(s[..|s| - 2])
    else if |s| >= 1 && s[|s| - 1] == 's' then Scaled(ParseFloat(s[..|s| - 1]), 1000.0)
    else if |s| >= 1 && s[|s| - 1] == 'm' then Scaled(ParseFloat(s[..|s| - 1]), 60000.0)
    else ParseFloat(s)
  }

  // ---------------------------------------------------------------------------
  // The same on a token list that is consumed in place
  // ---------------------------------------------------------------------------

  class TokenList {
    var tokens: seq<string>

    constructor (tokens: seq<string>)
      ensures this.tokens == tokens
    {
      this.tokens := tokens;
    }

    method Shift() returns (token: Option<string>)
      modifies this
      ensures token == Head(old(tokens)) && tokens == Tail(old(tokens))
    {
      if tokens == [] {
        return None;
      }
      token := Some(tokens[0]);
      tokens := tokens[1..];
    }

    method ConsumeUntil(test: Class) returns (result: string)
      modifies this
      ensures Taken(result, tokens) == Until(test, old(tokens))
    {
      result := "";
      while |tokens| > 0 && !Hits(test, tokens[0])
        invariant Until(test, old(tokens)) == Taken(result + Until(test, tokens).text, Until(test, tokens).rest)
      {
        Regroup(result, tokens[0], Until(test, tokens[1..]).text);
        result := result + tokens[0];
        tokens := tokens[1..];
      }
      assert result + "" == result;
    }

    method ConsumeCSSSelector() returns (result: string)
      modifies this
      ensures Taken(result, tokens) == Selector(old(tokens))
    {
      if |tokens| > 0 && Hits(SelectorStart, tokens[0]) {
        var _ := Shift();
        result := ConsumeUntil(SelectorEnd);
        result := Trim(result);
        var _ := Shift();
      } else {
        result := ConsumeUntil(WordEnd);
      }
    }

    method MaybeGenerateConditional(compiles: string -> bool) returns (filter: Option<string>, errors: seq<Error>)
      modifies this
      ensures Filtered(filter, tokens, errors) == Conditional(compiles, old(tokens))
    {
      if !At(tokens, "[") {
        return None, [];
      }
      var _ := Shift();
      var bracketCount := 1;
      var conditionalSource := SOURCE_START;
      var last := None;
      while |tokens| > 0
        invariant Condition(tokens, bracketCount, last, conditionalSource) == Condition(old(tokens)[1..], 1, None, SOURCE_START)
      {
        var token := tokens[0];
        if token == "]" && bracketCount == 1 {
          if last == None {
            conditionalSource := conditionalSource + "true";
          } else {
            assert conditionalSource + "" == conditionalSource;
          }
          var _ := Shift();
          conditionalSource := conditionalSource + SOURCE_END;
          if compiles(conditionalSource) {
            return Some(conditionalSource), [];
          } else {
            return None, [BadFilter(conditionalSource)];
          }
        }
        bracketCount := Deeper(bracketCount, token);
        conditionalSource := conditionalSource + Piece(token, last);
        last := Shift();
      }
      return None, [];
    }

    method ConsumeOrigin() returns (result: string)
      modifies this
      ensures Taken(result, tokens) == Origin(old(tokens))
    {
      if |tokens| > 0 && Hits(SelectorStart, tokens[0]) {
        result := ConsumeCSSSelector();
      } else {
        result := ConsumeUntil(WordEnd);
        if RelativeWord(result) {
          var _ := Shift();
          var selector := ConsumeCSSSelector();
          if |selector| > 0 {
            result := result + " " + selector;
          }
        }
      }
    }

    method ParseModifier(spec: Spec) returns (next: Spec, errors: seq<Error>)
      requires spec.On? && tokens != []
      modifies this
      ensures Modified(next, tokens, errors) == Modifier(spec, old(tokens))
    {
      var token := Shift();
      var k := KeywordOf(token.value);
      if Flag(k) {
        return Apply(spec, k, ""), [];
      } else if k != NoKeyword && At(tokens, ":") {
        var _ := Shift();
        var text;
        if k == FromWord {
          text := ConsumeOrigin();
        } else if k == Target || k == Root {
          text := ConsumeCSSSelector();
        } else {
          text := ConsumeUntil(WordEnd);
        }
        return Apply(spec, k, text), [];
      } else {
        var shifted := Shift();
        return spec, [Unexpected(shifted)];
      }
    }

    method ParseModifiers(initial: Spec) returns (spec: Spec, errors: seq<Error>)
      requires initial.On?
      modifies this
      ensures Modified(spec, tokens, errors) == Modifiers(initial, old(tokens))
    {
      spec, errors := initial, [];
      while |tokens| > 0 && tokens[0] != ","
        invariant spec.On?
        invariant Modifiers(initial, old(tokens))
               == Modifiers(spec, tokens).(errors := errors + Modifiers(spec, tokens).errors)
        decreases |tokens|
      {
        ghost var one := Modifier(spec, tokens);
        Regroup(errors, one.errors, Modifiers(one.spec, SkipSpace(one.rest)).errors);
        var more;
        spec, more := ParseModifier(spec);
        errors := errors + more;
        var _ := ConsumeUntil(NotWhitespace);
      }
      assert errors + [] == errors;
    }

    method ParseTrigger(compiles: string -> bool) returns (spec: Option<Spec>, errors: seq<Error>)
      modifies this
      ensures Single(spec, tokens, errors) == Trigger(compiles, old(tokens))
    {
      var trigger := ConsumeUntil(NameEnd);
      if trigger == "" {
        return None, [];
      }
      var filter;
      if trigger == "every" {
        var _ := ConsumeUntil(NotWhitespace);
        var interval := ConsumeUntil(NameEnd);
        var _ := ConsumeUntil(NotWhitespace);
        filter, errors := MaybeGenerateConditional(compiles);
        return Some(Every(ParseInterval(interval), filter)), errors;
      }
      filter, errors := MaybeGenerateConditional(compiles);
      var _ := ConsumeUntil(NotWhitespace);
      var on, more := ParseModifiers(Plain(trigger, filter));
      return Some(on), errors + more;
    }

    /** The body of the loop over triggers. */
    method ParseElement(compiles: string -> bool) returns (spec: Option<Spec>, errors: seq<Error>)
      modifies this
      ensures Single(spec, tokens, errors) == Element(compiles, old(tokens))
    {
      var _ := ConsumeUntil(NotWhitespace);
      var initialLength := |tokens|;
      spec, errors := ParseTrigger(compiles);
      if |tokens| == initialLength {
        var shifted := Shift();
        errors := errors + [Unexpected(shifted)];
      }
      var _ := ConsumeUntil(NotWhitespace);
    }

    method ParseAll(compiles: string -> bool) returns (specs: seq<Spec>, errors: seq<Error>)
      modifies this
      ensures Parsed(specs, errors) == Parse(compiles, old(tokens))
    {
      hide Parse, Element;
      specs, errors := [], [];
      var again := true;
      while again
        invariant Parse(compiles, old(tokens)) ==
          if again then Parsed(specs + Parse(compiles, tokens).specs, errors + Parse(compiles, tokens).errors)
          else Parsed(specs, errors)
        decreases again, |tokens|
      {
        ghost var one := Element(compiles, tokens);
        ParseOnce(compiles, tokens);
        var spec, more := ParseElement(compiles);
        again := At(tokens, ",");
        if again {
          ghost var later := Parse(compiles, one.rest[1..]);
          Regroup(specs, Listed(one.spec), later.specs);
          Regroup(errors, one.errors, later.errors);
          var _ := Shift();
        }
        specs, errors := specs + Listed(spec), errors + more;
      }
    }
  }

  // ---------------------------------------------------------------------------
  // The cache of parsed triggers
  // ---------------------------------------------------------------------------

  /** An element by its tag and its `type` attribute, if it has one. */
  datatype Markup = Markup(tag: string, inputType: Option<string>)

  function DefaultTrigger(elt: Markup): Spec
  {
    if elt.tag == "form" then Plain("submit", None)
    else if elt.tag == "input" && (elt.inputType == Some("button") || elt.inputType == Some("submit"))
    then Plain("click", None)
    else if elt.tag == "input" || elt.tag == "textarea" || elt.tag == "select" then Plain("change", None)
    else Plain("click", None)
  }

  /** Forms submit, fields change, and anything else, push buttons included, is clicked; nothing more is set. */
  lemma DefaultExactly(elt: Markup)
    ensures DefaultTrigger(elt).On?
    ensures var pushes := elt.inputType in {Some("button"), Some("submit")};
            && (DefaultTrigger(elt).trigger == "submit" <==> elt.tag == "form")
            && (DefaultTrigger(elt).trigger == "change" <==>
                  elt.tag in {"textarea", "select"} || (elt.tag == "input" && !pushes))
            && DefaultTrigger(elt).trigger in {"submit", "change", "click"}
    ensures DefaultTrigger(elt) ==
      On(DefaultTrigger(elt).trigger, None, false, false, false, None, None, None, None, None, None, None)
  {
  }

  /** What a fresh parse gives. */
  function FreshSpecs(compiles: string -> bool, text: string): seq<Spec>
  {
    Parse(compiles, Tokens(text)).specs
  }

  class TriggerSpecs {
    const compiles: string -> bool
    var cache: Option<map<string, seq<Spec>>>

    /** Every entry is what a fresh parse of its text would give. */
    ghost predicate Valid()
      reads this
    {
      cache.Some? ==> forall text <- cache.value :: cache.value[text] == FreshSpecs(compiles, text)
    }

    constructor (compiles: string -> bool, cached: bool)
      ensures Valid() && this.compiles == compiles && cache == if cached then Some(map[]) else None
    {
      this.compiles := compiles;
      cache := if cached then Some(map[]) else None;
    }

    method ParseAndCacheTrigger(explicitTrigger: string) returns (specs: seq<Spec>, errors: seq<Error>)
      requires Valid()
      modifies this
      ensures Valid() && Parsed(specs, errors) == Parse(compiles, Tokens(explicitTrigger))
      ensures cache == if old(cache).None? then None else Some(old(cache).value[explicitTrigger := specs])
    {
      hide Parse;
      var tokens := TokenizeString(explicitTrigger);
      var list := new TokenList(tokens);
      specs, errors := list.ParseAll(compiles);
      if cache.Some? {
        cache := Some(cache.value[explicitTrigger := specs]);
      }
    }

    /** Whatever the cache holds, the answer is that of a fresh parse, or the default. */
    method GetTriggerSpecs(explicitTrigger: Option<string>, elt: Markup) returns (specs: seq<Spec>)
      requires Valid()
      modifies this
      ensures Valid()
      ensures specs == if explicitTrigger.Some? && explicitTrigger.value != ""
                          && FreshSpecs(compiles, explicitTrigger.value) != []
                       then FreshSpecs(compiles, explicitTrigger.value) else [DefaultTrigger(elt)]
    {
      hide Parse;
      specs := [];
      if explicitTrigger.Some? && explicitTrigger.value != "" {
        if cache.Some? && explicitTrigger.value in cache.value {
          specs := cache.value[explicitTrigger.value];
        } else {
          var errors;
          specs, errors := ParseAndCacheTrigger(explicitTrigger.value);
        }
      }
      if |specs| == 0 {
        specs := [DefaultTrigger(elt)];
      }
    }
  }
}
