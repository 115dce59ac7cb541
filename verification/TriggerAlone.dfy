/**
 * The selector-less `from:next` and `from:previous` of a trigger: exactly when a text
 * that uses one means what it says.
 */
module TriggerAlone {
  import opened Prelude
  import opened TriggerTokens
  import opened TriggerParser
  import opened TriggerPrinter

  // ---------------------------------------------------------------------------
  // Texts with a selector-less origin, and what they mean to say
  // ---------------------------------------------------------------------------

  function FromText(word: string): string
  {
    WordOf(FromWord) + (":" + word)
  }

  /** Modifiers, then the selector-less origin, then more modifiers. */
  function AloneMods(before: seq<Mod>, word: string, mods: seq<Mod>): string
  {
    ModsText(before) + (" " + (FromText(word) + ModsText(mods)))
  }

  function AloneTrig(name: string, filter: Option<string>, before: seq<Mod>, word: string, mods: seq<Mod>): string
  {
    name + (FilterText(filter) + AloneMods(before, word, mods))
  }

  /** The trigger and then further triggers. */
  function AloneText(trig: string, ts: seq<Trig>): string
  {
    if ts == [] then trig else trig + ("," + (" " + ListText(ts)))
  }

  /** The specification up to the selector-less origin. */
  function Before(name: string, filter: Option<string>, before: seq<Mod>): (spec: Spec)
    requires forall m <- before :: ValidMod(m)
    ensures spec.On?
  {
    Effects(Plain(name, FilterMeaning(filter)), before)
  }

  function WithFrom(spec: Spec, text: string): (s: Spec)
    requires spec.On?
    ensures s.On?
  {
    spec.(from := Some(text))
  }

  function Intended(spec: Spec, word: string, mods: seq<Mod>, ts: seq<Trig>): seq<Spec>
    requires spec.On? && (forall m <- mods :: ValidMod(m)) && forall t <- ts :: ValidTrig(t)
  {
    [Effects(WithFrom(spec, word), mods)] + Meanings(ts)
  }

  // ---------------------------------------------------------------------------
  // What modifiers set
  // ---------------------------------------------------------------------------

  datatype Field = Switch(on: bool) | Time(ms: Option<real>) | Text(text: Option<string>)

  function Get(spec: Spec, k: Keyword): Field
    requires spec.On?
  {
    match k
    case Changed => Switch(spec.changed)
    case Once => Switch(spec.once)
    case Consume => Switch(spec.consume)
    case Delay => Time(spec.delay)
    case FromWord => Text(spec.from)
    case Target => Text(spec.target)
    case Throttle => Time(spec.throttle)
    case Queue => Text(spec.queue)
    case Root => Text(spec.root)
    case Threshold => Text(spec.threshold)
    case NoKeyword => Switch(false)
  }

  /** The value a modifier gives to its field. */
  function Given(m: Mod): Field
  {
    match m
    case FlagMod(_) => Switch(true)
    case IntervalMod(_, interval) => Time(Some(Value(interval)))
    case WordMod(_, text) => Text(Some(text))
    case SelectorMod(_, sel) => Text(Some(SelValue(sel)))
    case FromMod(place) => Text(Some(PlaceValue(place)))
  }

  predicate Sets(mods: seq<Mod>, k: Keyword)
  {
    mods != [] && (KeyOf(mods[0]) == k || Sets(mods[1..], k))
  }

  lemma EffectSets(spec: Spec, m: Mod, k: Keyword)
    requires spec.On? && ValidMod(m)
    ensures Get(Effect(spec, m), k) == if KeyOf(m) == k then Given(m) else Get(spec, k)
    ensures Effect(spec, m).trigger == spec.trigger && Effect(spec, m).filter == spec.filter
  {
    hide ValidSel, ValidPlace, Within;
  }

  /** A field that is set later forgets what it was; any other keeps it. */
  lemma {:induction false} EffectsSet(s: Spec, t: Spec, mods: seq<Mod>, k: Keyword)
    requires s.On? && t.On? && forall m <- mods :: ValidMod(m)
    ensures Get(Effects(s, mods), k) == Get(Effects(t, mods), k) <==> Sets(mods, k) || Get(s, k) == Get(t, k)
    ensures !Sets(mods, k) ==> Get(Effects(s, mods), k) == Get(s, k)
    ensures Effects(s, mods).trigger == s.trigger && Effects(s, mods).filter == s.filter
    ensures Effects(t, mods).trigger == t.trigger && Effects(t, mods).filter == t.filter
    decreases |mods|
  {
    if mods != [] {
      EffectSets(s, mods[0], k);
      EffectSets(t, mods[0], k);
      EffectsSet(Effect(s, mods[0]), Effect(t, mods[0]), mods[1..], k);
    }
  }

  /** Specifications of the same trigger are the same when all their fields are. */
  lemma SameFields(s: Spec, t: Spec)
    requires s.On? && t.On? && s.trigger == t.trigger && s.filter == t.filter
    requires forall k :: Get(s, k) == Get(t, k)
    ensures s == t
  {
    assert Get(s, Changed) == Get(t, Changed) && Get(s, Once) == Get(t, Once) && Get(s, Consume) == Get(t, Consume);
    assert Get(s, Delay) == Get(t, Delay) && Get(s, Throttle) == Get(t, Throttle);
    assert Get(s, FromWord) == Get(t, FromWord) && Get(s, Target) == Get(t, Target) && Get(s, Queue) == Get(t, Queue);
    assert Get(s, Root) == Get(t, Root) && Get(s, Threshold) == Get(t, Threshold);
  }

  /** Exactly when modifiers make two specifications of a trigger the same. */
  lemma EffectsSameExactly(s: Spec, t: Spec, mods: seq<Mod>)
    requires s.On? && t.On? && s.trigger == t.trigger && s.filter == t.filter
    requires forall m <- mods :: ValidMod(m)
    ensures Effects(s, mods) == Effects(t, mods) <==> forall k :: Sets(mods, k) || Get(s, k) == Get(t, k)
  {
    forall k
      ensures Get(Effects(s, mods), k) == Get(Effects(t, mods), k) <==> Sets(mods, k) || Get(s, k) == Get(t, k)
    {
      EffectsSet(s, t, mods, k);
    }
    EffectsSet(s, t, mods, Once);
    hide Effects, Sets, Get;
    if forall k :: Sets(mods, k) || Get(s, k) == Get(t, k) {
      SameFields(Effects(s, mods), Effects(t, mods));
    }
  }

  // ---------------------------------------------------------------------------
  // A modifier behind the selector-less form is taken for its selector
  // ---------------------------------------------------------------------------

  /** The modifier's text is one word, without space or comma. */
  predicate OneWord(m: Mod)
  {
    Within(WordEnd, ModText(m))
  }

  /** The selector-less form with the modifier for its selector. */
  function Swallowing(word: string, m: Mod): Mod
  {
    FromMod(Relative(word, Bare(ModText(m))))
  }

  lemma WordHasNoBrace(word: string)
    requires Word(word)
    ensures !Hits(SelectorStart, word)
  {
  }

  lemma ModFirst(m: Mod)
    requires ValidMod(m)
    ensures ModText(m) != "" && Closed(ModText(m)) && ModText(m)[..TokenEnd(ModText(m))] == WordOf(KeyOf(m))
  {
    ModTokens(m);
    hide ModText;
    var text := ModText(m);
    assert Tokens(text)[0] == text[..TokenEnd(text)];
  }

  lemma SwallowingValid(word: string, m: Mod)
    requires RelativeWord(word) && ValidMod(m) && OneWord(m)
    ensures ValidMod(Swallowing(word, m))
  {
    hide *;
    WordSymbols(KeyOf(m));
    WordHasNoBrace(WordOf(KeyOf(m)));
    ModFirst(m);
    OneWordIs(m);
    RelativeValid(word, ModText(m));
    SwallowingIs(word, m);
  }

  lemma OneWordIs(m: Mod)
    requires OneWord(m)
    ensures Within(WordEnd, ModText(m))
  {
  }

  lemma SwallowingIs(word: string, m: Mod)
    ensures Swallowing(word, m) == FromMod(Relative(word, Bare(ModText(m))))
  {
  }

  lemma RelativeValid(word: string, text: string)
    requires RelativeWord(word) && text != "" && Within(WordEnd, text)
    requires !Hits(SelectorStart, text[..TokenEnd(text)])
    ensures ValidMod(FromMod(Relative(word, Bare(text))))
  {
    hide Within, Hits, TokenEnd;
  }

  lemma WordSymbols(k: Keyword)
    ensures Word(WordOf(k))
  {
  }

  lemma Splice(a: string, w: string, m: string, r: string)
    ensures (a + (":" + w)) + (" " + (m + r)) == (a + (":" + (w + " " + m))) + r
  {
  }

  lemma {:induction false} ModsTextAppend(a: seq<Mod>, b: seq<Mod>)
    ensures ModsText(a + b) == ModsText(a) + ModsText(b)
  {
    if a == [] {
      assert a + b == b;
    } else {
      assert (a + b)[1..] == a[1..] + b;
      ModsTextAppend(a[1..], b);
      hide ModText;
      var first, more, rest := ModText(a[0]), ModsText(a[1..]), ModsText(b);
      Regroup(first, more, rest);
      Regroup(" ", first + more, rest);
    }
  }

  /** As texts they are the same. */
  lemma SameText(before: seq<Mod>, word: string, mods: seq<Mod>)
    requires mods != []
    ensures AloneMods(before, word, mods) == ModsText(before + ([Swallowing(word, mods[0])] + mods[1..]))
  {
    var m, rest := Swallowing(word, mods[0]), ModsText(mods[1..]);
    assert ModText(m) == WordOf(FromWord) + (":" + (word + " " + ModText(mods[0])));
    hide ModText, WordOf;
    Splice(WordOf(FromWord), word, ModText(mods[0]), rest);
    assert ([m] + mods[1..])[1..] == mods[1..];
    assert ModsText([m] + mods[1..]) == " " + (ModText(m) + rest);
    ModsTextAppend(before, [m] + mods[1..]);
  }

  lemma SameListText(trig: Trig, ts: seq<Trig>)
    ensures AloneText(TrigText(trig), ts) == ListText([trig] + ts)
  {
    hide TrigText;
    assert ([trig] + ts)[1..] == ts;
  }

  // ---------------------------------------------------------------------------
  // Reading up to the selector-less form
  // ---------------------------------------------------------------------------

  /** Modifiers with something else than a separator behind them. */
  lemma {:induction false} ModifiersThen(spec: Spec, mods: seq<Mod>, rest: seq<string>)
    requires spec.On? && forall m <- mods :: ValidMod(m)
    requires rest != [] && Hits(NotWhitespace, rest[0])
    ensures Modifiers(spec, SkipSpace(Tokens(ModsText(mods)) + ([" "] + rest))) == Modifiers(Effects(spec, mods), rest)
    decreases |mods|
  {
    hide *;
    ModsTokens(mods);
    EffectsCons(spec, mods);
    if mods == [] {
      assert [] + ([" "] + rest) == [" "] + rest;
      SkipOne(rest);
    } else {
      var m, text, tail := mods[0], ModsText(mods[1..]), [" "] + rest;
      var first, more := Tokens(ModText(m)), Tokens(text) + tail;
      SpaceEnds(mods[1..], rest);
      ModifierParses(spec, m, more);
      ModStarts(m);
      ModifiersThen(Effect(spec, m), mods[1..], rest);
      Regroup([" "], first + Tokens(text), tail);
      Regroup(first, Tokens(text), tail);
      ModifiersCons(spec, Effect(spec, m), first, more);
    }
  }

  lemma SpaceEnds(mods: seq<Mod>, rest: seq<string>)
    requires forall m <- mods :: ValidMod(m)
    ensures Ends(Tokens(ModsText(mods)) + ([" "] + rest))
  {
    ModsTokens(mods);
    hide Tokens, ModsText;
  }

  lemma AloneTokens(name: string, filter: Option<string>, before: seq<Mod>, word: string)
    requires Within(NameEnd, name) && name != "" && ValidFilter(filter) && RelativeWord(word)
    requires forall m <- before :: ValidMod(m)
    ensures Tokens(AloneTrig(name, filter, before, word, [])) ==
      Tokens(name) + (Tokens(FilterText(filter)) + (Tokens(ModsText(before)) + ([" "] + ["from", ":", word])))
    ensures Closed(AloneTrig(name, filter, before, word, []))
  {
    var mods := AloneMods(before, word, []);
    AloneModsTokens(before, word);
    if filter.Some? {
      FilterTokens(filter.value);
    }
    assert Closed(FilterText(filter));
    hide Tokens, Closed, AloneMods, FilterText;
    assert Seam(FilterText(filter), mods);
    TokensAppend(FilterText(filter), mods);
    ClosedAppend(FilterText(filter), mods);
    NameSeam(name, filter, mods);
    TokensAppend(name, FilterText(filter) + mods);
    ClosedAppend(name, FilterText(filter) + mods);
  }

  lemma NameSeam(name: string, filter: Option<string>, mods: string)
    requires mods != "" && !SymbolCont(mods[0])
    ensures Seam(name, FilterText(filter) + mods)
  {
    if filter.None? {
      assert "" + mods == mods;
    }
  }

  lemma AloneModsTokens(before: seq<Mod>, word: string)
    requires RelativeWord(word) && forall m <- before :: ValidMod(m)
    ensures var text := AloneMods(before, word, []);
            && Tokens(text) == Tokens(ModsText(before)) + ([" "] + ["from", ":", word])
            && Closed(text) && text != "" && !SymbolCont(text[0])
  {
    var rest := FromText(word) + "";
    assert rest == FromText(word);
    FromTokens(word);
    ModsTokens(before);
    hide Tokens, Closed, FromText, ModsText;
    SpaceFirst(rest);
    TokensAppend(ModsText(before), " " + rest);
    ClosedAppend(ModsText(before), " " + rest);
    assert ModsText([]) == "" by { NoModsText(); }
  }

  lemma NoModsText()
    ensures ModsText([]) == ""
  {
  }

  lemma FromTokens(word: string)
    requires RelativeWord(word)
    ensures Tokens(FromText(word)) == ["from", ":", word] && Closed(FromText(word))
  {
    RelativeIsWord(word);
    WordIsToken(word);
    hide Tokens, Closed, Word;
    WordColon(FromWord, word);
  }

  /** Nothing behind the form, or a comma, a space and further tokens. */
  function Behind(more: bool, list: seq<string>): seq<string>
  {
    if more then [",", " "] + list else []
  }

  /** The comma behind the form is dropped with it. */
  lemma OriginAlone(word: string, more: bool, list: seq<string>)
    requires RelativeWord(word)
    ensures Origin([word] + Behind(more, list)) == Taken(word, if more then [" "] + list else [])
  {
    var tail := Behind(more, list);
    assert !Hits(SelectorStart, word) && !Hits(WordEnd, word);
    assert Hits(WordEnd, ",") && Hits(WordEnd, " ") && !Hits(SelectorStart, " ") by {
      EndsHit([","]);
      EndsHit([" "]);
    }
    ConcatSingle(word);
    hide Hits, RelativeWord;
    UntilAll(WordEnd, [word], tail);
    if more {
      assert tail[1..] == [" "] + list;
      assert Selector([" "] + list) == Taken("", [" "] + list);
    } else {
      assert [word] + [] == [word];
    }
  }

  lemma AloneModifier(spec: Spec, word: string, more: bool, list: seq<string>)
    requires spec.On? && RelativeWord(word)
    ensures Modifier(spec, ["from", ":", word] + Behind(more, list))
         == Modified(WithFrom(spec, word), if more then [" "] + list else [], [])
  {
    OriginAlone(word, more, list);
    assert KeywordOf("from") == FromWord by { KeywordOfWord(FromWord); }
    var all := ["from", ":", word] + Behind(more, list);
    hide Origin, RelativeWord, KeywordOf;
    assert all[1..] == [":", word] + Behind(more, list);
    assert all[1..][1..] == [word] + Behind(more, list);
  }

  /** With a comma behind the form, the next trigger is read as modifiers of this one. */
  lemma AloneModifiers(spec: Spec, word: string, more: bool, list: seq<string>)
    requires spec.On? && RelativeWord(word)
    requires more ==> list != [] && Hits(NotWhitespace, list[0])
    ensures Modifiers(spec, ["from", ":", word] + Behind(more, list))
         == Modifiers(WithFrom(spec, word), if more then list else [])
  {
    var next, rest := WithFrom(spec, word), if more then [" "] + list else [];
    AloneModifier(spec, word, more, list);
    ModifiersMore(spec, next, ["from", ":", word] + Behind(more, list), rest);
    hide Modifiers, Modifier, Hits;
    if more {
      SkipOne(list);
    } else {
      SkipNothing([]);
    }
  }

  lemma FromStarts()
    ensures Hits(NotWhitespace, "from")
  {
    assert InClass(NotWhitespace, "from"[0]);
  }

  /** The whole trigger, from its name on. */
  lemma AloneTrigger(compiles: string -> bool, name: string, filter: Option<string>, before: seq<Mod>, word: string,
                     more: bool, list: seq<string>)
    requires name != "every" && name != "" && Within(NameEnd, name)
    requires ValidFilter(filter) && Compiles(compiles, filter) && RelativeWord(word)
    requires forall m <- before :: ValidMod(m)
    requires more ==> list != [] && Hits(NotWhitespace, list[0])
    ensures var spec := WithFrom(Before(name, filter, before), word);
            var m := Modifiers(spec, if more then list else []);
            Trigger(compiles, Tokens(AloneTrig(name, filter, before, word, [])) + Behind(more, list))
              == Single(Some(m.spec), m.rest, m.errors)
  {
    var plain := Plain(name, FilterMeaning(filter));
    var f, b, tail := Tokens(FilterText(filter)), Tokens(ModsText(before)), Behind(more, list);
    var rest := ["from", ":", word] + tail;
    var mods := b + ([" "] + rest);
    AloneTokens(name, filter, before, word);
    AloneBehindName(filter, before, rest);
    UntilText(NameEnd, name, f + mods);
    FilterParses(compiles, filter, mods);
    FromStarts();
    ModifiersThen(plain, before, rest);
    AloneModifiers(Effects(plain, before), word, more, list);
    hide *;
    AloneRegroup(Tokens(name), f, b, ["from", ":", word], tail);
    TriggerOf(compiles, Tokens(name) + (f + mods), name, f + mods, FilterMeaning(filter), mods,
              Modifiers(WithFrom(Effects(plain, before), word), if more then list else []));
    assert Before(name, filter, before) == Effects(plain, before) by { BeforeIs(name, filter, before); }
  }

  lemma BeforeIs(name: string, filter: Option<string>, before: seq<Mod>)
    requires forall m <- before :: ValidMod(m)
    ensures Before(name, filter, before) == Effects(Plain(name, FilterMeaning(filter)), before)
  {
  }

  lemma AloneRegroup(a: seq<string>, b: seq<string>, c: seq<string>, d: seq<string>, tail: seq<string>)
    ensures a + (b + (c + ([" "] + d))) + tail == a + (b + (c + ([" "] + (d + tail))))
  {
  }

  /** How an event is read, put together. */
  lemma TriggerOf(compiles: string -> bool, tokens: seq<string>, name: string, behind: seq<string>,
                  filter: Option<string>, mods: seq<string>, m: Modified)
    requires name != "" && name != "every" && m.spec.On?
    requires Until(NameEnd, tokens) == Taken(name, behind)
    requires Conditional(compiles, behind) == Filtered(filter, mods, [])
    requires Modifiers(Plain(name, filter), SkipSpace(mods)) == m
    ensures Trigger(compiles, tokens) == Single(Some(m.spec), m.rest, m.errors)
  {
    hide Until, Conditional, Modifiers, SkipSpace;
    assert [] + m.errors == m.errors;
  }

  lemma AloneBehindName(filter: Option<string>, before: seq<Mod>, rest: seq<string>)
    requires ValidFilter(filter) && forall m <- before :: ValidMod(m)
    ensures var mods := Tokens(ModsText(before)) + ([" "] + rest);
            var behind := Tokens(FilterText(filter)) + mods;
            && !At(mods, "[") && behind != [] && Hits(NameEnd, behind[0])
  {
    SpaceEnds(before, rest);
    EndsHit(Tokens(ModsText(before)) + ([" "] + rest));
    if filter.Some? {
      FilterTokens(filter.value);
      assert InClass(NameEnd, "["[0]);
    }
    hide Tokens, ModsText, Balanced, Closed;
  }

  // ---------------------------------------------------------------------------
  // A swallowed comma loses a trigger
  // ---------------------------------------------------------------------------

  function Commas(tokens: seq<string>): nat
  {
    if tokens == [] then 0 else (if tokens[0] == "," then 1 else 0) + Commas(tokens[1..])
  }

  lemma {:induction false} CommasAppend(a: seq<string>, b: seq<string>)
    ensures Commas(a + b) == Commas(a) + Commas(b)
  {
    if a == [] {
      assert a + b == b;
    } else {
      assert (a + b)[1..] == a[1..] + b;
      CommasAppend(a[1..], b);
    }
  }

  lemma {:induction false} UntilCommas(test: Class, tokens: seq<string>)
    ensures Commas(Until(test, tokens).rest) <= Commas(tokens)
  {
    if tokens != [] && !Hits(test, tokens[0]) {
      UntilCommas(test, tokens[1..]);
    }
  }

  lemma SelectorCommas(tokens: seq<string>)
    ensures Commas(Selector(tokens).rest) <= Commas(tokens)
  {
    UntilCommas(WordEnd, tokens);
    if tokens != [] {
      UntilCommas(SelectorEnd, tokens[1..]);
    }
  }

  lemma OriginCommas(tokens: seq<string>)
    ensures Commas(Origin(tokens).rest) <= Commas(tokens)
  {
    SelectorCommas(tokens);
    UntilCommas(WordEnd, tokens);
    SelectorCommas(Tail(Until(WordEnd, tokens).rest));
    hide Selector, Until, Hits;
  }

  lemma ModifierCommas(spec: Spec, tokens: seq<string>)
    requires spec.On? && tokens != []
    ensures Commas(Modifier(spec, tokens).rest) <= Commas(tokens)
  {
    var rest := tokens[1..];
    if rest != [] {
      OriginCommas(rest[1..]);
      SelectorCommas(rest[1..]);
      UntilCommas(WordEnd, rest[1..]);
    }
    hide Origin, Selector, Until, Apply, KeywordOf;
  }

  lemma {:induction false} ModifiersCommas(spec: Spec, tokens: seq<string>)
    requires spec.On?
    ensures Commas(Modifiers(spec, tokens).rest) <= Commas(tokens)
    decreases |tokens|
  {
    if tokens != [] && tokens[0] != "," {
      var one := Modifier(spec, tokens);
      ModifierCommas(spec, tokens);
      UntilCommas(NotWhitespace, one.rest);
      ModifiersCommas(one.spec, SkipSpace(one.rest));
      hide Modifier, Until, Commas;
    }
  }

  lemma {:induction false} ConditionCommas(tokens: seq<string>, depth: int, last: Option<string>, source: string)
    ensures Commas(Condition(tokens, depth, last, source).1) <= Commas(tokens)
  {
    if tokens != [] && !(tokens[0] == "]" && depth == 1) {
      ConditionCommas(tokens[1..], Deeper(depth, tokens[0]), Some(tokens[0]), source + Piece(tokens[0], last));
    }
  }

  lemma ConditionalCommas(compiles: string -> bool, tokens: seq<string>)
    ensures Commas(Conditional(compiles, tokens).rest) <= Commas(tokens)
  {
    if At(tokens, "[") {
      ConditionCommas(tokens[1..], 1, None, SOURCE_START);
      hide Condition;
    }
  }

  lemma TriggerCommas(compiles: string -> bool, tokens: seq<string>)
    ensures Commas(Trigger(compiles, tokens).rest) <= Commas(tokens)
  {
    var name := Until(NameEnd, tokens);
    UntilCommas(NameEnd, tokens);
    UntilCommas(NotWhitespace, name.rest);
    var interval := Until(NameEnd, SkipSpace(name.rest));
    UntilCommas(NameEnd, SkipSpace(name.rest));
    UntilCommas(NotWhitespace, interval.rest);
    ConditionalCommas(compiles, SkipSpace(interval.rest));
    var f := Conditional(compiles, name.rest);
    ConditionalCommas(compiles, name.rest);
    UntilCommas(NotWhitespace, f.rest);
    ModifiersCommas(Plain(name.text, f.filter), SkipSpace(f.rest));
    hide Until, Conditional, Modifiers, Commas, ParseInterval;
  }

  lemma ElementCommas(compiles: string -> bool, tokens: seq<string>)
    ensures Commas(Element(compiles, tokens).rest) <= Commas(tokens)
  {
    var start := SkipSpace(tokens);
    UntilCommas(NotWhitespace, tokens);
    TriggerCommas(compiles, start);
    var one := Trigger(compiles, start);
    UntilCommas(NotWhitespace, one.rest);
    UntilCommas(NotWhitespace, Tail(one.rest));
    hide Trigger, Until;
  }

  /** No more specifications than the commas between them allow. */
  lemma {:induction false} ParseCount(compiles: string -> bool, tokens: seq<string>)
    ensures |Parse(compiles, tokens).specs| <= 1 + Commas(tokens)
    decreases |tokens|
  {
    ElementCommas(compiles, tokens);
    var one := Element(compiles, tokens);
    if At(one.rest, ",") {
      ParseCount(compiles, one.rest[1..]);
    }
    hide Element;
  }

  // ---------------------------------------------------------------------------
  // Exactly when the selector-less form means what it says
  // ---------------------------------------------------------------------------

  predicate ValidAlone(compiles: string -> bool, name: string, filter: Option<string>, before: seq<Mod>, word: string)
  {
    && name != "every" && name != "" && Within(NameEnd, name)
    && ValidFilter(filter) && Compiles(compiles, filter) && RelativeWord(word)
    && forall m <- before :: ValidMod(m)
  }

  lemma AloneElement(compiles: string -> bool, name: string, filter: Option<string>, before: seq<Mod>, word: string,
                     more: bool, list: seq<string>)
    requires ValidAlone(compiles, name, filter, before, word)
    requires more ==> list != [] && Hits(NotWhitespace, list[0])
    ensures var m := Modifiers(WithFrom(Before(name, filter, before), word), if more then list else []);
            Element(compiles, Tokens(AloneTrig(name, filter, before, word, [])) + Behind(more, list))
              == Single(Some(m.spec), SkipSpace(m.rest), m.errors)
  {
    var start := Tokens(AloneTrig(name, filter, before, word, [])) + Behind(more, list);
    var m := Modifiers(WithFrom(Before(name, filter, before), word), if more then list else []);
    AloneTrigger(compiles, name, filter, before, word, more, list);
    AloneStarts(name, filter, before, word, more, list);
    hide *;
    ElementOf(compiles, start, m.spec, m.rest, m.errors);
  }

  lemma AloneStarts(name: string, filter: Option<string>, before: seq<Mod>, word: string, more: bool, list: seq<string>)
    requires name != "" && Within(NameEnd, name) && ValidFilter(filter) && RelativeWord(word)
    requires forall m <- before :: ValidMod(m)
    ensures var start := Tokens(AloneTrig(name, filter, before, word, [])) + Behind(more, list);
            start != [] && Hits(NotWhitespace, start[0]) && |start| > (if more then |list| else 0)
  {
    AloneTokens(name, filter, before, word);
    NameStarts(name);
    hide Tokens, AloneTrig, Hits, FilterText, ModsText, Closed, Within;
  }

  lemma NameStarts(name: string)
    requires name != "" && Within(NameEnd, name)
    ensures Tokens(name) != [] && Hits(NotWhitespace, Tokens(name)[0])
  {
    assert InClass(NotWhitespace, Tokens(name)[0][0]);
  }

  lemma ElementOf(compiles: string -> bool, start: seq<string>, spec: Spec, rest: seq<string>, errors: seq<Error>)
    requires start != [] && Hits(NotWhitespace, start[0]) && |rest| < |start|
    requires Trigger(compiles, start) == Single(Some(spec), rest, errors)
    ensures Element(compiles, start) == Single(Some(spec), SkipSpace(rest), errors)
  {
    SkipNothing(start);
    hide Trigger, SkipSpace, Hits;
  }

  /** At the very end of the text the form means what it says. */
  lemma AloneAtEnd(compiles: string -> bool, name: string, filter: Option<string>, before: seq<Mod>, word: string)
    requires ValidAlone(compiles, name, filter, before, word)
    ensures Parse(compiles, Tokens(AloneTrig(name, filter, before, word, [])))
         == Parsed([WithFrom(Before(name, filter, before), word)], [])
  {
    var tokens := Tokens(AloneTrig(name, filter, before, word, []));
    AloneElement(compiles, name, filter, before, word, false, []);
    hide Tokens, AloneTrig, Element, Before, WithFrom;
    assert tokens + [] == tokens;
    SkipNothing([]);
    ParseStep(compiles, tokens, WithFrom(Before(name, filter, before), word), []);
  }

  /** Behind a comma at least one trigger too few is read. */
  lemma AloneCount(compiles: string -> bool, name: string, filter: Option<string>, before: seq<Mod>, word: string,
                   list: seq<string>)
    requires ValidAlone(compiles, name, filter, before, word) && list != [] && Hits(NotWhitespace, list[0])
    ensures |Parse(compiles, Tokens(AloneTrig(name, filter, before, word, [])) + Behind(true, list)).specs| <= 1 + Commas(list)
  {
    var spec := WithFrom(Before(name, filter, before), word);
    var m := Modifiers(spec, list);
    var tokens := Tokens(AloneTrig(name, filter, before, word, [])) + Behind(true, list);
    AloneElement(compiles, name, filter, before, word, true, list);
    ModifiersCommas(spec, list);
    UntilCommas(NotWhitespace, m.rest);
    ParseOnce(compiles, tokens);
    var rest := SkipSpace(m.rest);
    hide Tokens, AloneTrig, Element, Before, WithFrom, Modifiers, Until, Parse, Hits;
    if At(rest, ",") {
      ParseCount(compiles, rest[1..]);
    }
  }

  /** No comma stands alone inside a trigger: in a filter or a wrapped selector. */
  predicate Commaless(ts: seq<Trig>)
  {
    forall t <- ts :: Commas(Tokens(TrigText(t))) == 0
  }

  lemma {:induction false} ListCommas(ts: seq<Trig>)
    requires ts != [] && Commaless(ts) && forall t <- ts :: ValidTrig(t)
    ensures Commas(Tokens(ListText(ts))) == |ts| - 1
    decreases |ts|
  {
    if |ts| > 1 {
      ListTokens(ts);
      ListCommas(ts[1..]);
      var first, rest := Tokens(TrigText(ts[0])), Tokens(ListText(ts[1..]));
      assert ts[0] in ts;
      hide Tokens, TrigText, ListText;
      CommasAppend(first, [","] + ([" "] + rest));
      CommasAppend([","], [" "] + rest);
      CommasAppend([" "], rest);
      assert Commas([","]) == 1 && Commas([" "]) == 0 by { OneComma(); }
    }
  }

  lemma OneComma()
    ensures Commas([","]) == 1 && Commas([" "]) == 0
  {
    assert [","][1..] == [] && [" "][1..] == [];
  }

  lemma {:induction false} MeaningsCount(ts: seq<Trig>)
    requires forall t <- ts :: ValidTrig(t)
    ensures |Meanings(ts)| == |ts|
  {
    if ts != [] {
      MeaningsCount(ts[1..]);
    }
  }

  lemma AloneTextTokens(trig: string, ts: seq<Trig>)
    requires Closed(trig) && ts != []
    ensures Tokens(AloneText(trig, ts)) == Tokens(trig) + Behind(true, Tokens(ListText(ts)))
  {
    CommaSpace(ListText(ts));
    assert AloneText(trig, ts) == trig + ("," + (" " + ListText(ts))) && Seam(trig, "," + (" " + ListText(ts)));
    hide *;
    TokensAppend(trig, "," + (" " + ListText(ts)));
  }

  lemma CommaSpace(list: string)
    ensures Tokens("," + (" " + list)) == Behind(true, Tokens(list))
  {
    hide Tokens;
    SpaceFirst(list);
    CharFirst(',', " " + list);
    assert [","] + ([" "] + Tokens(list)) == [",", " "] + Tokens(list);
  }

  lemma ListStarts(ts: seq<Trig>)
    requires ts != [] && forall t <- ts :: ValidTrig(t)
    ensures Tokens(ListText(ts)) != [] && Hits(NotWhitespace, Tokens(ListText(ts))[0])
  {
    TrigStarts(ts[0]);
    if |ts| > 1 {
      ListTokens(ts);
    }
    hide Tokens, TrigText, Hits;
  }

  lemma TrigStarts(t: Trig)
    requires ValidTrig(t)
    ensures Tokens(TrigText(t)) != [] && Hits(NotWhitespace, Tokens(TrigText(t))[0])
  {
    match t {
      case Timer(interval, filter) =>
        TimerTokens(interval, filter);
        assert InClass(NotWhitespace, "every"[0]);
      case Event(name, _, _) =>
        EventTokens(t);
        assert InClass(NotWhitespace, Tokens(name)[0][0]);
    }
  }

  /** Followed by other triggers, the form loses one of them. */
  lemma AloneLosesTrigger(compiles: string -> bool, name: string, filter: Option<string>, before: seq<Mod>, word: string,
                          ts: seq<Trig>)
    requires ValidAlone(compiles, name, filter, before, word)
    requires ts != [] && Commaless(ts) && forall t <- ts :: ValidTrig(t)
    ensures |Parse(compiles, Tokens(AloneText(AloneTrig(name, filter, before, word, []), ts))).specs| <= |ts|
  {
    AloneTokens(name, filter, before, word);
    ListStarts(ts);
    ListCommas(ts);
    hide *;
    AloneTextTokens(AloneTrig(name, filter, before, word, []), ts);
    AloneCount(compiles, name, filter, before, word, Tokens(ListText(ts)));
  }

  lemma AppendValid(before: seq<Mod>, m: Mod, rest: seq<Mod>)
    requires (forall x <- before :: ValidMod(x)) && ValidMod(m) && forall x <- rest :: ValidMod(x)
    ensures forall x <- before + ([m] + rest) :: ValidMod(x)
  {
  }

  /** Followed by a modifier, the form takes it for its selector, and reads the rest as printed. */
  lemma AloneSwallows(compiles: string -> bool, name: string, filter: Option<string>, before: seq<Mod>, word: string,
                      mods: seq<Mod>, ts: seq<Trig>)
    requires ValidAlone(compiles, name, filter, before, word) && Printable(compiles, ts)
    requires mods != [] && OneWord(mods[0]) && forall m <- mods :: ValidMod(m)
    ensures forall m <- mods[1..] :: ValidMod(m)
    ensures Parse(compiles, Tokens(AloneText(AloneTrig(name, filter, before, word, mods), ts)))
         == Parsed([Effects(WithFrom(Before(name, filter, before), word + " " + ModText(mods[0])), mods[1..])] + Meanings(ts), [])
  {
    var m, rest := Swallowing(word, mods[0]), mods[1..];
    var all := before + ([m] + rest);
    var trig := Event(name, filter, all);
    assert mods[0] in mods && forall x <- rest :: x in mods;
    SwallowingValid(word, mods[0]);
    AppendValid(before, m, rest);
    assert ValidTrig(trig) && trig.filter == filter;
    SwallowedPrintable(compiles, trig, ts);
    AloneIsEvent(name, filter, before, word, mods);
    hide *;
    SameListText(trig, ts);
    PrintedParsesBack(compiles, [trig] + ts);
    MeaningsFirst(trig, ts);
    SwallowedMeaning(name, filter, before, word, mods);
  }

  lemma SwallowedPrintable(compiles: string -> bool, trig: Trig, ts: seq<Trig>)
    requires ValidTrig(trig) && Compiles(compiles, trig.filter) && Printable(compiles, ts)
    ensures Printable(compiles, [trig] + ts)
  {
    hide ValidTrig, Compiles;
  }

  lemma AloneIsEvent(name: string, filter: Option<string>, before: seq<Mod>, word: string, mods: seq<Mod>)
    requires mods != []
    ensures AloneTrig(name, filter, before, word, mods)
         == TrigText(Event(name, filter, before + ([Swallowing(word, mods[0])] + mods[1..])))
  {
    hide AloneMods, ModsText, FilterText;
    SameText(before, word, mods);
  }

  lemma MeaningsFirst(trig: Trig, ts: seq<Trig>)
    requires ValidTrig(trig) && forall t <- ts :: ValidTrig(t)
    ensures (forall t <- [trig] + ts :: ValidTrig(t)) && Meanings([trig] + ts) == [Meaning(trig)] + Meanings(ts)
  {
    hide ValidTrig, Meaning;
    assert ([trig] + ts)[1..] == ts;
  }

  lemma SwallowedMeaning(name: string, filter: Option<string>, before: seq<Mod>, word: string, mods: seq<Mod>)
    requires mods != [] && forall m <- mods :: ValidMod(m)
    requires forall m <- before :: ValidMod(m)
    requires ValidTrig(Event(name, filter, before + ([Swallowing(word, mods[0])] + mods[1..])))
    ensures forall m <- mods[1..] :: ValidMod(m)
    ensures Meaning(Event(name, filter, before + ([Swallowing(word, mods[0])] + mods[1..])))
         == Effects(WithFrom(Before(name, filter, before), word + " " + ModText(mods[0])), mods[1..])
  {
    var m, rest := Swallowing(word, mods[0]), mods[1..];
    var plain := Plain(name, FilterMeaning(filter));
    assert forall x <- rest :: x in mods;
    assert m in before + ([m] + rest);
    assert ValidMod(m) && forall x <- [m] + rest :: ValidMod(x);
    EffectsAppend(plain, before, [m] + rest);
    EffectsCons(Effects(plain, before), [m] + rest);
    assert ([m] + rest)[0] == m && ([m] + rest)[1..] == rest;
    assert Effect(Effects(plain, before), m) == WithFrom(Effects(plain, before), word + " " + ModText(mods[0]));
    hide Effects, Effect, ValidMod, ValidFilter, Within, ModText;
  }

  lemma {:induction false} TrimStartShort(s: string)
    ensures |TrimStart(s)| <= |s|
  {
    if s != "" && Whitespace(s[0]) {
      TrimStartShort(s[1..]);
    }
  }

  lemma {:induction false} TrimEndShort(s: string)
    ensures |TrimEnd(s)| <= |s|
  {
    if s != "" && Whitespace(s[|s| - 1]) {
      TrimEndShort(s[..|s| - 1]);
    }
  }

  lemma PlaceShort(place: Place)
    ensures |PlaceValue(place)| <= |PlaceText(place)|
  {
    var sel := place.sel;
    TrimStartShort(sel.text);
    TrimEndShort(TrimStart(sel.text));
    hide TrimStart, TrimEnd;
    assert |SelValue(sel)| <= |SelText(sel)|;
  }

  /** What the form reads is never what it should: it is longer. */
  lemma OriginsDiffer(word: string, m: Mod)
    requires ValidMod(m)
    ensures word + " " + ModText(m) != word
    ensures m.FromMod? ==> word + " " + ModText(m) != PlaceValue(m.place)
  {
    if m.FromMod? {
      PlaceShort(m.place);
      assert |ModText(m)| > |PlaceText(m.place)|;
    }
    hide ModText, PlaceText, PlaceValue;
  }

  /** What the lost modifier would have done is done again, or was done before. */
  predicate Hidden(spec: Spec, m: Mod, rest: seq<Mod>)
    requires spec.On?
  {
    && Sets(rest, FromWord)
    && (KeyOf(m) == FromWord || Sets(rest, KeyOf(m)) || Get(spec, KeyOf(m)) == Given(m))
  }

  lemma LostFields(spec: Spec, word: string, m: Mod, k: Keyword)
    requires spec.On? && ValidMod(m)
    ensures var s, t := WithFrom(spec, word + " " + ModText(m)), Effect(WithFrom(spec, word), m);
            && (Get(s, k) == Get(t, k) <==> k != FromWord && (k != KeyOf(m) || Get(spec, k) == Given(m)))
            && t.trigger == s.trigger && t.filter == s.filter
  {
    OriginsDiffer(word, m);
    EffectSets(WithFrom(spec, word), m, k);
    hide Effect, ModText, ValidMod, Value, SelValue, PlaceValue;
  }

  lemma LostExactly(spec: Spec, word: string, m: Mod, rest: seq<Mod>)
    requires spec.On? && ValidMod(m) && forall x <- rest :: ValidMod(x)
    ensures Effects(WithFrom(spec, word + " " + ModText(m)), rest) == Effects(Effect(WithFrom(spec, word), m), rest)
       <==> Hidden(spec, m, rest)
  {
    hide Effect, Effects, Get, Sets, ModText, WithFrom, Given, ValidMod;
    var s, t := WithFrom(spec, word + " " + ModText(m)), Effect(WithFrom(spec, word), m);
    forall k
      ensures Get(s, k) == Get(t, k) <==> k != FromWord && (k != KeyOf(m) || Get(spec, k) == Given(m))
    {
      LostFields(spec, word, m, k);
    }
    LostFields(spec, word, m, Once);
    EffectsSameExactly(s, t, rest);
  }

  /**
   * Exactly when a trigger with a selector-less `from:next` or `from:previous`, modifiers
   * before and behind it and further triggers, is read as it is meant and without an
   * error: at the very end of the text; otherwise only if all trace of the loss is
   * covered up, the origin and what the next modifier sets being set again behind it.
   */
  lemma SelectorlessExactly(compiles: string -> bool, name: string, filter: Option<string>, before: seq<Mod>, word: string,
                            mods: seq<Mod>, ts: seq<Trig>)
    requires ValidAlone(compiles, name, filter, before, word) && Printable(compiles, ts)
    requires forall m <- mods :: ValidMod(m)
    requires if mods == [] then Commaless(ts) else OneWord(mods[0])
    ensures var spec := Before(name, filter, before);
            Parse(compiles, Tokens(AloneText(AloneTrig(name, filter, before, word, mods), ts)))
              == Parsed(Intended(spec, word, mods, ts), [])
            <==> if mods == [] then ts == [] else Hidden(spec, mods[0], mods[1..])
  {
    var spec := Before(name, filter, before);
    if mods != [] {
      AloneSwallows(compiles, name, filter, before, word, mods, ts);
      assert ValidMod(mods[0]) && forall m <- mods[1..] :: ValidMod(m);
      LostExactly(spec, word, mods[0], mods[1..]);
      EffectsCons(WithFrom(spec, word), mods);
      hide Parse, Tokens, AloneText, AloneTrig, Hidden, Effects, Effect, WithFrom, ValidMod, Before, OneWord;
      var other := Effects(WithFrom(spec, word + " " + ModText(mods[0])), mods[1..]);
      assert Intended(spec, word, mods, ts)[0] == Effects(WithFrom(spec, word), mods);
      assert ([other] + Meanings(ts))[0] == other;
    } else if ts == [] {
      AloneAtEnd(compiles, name, filter, before, word);
      assert Intended(spec, word, [], []) == [WithFrom(spec, word)];
    } else {
      AloneLosesTrigger(compiles, name, filter, before, word, ts);
      MeaningsCount(ts);
      hide Parse, Tokens, AloneText, AloneTrig, Effects, WithFrom, ValidMod, Before;
    }
  }

  /** So a form whose origin is not set again means what it says only at the very end. */
  lemma SelectorlessOnlyAtEnd(compiles: string -> bool, name: string, filter: Option<string>, before: seq<Mod>, word: string,
                              mods: seq<Mod>, ts: seq<Trig>)
    requires ValidAlone(compiles, name, filter, before, word) && Printable(compiles, ts)
    requires (forall m <- mods :: ValidMod(m)) && (mods != [] ==> !Sets(mods[1..], FromWord))
    requires if mods == [] then Commaless(ts) else OneWord(mods[0])
    ensures Parse(compiles, Tokens(AloneText(AloneTrig(name, filter, before, word, mods), ts)))
              == Parsed(Intended(Before(name, filter, before), word, mods, ts), [])
            <==> mods == [] && ts == []
  {
    SelectorlessExactly(compiles, name, filter, before, word, mods, ts);
    hide Parse, Tokens, AloneText, AloneTrig, Intended, Sets, Before, OneWord, Commaless;
  }

  // ---------------------------------------------------------------------------
  // Two such texts
  // ---------------------------------------------------------------------------

  const ONCE := [FlagMod(Once)]

  lemma ClickValid(compiles: string -> bool)
    ensures ValidAlone(compiles, "click", None, [], "next")
  {
    UnquotedCloses("click");
  }

  lemma ClickFromNext()
    ensures AloneTrig("click", None, [], "next", []) == "click from:next"
  {
    hide FromText;
    assert FromText("next") == "from:next" by { FromNext(); }
    assert "from:next" + "" == "from:next" && "" + " from:next" == " from:next";
    assert " " + "from:next" == " from:next";
    ClickThen(" from:next");
    assert "click" + " from:next" == "click from:next";
  }

  lemma ClickThen(text: string)
    ensures "click" + (FilterText(None) + text) == "click" + text
  {
    assert "" + text == text;
  }

  lemma FromNext()
    ensures FromText("next") == "from:next"
  {
    assert ":" + "next" == ":next";
    assert "from" + ":next" == "from:next";
  }

  lemma ModsFromNextOnce()
    ensures AloneMods([], "next", ONCE) == " from:next once"
  {
    hide FromText, ModsText;
    assert FromText("next") == "from:next" by { FromNext(); }
    assert ModsText(ONCE) == " once" by { OnceText(); }
    assert ModsText([]) == "" by { NoModsText(); }
    FromNextOnce();
    assert "" + " from:next once" == " from:next once";
  }

  lemma ClickFromNextOnce()
    ensures AloneTrig("click", None, [], "next", ONCE) == "click from:next once"
  {
    hide AloneMods;
    ModsFromNextOnce();
    ClickThen(" from:next once");
    assert "click" + " from:next once" == "click from:next once";
  }

  lemma FromNextOnce()
    ensures " " + ("from:next" + " once") == " from:next once"
  {
    assert "from:next" + " once" == "from:next once";
  }

  lemma OnceText()
    ensures ModsText(ONCE) == " once"
  {
    assert ONCE[1..] == [];
    assert "once" + "" == "once" && " " + "once" == " once";
  }

  lemma OnceIsWord(compiles: string -> bool)
    ensures ONCE != [] && OneWord(ONCE[0]) && forall m <- ONCE :: ValidMod(m)
    ensures Printable(compiles, []) && ONCE[1..] == [] && ModText(ONCE[0]) == "once"
  {
    UnquotedCloses("once");
  }

  lemma NothingBefore(name: string, filter: Option<string>)
    ensures Before(name, filter, []) == Plain(name, FilterMeaning(filter)) && FilterMeaning(None) == None
  {
  }

  lemma NothingAfter(spec: Spec, trig: string)
    requires spec.On?
    ensures Effects(spec, []) == spec && [spec] + Meanings([]) == [spec] && AloneText(trig, []) == trig
  {
  }

  /** In `click from:next once` the modifier is taken for a selector and lost. */
  lemma OnceIsLost(compiles: string -> bool)
    ensures AloneTrig("click", None, [], "next", ONCE) == "click from:next once"
    ensures Parse(compiles, Tokens(AloneTrig("click", None, [], "next", ONCE)))
         == Parsed([WithFrom(Plain("click", None), "next once")], [])
  {
    ClickFromNextOnce();
    ClickValid(compiles);
    OnceIsWord(compiles);
    assert "next" + " " + "once" == "next once";
    hide *;
    AloneSwallows(compiles, "click", None, [], "next", ONCE, []);
    NothingBefore("click", None);
    NothingAfter(WithFrom(Plain("click", None), "next once"), AloneTrig("click", None, [], "next", ONCE));
  }

  const KEYUP := Event("keyup", None, [])

  lemma KeyupText()
    ensures AloneText("click from:next", [KEYUP]) == "click from:next, keyup"
    ensures Tokens(ListText([KEYUP])) == ["keyup"] && Hits(NotWhitespace, "keyup")
  {
    assert ListText([KEYUP]) == "keyup" by {
      assert "keyup" + ("" + "") == "keyup";
    }
    WordIsToken("keyup");
    assert InClass(NotWhitespace, "keyup"[0]);
    assert " " + "keyup" == " keyup" && "," + " keyup" == ", keyup";
    assert "click from:next" + ", keyup" == "click from:next, keyup";
  }

  /** A name behind a swallowed comma is no modifier: an error, and the trigger is gone. */
  lemma UnknownModifier(spec: Spec, name: string)
    requires spec.On? && KeywordOf(name) == NoKeyword && name != ","
    ensures Modifiers(spec, [name]) == Modified(spec, [], [Unexpected(None)])
  {
    assert [name][1..] == [];
    SkipNothing([]);
    assert [Unexpected(None)] + [] == [Unexpected(None)];
  }

  /** Any trigger of one such name that follows is lost. */
  lemma UnknownIsLost(compiles: string -> bool, name: string, filter: Option<string>, before: seq<Mod>, word: string,
                      other: string)
    requires ValidAlone(compiles, name, filter, before, word)
    requires KeywordOf(other) == NoKeyword && other != "," && Hits(NotWhitespace, other)
    ensures Parse(compiles, Tokens(AloneTrig(name, filter, before, word, [])) + Behind(true, [other]))
         == Parsed([WithFrom(Before(name, filter, before), word)], [Unexpected(None)])
  {
    var tokens := Tokens(AloneTrig(name, filter, before, word, [])) + Behind(true, [other]);
    var spec := WithFrom(Before(name, filter, before), word);
    hide *;
    AloneElement(compiles, name, filter, before, word, true, [other]);
    UnknownModifier(spec, other);
    SkipNothing([]);
    ParseLast(compiles, tokens, spec, [Unexpected(None)]);
  }

  /** In `click from:next, keyup` the comma goes, and with it the second trigger. */
  lemma KeyupIsLost(compiles: string -> bool)
    ensures AloneText("click from:next", [KEYUP]) == "click from:next, keyup"
    ensures Parse(compiles, Tokens(AloneText("click from:next", [KEYUP])))
         == Parsed([WithFrom(Plain("click", None), "next")], [Unexpected(None)])
  {
    KeyupText();
    ClickFromNext();
    ClickValid(compiles);
    KeyupUnknown();
    NothingBefore("click", None);
    assert Closed("click from:next") by { AloneTokens("click", None, [], "next"); }
    hide *;
    AloneTextTokens("click from:next", [KEYUP]);
    UnknownIsLost(compiles, "click", None, [], "next", "keyup");
  }

  lemma KeyupUnknown()
    ensures KeywordOf("keyup") == NoKeyword && "keyup" != ","
  {
    assert "keyup"[0] == 'k' && "queue"[0] == 'q' && "delay"[0] == 'd';
  }

  lemma ParseLast(compiles: string -> bool, tokens: seq<string>, spec: Spec, errors: seq<Error>)
    requires Element(compiles, tokens) == Single(Some(spec), [], errors)
    ensures Parse(compiles, tokens) == Parsed([spec], errors)
  {
    hide Element;
  }

  // ---------------------------------------------------------------------------
  // Commas inside a trigger can cover up the loss
  // ---------------------------------------------------------------------------

  function FromParts(word: string): seq<string> {
    ["from", ":", word]
  }

  /** The text wrapped in the trigger below: `a from:next, ,from:closest queue:q`, say. */
  function Covered(word: string, rel: string): string
  {
    "a" + (" " + (FromText(word) + ("," + (" " + ("," + (FromText(rel) + (" " + ("queue" + (":" + "q")))))))))
  }

  const LATER := [WordMod(Queue, "w"), SelectorMod(Target, Bare("z"))]

  /** An event by the name of `from:closest`, say, whose wrapped selector holds commas. */
  function Cover(word: string, rel: string): Trig
  {
    Event(FromText(rel), None, [SelectorMod(Target, Wrapped(Covered(word, rel)))] + LATER)
  }

  /** What is left of it behind its second comma, as a trigger of its own. */
  function Remains(rel: string): Trig
  {
    Event(FromText(rel), None, [WordMod(Queue, "q}")] + LATER)
  }

  predicate Harmless(c: char)
  {
    SymbolCont(c) || c == ':' || c == ' ' || c == ','
  }

  lemma FromFirst(word: string, text: string)
    requires RelativeWord(word) && (text == "" || !SymbolCont(text[0]))
    ensures Tokens(FromText(word) + text) == FromParts(word) + Tokens(text)
    ensures Closed(text) ==> Closed(FromText(word) + text)
  {
    FromTokens(word);
    assert Seam(FromText(word), text);
    hide Tokens, Closed, FromText;
    TokensAppend(FromText(word), text);
    if Closed(text) {
      ClosedAppend(FromText(word), text);
    }
  }

  lemma FromHarmless(word: string)
    requires RelativeWord(word)
    ensures FromText(word) != "" && FromText(word) != "every"
    ensures forall i | 0 <= i < |FromText(word)| :: SymbolCont(FromText(word)[i]) || FromText(word)[i] == ':'
  {
    RelativeIsWord(word);
    var text := FromText(word);
    assert WordOf(FromWord) == "from" && text[4] == ':';
  }

  lemma CoveredTail(rel: string)
    requires RelativeWord(rel)
    ensures var tail := FromText(rel) + (" " + ("queue" + (":" + "q")));
            && Tokens(tail) == FromParts(rel) + ([" "] + (["queue"] + ([":"] + ["q"]))) && Closed(tail)
  {
    WordIsToken("q");
    hide Tokens, Closed, FromText;
    WordColon(Queue, "q");
    SpaceFirst("queue" + (":" + "q"));
    FromFirst(rel, " " + ("queue" + (":" + "q")));
  }

  lemma CoveredTokens(word: string, rel: string)
    requires RelativeWord(word) && RelativeWord(rel)
    ensures Tokens(Covered(word, rel)) == ["a"] + ([" "] + (FromParts(word) + ([","] + ([" "] + ([","]
              + (FromParts(rel) + ([" "] + (["queue"] + ([":"] + ["q"]))))))))) && Closed(Covered(word, rel))
  {
    var tail := FromText(rel) + (" " + ("queue" + (":" + "q")));
    CoveredTail(rel);
    hide Tokens, Closed, FromText;
    CharFirst(',', tail);
    SpaceFirst("," + tail);
    CharFirst(',', " " + ("," + tail));
    FromFirst(word, "," + (" " + ("," + tail)));
    SpaceFirst(FromText(word) + ("," + (" " + ("," + tail))));
    WordFirst("a", " " + (FromText(word) + ("," + (" " + ("," + tail)))));
  }

  predicate Tame(text: string)
  {
    forall i | 0 <= i < |text| :: Harmless(text[i])
  }

  lemma TameAppend(a: string, b: string)
    requires Tame(a) && Tame(b)
    ensures Tame(a + b)
  {
  }

  lemma TameWords()
    ensures Tame("a") && Tame(" ") && Tame(",") && Tame("queue" + (":" + "q"))
  {
  }

  lemma TameCloses(text: string)
    requires Tame(text) && Closed(text)
    ensures Within(SelectorEnd, text)
  {
  }

  lemma CoveredTame(word: string, rel: string)
    requires RelativeWord(word) && RelativeWord(rel)
    ensures Within(SelectorEnd, Covered(word, rel))
  {
    assert Tame(FromText(word)) && Tame(FromText(rel)) by {
      FromHarmless(word);
      FromHarmless(rel);
    }
    var queue := "queue" + (":" + "q");
    var tail := FromText(rel) + (" " + queue);
    var rest := "," + (" " + ("," + tail));
    CoveredTokens(word, rel);
    TameWords();
    assert Covered(word, rel) == "a" + (" " + (FromText(word) + rest));
    hide *;
    TameAppend(" ", queue);
    TameAppend(FromText(rel), " " + queue);
    TameAppend(",", tail);
    TameAppend(" ", "," + tail);
    TameAppend(",", " " + ("," + tail));
    TameAppend(FromText(word), rest);
    TameAppend(" ", FromText(word) + rest);
    TameAppend("a", " " + (FromText(word) + rest));
    TameCloses(Covered(word, rel));
  }

  lemma LaterValid()
    ensures (forall m <- LATER :: ValidMod(m)) && ValidMod(WordMod(Queue, "q}"))
  {
    UnquotedCloses("w");
    UnquotedCloses("z");
    UnquotedCloses("q}");
    hide Closed;
    assert !Hits(SelectorStart, "z"[..TokenEnd("z")]);
  }

  lemma CoverValid(compiles: string -> bool, word: string, rel: string)
    requires RelativeWord(word) && RelativeWord(rel)
    ensures Printable(compiles, [Cover(word, rel)]) && Printable(compiles, [Remains(rel)])
  {
    LaterValid();
    CoveredTame(word, rel);
    FromHarmless(rel);
    FromTokens(rel);
    assert Within(NameEnd, FromText(rel));
    hide FromText, Within, Covered, ValidSel, Closed;
    assert ValidMod(SelectorMod(Target, Wrapped(Covered(word, rel)))) && ValidMod(WordMod(Queue, "q}"));
    hide ValidMod;
  }

  lemma LaterSets(s: Spec, t: Spec)
    requires s.On? && t.On? && (forall m <- LATER :: ValidMod(m))
    requires s == t.(target := s.target, queue := s.queue)
    ensures Effects(s, LATER) == Effects(t, LATER)
  {
    EffectsSameExactly(s, t, LATER);
    assert LATER[0].k == Queue && LATER[1..] == [SelectorMod(Target, Bare("z"))];
    assert Sets(LATER, Queue) && Sets(LATER[1..], Target) && Sets(LATER, Target);
    hide Effects, Sets;
  }

  lemma SameMeaning(compiles: string -> bool, word: string, rel: string)
    requires RelativeWord(word) && RelativeWord(rel)
    ensures ValidTrig(Cover(word, rel)) && ValidTrig(Remains(rel)) && Meaning(Cover(word, rel)) == Meaning(Remains(rel))
  {
    CoverValid(compiles, word, rel);
    LaterValid();
    assert Cover(word, rel) in [Cover(word, rel)] && Remains(rel) in [Remains(rel)];
    var plain := Plain(FromText(rel), None);
    var a, b := SelectorMod(Target, Wrapped(Covered(word, rel))), WordMod(Queue, "q}");
    assert a in [a] + LATER;
    assert ValidMod(a);
    EffectsCons(plain, [a] + LATER);
    EffectsCons(plain, [b] + LATER);
    assert ([a] + LATER)[1..] == LATER && ([b] + LATER)[1..] == LATER;
    LaterSets(Effect(plain, a), Effect(plain, b));
    hide Effects, ValidTrig, Covered, FromText;
  }

  /** The tokens of the remains. */
  function Rest(rel: string): seq<string>
  {
    FromParts(rel) + ([" "] + ((["queue"] + ([":"] + ["q", "}"])) + Tokens(ModsText(LATER))))
  }

  lemma RemainsTokens(compiles: string -> bool, rel: string)
    requires RelativeWord(rel)
    ensures Tokens(TrigText(Remains(rel))) == Rest(rel)
  {
    LaterValid();
    CoverValid(compiles, rel, rel);
    assert Remains(rel) in [Remains(rel)];
    NamedTokens(rel, WordMod(Queue, "q}"));
    QueueTokens();
    hide Tokens, TrigText, ModsText, FromText, ModText;
  }

  lemma QueueTokens()
    ensures Tokens(ModText(WordMod(Queue, "q}"))) == ["queue"] + ([":"] + ["q", "}"])
  {
    LaterValid();
    ModTokens(WordMod(Queue, "q}"));
    CharIsToken('}');
    WordFirst("q", "}");
    assert "q" + "}" == "q}" && ["q"] + ["}"] == ["q", "}"];
  }

  lemma CoverModTokens(word: string, rel: string)
    requires RelativeWord(word) && RelativeWord(rel)
    ensures var m := SelectorMod(Target, Wrapped(Covered(word, rel)));
            && ValidMod(m)
            && Tokens(ModText(m)) == ["target"] + ([":"] + (["{"] + (Tokens(Covered(word, rel)) + ["}"])))
  {
    var m := SelectorMod(Target, Wrapped(Covered(word, rel)));
    CoveredTame(word, rel);
    assert Closed(Covered(word, rel)) && ValidMod(m);
    hide *;
    WrappedTokens(Covered(word, rel), "");
    ModTokens(m);
    TargetText(Covered(word, rel));
  }

  lemma TargetText(text: string)
    ensures var m := SelectorMod(Target, Wrapped(text));
            !m.FlagMod? && ArgText(m) == "{" + text + "}" && WordOf(KeyOf(m)) == "target"
  {
  }

  /** The tokens of an event by the name of a selector-less form. */
  lemma NamedTokens(rel: string, m: Mod)
    requires RelativeWord(rel) && ValidMod(m) && ValidTrig(Event(FromText(rel), None, [m] + LATER))
    ensures Tokens(TrigText(Event(FromText(rel), None, [m] + LATER)))
         == FromParts(rel) + ([" "] + (Tokens(ModText(m)) + Tokens(ModsText(LATER))))
  {
    var mods := [m] + LATER;
    EventTokens(Event(FromText(rel), None, mods));
    FromTokens(rel);
    LaterValid();
    assert forall x <- mods :: ValidMod(x);
    ModsTokens(mods);
    assert mods[0] == m && mods[1..] == LATER;
    NoFilterTokens();
    hide *;
    assert [] + Tokens(ModsText(mods)) == Tokens(ModsText(mods));
  }

  lemma NoFilterTokens()
    ensures Tokens(FilterText(None)) == []
  {
  }

  /** The tokens of the covering trigger: its wrapped selector, and then the remains. */
  lemma CoverTokens(compiles: string -> bool, word: string, rel: string)
    requires RelativeWord(word) && RelativeWord(rel)
    ensures Tokens(TrigText(Cover(word, rel))) ==
      FromParts(rel) + ([" "] + (["target", ":", "{", "a"] + ([" "] + (FromParts(word) + ([",", " ", ","] + Rest(rel))))))
  {
    var m := SelectorMod(Target, Wrapped(Covered(word, rel)));
    CoverValid(compiles, word, rel);
    assert Cover(word, rel) in [Cover(word, rel)];
    CoverModTokens(word, rel);
    NamedTokens(rel, m);
    CoveredTokens(word, rel);
    hide Tokens, TrigText, ModsText, FromText, ModText, Covered;
    CoverRegroup(FromParts(word), FromParts(rel), Tokens(ModsText(LATER)));
  }

  lemma CoverRegroup(w: seq<string>, r: seq<string>, later: seq<string>)
    ensures var inner := ["a"] + ([" "] + (w + ([","] + ([" "] + ([","] + (r + ([" "] + (["queue"] + ([":"] + ["q"])))))))));
            (["target"] + ([":"] + (["{"] + (inner + ["}"])))) + later
              == ["target", ":", "{", "a"] + ([" "] + (w + ([",", " ", ","]
                   + (r + ([" "] + ((["queue"] + ([":"] + ["q", "}"])) + later))))))
  {
  }

  lemma CoverFirst(spec: Spec, rel: string, behind: seq<string>)
    requires spec.On? && RelativeWord(rel) && behind != [] && Hits(NotWhitespace, behind[0])
    ensures Modifiers(spec, FromParts(rel) + ([" "] + (["target", ":", "{", "a"] + ([" "] + behind))))
         == Modifiers(WithFrom(spec, rel + " " + Concat(["target", ":", "{", "a"])), behind)
  {
    var tokens := FromParts(rel) + ([" "] + (["target", ":", "{", "a"] + ([" "] + behind)));
    var next := WithFrom(spec, rel + " " + Concat(["target", ":", "{", "a"]));
    OriginChunk(spec, rel, behind);
    assert tokens[0] == "from" && "from" != ",";
    hide *;
    ModifiersMore(spec, next, tokens, [" "] + behind);
    SkipOne(behind);
  }

  lemma CoverSecond(spec: Spec, word: string, rest: seq<string>)
    requires spec.On? && RelativeWord(word)
    ensures Modifiers(spec, FromParts(word) + ([",", " ", ","] + rest)) == Modified(WithFrom(spec, word), [","] + rest, [])
  {
    assert FromParts(word) + ([",", " ", ","] + rest) == ["from", ":", word] + Behind(true, [","] + rest);
    CommaStarts([","] + rest);
    hide Behind, Hits, WithFrom;
    AloneModifiers(spec, word, true, [","] + rest);
  }

  /** As modifiers the covering trigger sets the origin twice, the second time as before. */
  lemma CoverAsModifiers(spec: Spec, word: string, rel: string, rest: seq<string>)
    requires spec.On? && spec.from == Some(word) && RelativeWord(word) && RelativeWord(rel)
    ensures Modifiers(spec, FromParts(rel) + ([" "] + (["target", ":", "{", "a"] + ([" "] + (FromParts(word) + ([",", " ", ","] + rest))))))
         == Modified(spec, [","] + rest, [])
  {
    var behind := FromParts(word) + ([",", " ", ","] + rest);
    var next := WithFrom(spec, rel + " " + Concat(["target", ":", "{", "a"]));
    FromStarts();
    assert behind[0] == "from" && WithFrom(next, word) == spec;
    hide *;
    CoverFirst(spec, rel, behind);
    CoverSecond(next, word, rest);
  }

  lemma OriginChunk(spec: Spec, rel: string, behind: seq<string>)
    requires spec.On? && RelativeWord(rel)
    ensures Modifier(spec, FromParts(rel) + ([" "] + (["target", ":", "{", "a"] + ([" "] + behind))))
         == Modified(WithFrom(spec, rel + " " + Concat(["target", ":", "{", "a"])), [" "] + behind, [])
  {
    var chunk := ["target", ":", "{", "a"];
    ChunkSelector(behind);
    WordThenSpace(rel, chunk + ([" "] + behind));
    assert KeywordOf("from") == FromWord by { KeywordOfWord(FromWord); }
    hide KeywordOf, RelativeWord, Until, Selector, Concat, Hits;
    var all := FromParts(rel) + ([" "] + (chunk + ([" "] + behind)));
    assert all[1..] == [":"] + ([rel] + ([" "] + (chunk + ([" "] + behind))));
    assert all[1..][1..] == [rel] + ([" "] + (chunk + ([" "] + behind)));
    assert ([" "] + (chunk + ([" "] + behind)))[1..] == chunk + ([" "] + behind);
    ChunkText();
  }

  lemma ChunkText()
    ensures Concat(["target", ":", "{", "a"]) != ""
  {
  }

  lemma ChunkSelector(behind: seq<string>)
    ensures Selector(["target", ":", "{", "a"] + ([" "] + behind)) == Taken(Concat(["target", ":", "{", "a"]), [" "] + behind)
  {
    var chunk := ["target", ":", "{", "a"];
    assert forall t <- chunk :: !Hits(WordEnd, t);
    assert !Hits(SelectorStart, "target");
    EndsHit([" "] + behind);
    hide Hits, Concat;
    UntilAll(WordEnd, chunk, [" "] + behind);
  }

  /**
   * So the condition on commas is needed: followed by this trigger, a selector-less form
   * is read as it is meant, as in `click from:next, from:closest target:{a from:next,
   * ,from:closest queue:q} queue:w target:z`.
   */
  lemma CoveredUp(compiles: string -> bool, name: string, filter: Option<string>, before: seq<Mod>, word: string, rel: string)
    requires ValidAlone(compiles, name, filter, before, word) && RelativeWord(rel)
    ensures var ts := [Cover(word, rel)];
            && (forall t <- ts :: ValidTrig(t))
            && Parse(compiles, Tokens(AloneText(AloneTrig(name, filter, before, word, []), ts)))
                 == Parsed(Intended(Before(name, filter, before), word, [], ts), [])
  {
    var ts, spec := [Cover(word, rel)], WithFrom(Before(name, filter, before), word);
    var list, rest := Tokens(TrigText(Cover(word, rel))), Rest(rel);
    var trig := AloneTrig(name, filter, before, word, []);
    CoverValid(compiles, word, rel);
    assert Cover(word, rel) in ts;
    CoverTokens(compiles, word, rel);
    RemainsTokens(compiles, rel);
    CoverAsModifiers(spec, word, rel, rest);
    AloneTokens(name, filter, before, word);
    FromStarts();
    AloneElement(compiles, name, filter, before, word, true, list);
    AloneTextTokens(trig, ts);
    PrintedParsesBack(compiles, [Remains(rel)]);
    SameMeaning(compiles, word, rel);
    MeaningsOne(Cover(word, rel));
    MeaningsOne(Remains(rel));
    CommaStarts([","] + rest);
    SkipNothing([","] + rest);
    assert ListText(ts) == TrigText(Cover(word, rel)) && ListText([Remains(rel)]) == TrigText(Remains(rel));
    assert Effects(spec, []) == spec;
    hide *;
    ParseComma(compiles, Tokens(AloneText(trig, ts)), spec, rest, Meaning(Remains(rel)));
    assert Intended(Before(name, filter, before), word, [], ts) == [spec] + Meanings(ts) by {
      IntendedIs(Before(name, filter, before), word, ts);
    }
  }

  lemma IntendedIs(spec: Spec, word: string, ts: seq<Trig>)
    requires spec.On? && forall t <- ts :: ValidTrig(t)
    ensures Intended(spec, word, [], ts) == [WithFrom(spec, word)] + Meanings(ts)
  {
  }

  lemma ParseComma(compiles: string -> bool, tokens: seq<string>, spec: Spec, rest: seq<string>, more: Spec)
    requires Element(compiles, tokens) == Single(Some(spec), [","] + rest, [])
    requires Parse(compiles, rest) == Parsed([more], [])
    ensures Parse(compiles, tokens) == Parsed([spec] + [more], [])
  {
    ParseStep(compiles, tokens, spec, [","] + rest);
    hide Parse, Element;
    assert ([","] + rest)[1..] == rest;
  }

  lemma MeaningsOne(t: Trig)
    requires ValidTrig(t)
    ensures Meanings([t]) == [Meaning(t)]
  {
    assert [t][1..] == [];
  }
}
