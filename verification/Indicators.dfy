/**
 * Request indicators and disabled elements: one request count per element, shared by all
 * requests that show an indicator on it or disable it, in any interleaving of requests
 * that begin and end.
 */
module Indicators {
  import opened Prelude

  /**
   * The page by element: the request counts, the elements with the request class, those
   * with the `disabled` attribute, and those marked as disabled by htmx.
   */
  datatype Page = Page(counts: map<nat, nat>, request: set<nat>, disabled: set<nat>, marked: set<nat>)

  /** The elements one request uses; an element may be listed more than once. */
  datatype Uses = Uses(indicators: seq<nat>, disabled: seq<nat>)

  function Count(counts: map<nat, nat>, e: nat): nat
  {
    if e in counts then counts[e] else 0
  }

  /** requestCount = (requestCount || 0) + 1 for each element in turn. */
  function Up(counts: map<nat, nat>, elts: seq<nat>): map<nat, nat>
  {
    if elts == [] then counts
    else
      var before := Up(counts, elts[..|elts| - 1]);
      before[elts[|elts| - 1] := Count(before, elts[|elts| - 1]) + 1]
  }

  function Less(n: nat): nat
  {
    if n == 0 then 0 else n - 1
  }

  /** requestCount = (requestCount || 1) - 1 for each element in turn. */
  function Down(counts: map<nat, nat>, elts: seq<nat>): map<nat, nat>
  {
    if elts == [] then counts
    else
      var before := Down(counts, elts[..|elts| - 1]);
      before[elts[|elts| - 1] := Less(Count(before, elts[|elts| - 1]))]
  }

  function Elements(elts: seq<nat>): set<nat>
  {
    set e | e in elts
  }

  function Indicated(p: Page, indicators: seq<nat>): Page
  {
    p.(counts := Up(p.counts, indicators), request := p.request + Elements(indicators))
  }

  function Disabled(p: Page, elts: seq<nat>): Page
  {
    p.(counts := Up(p.counts, elts), disabled := p.disabled + Elements(elts),
       marked := p.marked + (Elements(elts) - p.disabled))
  }

  /** The elements of a list that no request counts any more. */
  function Idle(counts: map<nat, nat>, elts: seq<nat>): set<nat>
  {
    set e | e in elts && Count(counts, e) == 0
  }

  function Removed(p: Page, u: Uses): Page
  {
    var counts := Down(p.counts, u.indicators + u.disabled);
    var freed := Idle(counts, u.disabled) * p.marked;
    Page(counts, p.request - Idle(counts, u.indicators), p.disabled - freed, p.marked - freed)
  }

  // ---------------------------------------------------------------------------
  // The same in place
  // ---------------------------------------------------------------------------

  class Document {
    var counts: map<nat, nat>
    var request: set<nat>
    var disabled: set<nat>
    var marked: set<nat>

    function View(): Page
      reads this
    {
      Page(counts, request, disabled, marked)
    }

    /** A page whose own markup disables some elements. */
    constructor (own: set<nat>)
      ensures View() == Page(map[], {}, own, {})
    {
      counts, request, disabled, marked := map[], {}, own, {};
    }

    method AddRequestIndicatorClasses(indicators: seq<nat>)
      modifies this
      ensures View() == Indicated(old(View()), indicators)
    {
      for i := 0 to |indicators|
        invariant View() == Indicated(old(View()), indicators[..i])
      {
        var ic := indicators[i];
        assert indicators[..i + 1] == indicators[..i] + [ic];
        counts := counts[ic := Count(counts, ic) + 1];
        request := request + {ic};
      }
      assert indicators[..|indicators|] == indicators;
    }

    method DisableElements(disabledElts: seq<nat>)
      modifies this
      ensures View() == Disabled(old(View()), disabledElts)
    {
      for i := 0 to |disabledElts|
        invariant View() == Disabled(old(View()), disabledElts[..i])
      {
        var e := disabledElts[i];
        assert disabledElts[..i + 1] == disabledElts[..i] + [e];
        counts := counts[e := Count(counts, e) + 1];
        if e !in disabled {
          disabled := disabled + {e};
          marked := marked + {e};
        }
      }
      assert disabledElts[..|disabledElts|] == disabledElts;
    }

    method RemoveRequestIndicators(indicators: seq<nat>, disabledElts: seq<nat>)
      modifies this
      ensures View() == Removed(old(View()), Uses(indicators, disabledElts))
    {
      var all := indicators + disabledElts;
      for i := 0 to |all|
        invariant counts == Down(old(counts), all[..i])
        invariant request == old(request) && disabled == old(disabled) && marked == old(marked)
      {
        assert all[..i + 1] == all[..i] + [all[i]];
        counts := counts[all[i] := Less(Count(counts, all[i]))];
      }
      assert all[..|all|] == all;
      RemoveClasses(indicators);
      EnableElements(disabledElts);
    }

    method RemoveClasses(indicators: seq<nat>)
      modifies this`request
      ensures request == old(request) - Idle(counts, indicators)
    {
      for i := 0 to |indicators|
        invariant request == old(request) - Idle(counts, indicators[..i])
      {
        var ic := indicators[i];
        assert indicators[..i + 1] == indicators[..i] + [ic];
        if Count(counts, ic) == 0 {
          request := request - {ic};
        }
      }
      assert indicators[..|indicators|] == indicators;
    }

    method EnableElements(disabledElts: seq<nat>)
      modifies this`disabled, this`marked
      ensures disabled == old(disabled) - Idle(counts, disabledElts) * old(marked)
      ensures marked == old(marked) - Idle(counts, disabledElts) * old(marked)
    {
      for i := 0 to |disabledElts|
        invariant disabled == old(disabled) - Idle(counts, disabledElts[..i]) * old(marked)
        invariant marked == old(marked) - Idle(counts, disabledElts[..i]) * old(marked)
      {
        var e := disabledElts[i];
        assert disabledElts[..i + 1] == disabledElts[..i] + [e];
        if Count(counts, e) == 0 && e in marked {
          disabled := disabled - {e};
          marked := marked - {e};
        }
      }
      assert disabledElts[..|disabledElts|] == disabledElts;
    }
  }

  // ---------------------------------------------------------------------------
  // Any interleaving of requests
  // ---------------------------------------------------------------------------

  datatype World = World(page: Page, live: seq<Uses>)

  /** Requests begin, and any live one ends, in any order. */
  datatype Step = Begin(uses: Uses) | End(index: nat)

  function Dropped(live: seq<Uses>, i: nat): seq<Uses>
    requires i < |live|
  {
    live[..i] + live[i + 1..]
  }

  function Next(w: World, step: Step): World
  {
    match step
    case Begin(u) => World(Disabled(Indicated(w.page, u.indicators), u.disabled), w.live + [u])
    case End(i) => if i < |w.live| then World(Removed(w.page, w.live[i]), Dropped(w.live, i)) else w
  }

  function Run(own: set<nat>, steps: seq<Step>): World
  {
    if steps == [] then World(Page(map[], {}, own, {}), [])
    else Next(Run(own, steps[..|steps| - 1]), steps[|steps| - 1])
  }

  function Mentions(u: Uses): multiset<nat>
  {
    multiset(u.indicators) + multiset(u.disabled)
  }

  /** Every mention of an element by a live request. */
  function AllMentions(live: seq<Uses>): multiset<nat>
  {
    if live == [] then multiset{} else AllMentions(live[..|live| - 1]) + Mentions(live[|live| - 1])
  }

  /** The elements some live request uses as an indicator. */
  function Indicating(live: seq<Uses>): set<nat>
  {
    set i, e | 0 <= i < |live| && e in live[i].indicators :: e
  }

  /** The elements some live request disables. */
  function Disabling(live: seq<Uses>): set<nat>
  {
    set i, e | 0 <= i < |live| && e in live[i].disabled :: e
  }

  lemma {:induction false} UpCounts(counts: map<nat, nat>, elts: seq<nat>, e: nat)
    ensures Count(Up(counts, elts), e) == Count(counts, e) + multiset(elts)[e]
  {
    if elts != [] {
      var front, last := elts[..|elts| - 1], elts[|elts| - 1];
      UpCounts(counts, front, e);
      assert elts == front + [last];
    }
  }

  lemma {:induction false} DownCounts(counts: map<nat, nat>, elts: seq<nat>, e: nat)
    requires Count(counts, e) >= multiset(elts)[e]
    ensures Count(Down(counts, elts), e) == Count(counts, e) - multiset(elts)[e]
  {
    if elts != [] {
      var front, last := elts[..|elts| - 1], elts[|elts| - 1];
      assert elts == front + [last];
      DownCounts(counts, front, e);
    }
  }

  lemma {:induction false} MentionsAppend(a: seq<Uses>, b: seq<Uses>)
    ensures AllMentions(a + b) == AllMentions(a) + AllMentions(b)
  {
    if b == [] {
      assert a + b == a;
    } else {
      assert (a + b)[..|a + b| - 1] == a + b[..|b| - 1];
      MentionsAppend(a, b[..|b| - 1]);
    }
  }

  lemma MentionsOne(u: Uses)
    ensures AllMentions([u]) == Mentions(u)
  {
    assert [u][..0] == [];
  }

  lemma Split(live: seq<Uses>, i: nat)
    requires i < |live|
    ensures live == live[..i] + ([live[i]] + live[i + 1..])
  {
  }

  lemma Shuffle(a: multiset<nat>, b: multiset<nat>, m: multiset<nat>)
    ensures a + (m + b) == a + b + m
  {
  }

  lemma MentionsDropped(live: seq<Uses>, i: nat)
    requires i < |live|
    ensures AllMentions(live) == AllMentions(Dropped(live, i)) + Mentions(live[i])
  {
    hide AllMentions, Mentions;
    var a, u, b := live[..i], live[i], live[i + 1..];
    Split(live, i);
    MentionsAppend(a, b);
    MentionsAppend(a, [u] + b);
    MentionsAppend([u], b);
    MentionsOne(u);
    Shuffle(AllMentions(a), AllMentions(b), Mentions(u));
  }

  /** Every count is the number of live mentions. */
  ghost predicate Counted(w: World)
  {
    forall e :: Count(w.page.counts, e) == AllMentions(w.live)[e]
  }

  lemma CountedStep(w: World, step: Step)
    requires Counted(w)
    ensures Counted(Next(w, step))
  {
    var t := Next(w, step);
    forall e: nat
      ensures Count(t.page.counts, e) == AllMentions(t.live)[e]
    {
      match step {
        case Begin(u) =>
          UpCounts(w.page.counts, u.indicators, e);
          UpCounts(Up(w.page.counts, u.indicators), u.disabled, e);
          assert (w.live + [u])[..|w.live|] == w.live;
        case End(i) =>
          if i < |w.live| {
            MentionsDropped(w.live, i);
            DownCounts(w.page.counts, w.live[i].indicators + w.live[i].disabled, e);
          }
      }
    }
  }

  /** Over any interleaving an element's request count is the number of its live mentions. */
  lemma {:induction false} CountIsMentions(own: set<nat>, steps: seq<Step>)
    ensures Counted(Run(own, steps))
  {
    if steps != [] {
      CountIsMentions(own, steps[..|steps| - 1]);
      CountedStep(Run(own, steps[..|steps| - 1]), steps[|steps| - 1]);
    }
  }

  // ---------------------------------------------------------------------------
  // Classes and attributes
  // ---------------------------------------------------------------------------

  lemma {:induction false} MentionedBy(live: seq<Uses>, e: nat)
    ensures AllMentions(live)[e] > 0 <==> e in Indicating(live) || e in Disabling(live)
  {
    if live != [] {
      var front, last := live[..|live| - 1], live[|live| - 1];
      MentionedBy(front, e);
      assert live == front + [last];
      BegunSets(front, last);
    }
  }

  lemma BegunSets(live: seq<Uses>, u: Uses)
    ensures Indicating(live + [u]) == Indicating(live) + Elements(u.indicators)
    ensures Disabling(live + [u]) == Disabling(live) + Elements(u.disabled)
  {
    var t := live + [u];
    assert t[|live|] == u;
    assert forall i | 0 <= i < |live| :: t[i] == live[i];
  }

  lemma DroppedAt(live: seq<Uses>, i: nat)
    requires i < |live|
    ensures forall j | 0 <= j < |live| - 1 :: Dropped(live, i)[j] == live[if j < i then j else j + 1]
    ensures forall j | 0 <= j < |live| && j != i :: live[j] == Dropped(live, i)[if j < i then j else j - 1]
  {
  }

  lemma EndedIndicating(live: seq<Uses>, i: nat)
    requires i < |live|
    ensures Indicating(live) == Indicating(Dropped(live, i)) + Elements(live[i].indicators)
  {
    DroppedAt(live, i);
    assert |Dropped(live, i)| == |live| - 1;
    hide Dropped;
  }

  lemma EndedDisabling(live: seq<Uses>, i: nat)
    requires i < |live|
    ensures Disabling(live) == Disabling(Dropped(live, i)) + Elements(live[i].disabled)
  {
    DroppedAt(live, i);
    assert |Dropped(live, i)| == |live| - 1;
    hide Dropped;
  }

  /** The indicator class and the disabled attribute are where live requests want them. */
  ghost predicate Right(own: set<nat>, w: World)
  {
    && w.page.request == Indicating(w.live)
    && w.page.disabled == own + Disabling(w.live)
    && w.page.marked == Disabling(w.live) - own
  }

  /**
   * What an ending request indicated or disabled is, if another live request still counts
   * it, still used in the same role.
   */
  ghost predicate Clean(own: set<nat>, w: World, step: Step)
  {
    step.End? && step.index < |w.live| ==>
      var u, rest := w.live[step.index], Dropped(w.live, step.index);
      && (forall e <- u.indicators :: AllMentions(rest)[e] > 0 ==> e in Indicating(rest))
      && (forall e <- u.disabled :: e !in own && AllMentions(rest)[e] > 0 ==> e in Disabling(rest))
  }

  lemma BeginRight(own: set<nat>, w: World, u: Uses)
    requires Right(own, w)
    ensures Right(own, Next(w, Begin(u)))
  {
    BegunSets(w.live, u);
  }

  lemma EndRight(own: set<nat>, w: World, i: nat)
    requires Counted(w) && Right(own, w) && i < |w.live|
    ensures Right(own, Next(w, End(i))) <==> Clean(own, w, End(i))
  {
    var t, u, rest := Next(w, End(i)), w.live[i], Dropped(w.live, i);
    CountedStep(w, End(i));
    EndedIndicating(w.live, i);
    EndedDisabling(w.live, i);
    forall e: nat
      ensures AllMentions(rest)[e] > 0 <==> e in Indicating(rest) || e in Disabling(rest)
    {
      MentionedBy(rest, e);
    }
    assert forall e :: Count(t.page.counts, e) == AllMentions(rest)[e];
    hide AllMentions, Indicating, Disabling, Down, Count, Dropped, Counted;
    RequestAfter(w.page.request, t.page.counts, u.indicators, Indicating(rest));
    MarkedAfter(own, t.page.counts, u.disabled, Disabling(rest));
    var marked := w.page.marked;
    assert marked == Disabling(rest) + Elements(u.disabled) - own && w.page.disabled == own + marked;
    if t.page.marked == Disabling(rest) - own {
      DisabledAfter(own, marked, Disabling(rest), Idle(t.page.counts, u.disabled) * marked);
    }
  }

  lemma RequestAfter(request: set<nat>, counts: map<nat, nat>, indicators: seq<nat>, still: set<nat>)
    requires request == still + Elements(indicators) && forall e <- still :: Count(counts, e) > 0
    ensures request - Idle(counts, indicators) == still <==>
      forall e <- indicators :: Count(counts, e) > 0 ==> e in still
  {
    hide Count;
  }

  lemma MarkedAfter(own: set<nat>, counts: map<nat, nat>, elts: seq<nat>, still: set<nat>)
    requires forall e <- still :: Count(counts, e) > 0
    ensures var marked := still + Elements(elts) - own;
            marked - Idle(counts, elts) * marked == still - own <==>
              forall e <- elts :: e !in own && Count(counts, e) > 0 ==> e in still
  {
    hide Count;
    var marked := still + Elements(elts) - own;
    var after := marked - Idle(counts, elts) * marked;
    if after == still - own {
      forall e <- elts | e !in own && Count(counts, e) > 0
        ensures e in still
      {
        assert e in after;
      }
    }
  }

  lemma DisabledAfter(own: set<nat>, marked: set<nat>, still: set<nat>, freed: set<nat>)
    requires freed <= marked && marked - freed == still - own && marked !! own
    ensures own + marked - freed == own + still
  {
    assert own + marked - freed == own + (marked - freed);
    assert own + (still - own) == own + still;
  }

  ghost predicate AlwaysRight(own: set<nat>, steps: seq<Step>)
  {
    Right(own, Run(own, steps)) && (steps == [] || AlwaysRight(own, steps[..|steps| - 1]))
  }

  ghost predicate AllClean(own: set<nat>, steps: seq<Step>)
  {
    steps == [] || (AllClean(own, steps[..|steps| - 1]) && Clean(own, Run(own, steps[..|steps| - 1]), steps[|steps| - 1]))
  }

  /**
   * Exactly when, all along a run, the request class is present on just the elements that
   * some live request uses as an indicator, and the disabled ones are the page's own and
   * those some live request disables: when every request that ends does so cleanly.
   */
  lemma {:induction false} RightExactly(own: set<nat>, steps: seq<Step>)
    ensures AlwaysRight(own, steps) <==> AllClean(own, steps)
  {
    if steps != [] {
      var before, step := steps[..|steps| - 1], steps[|steps| - 1];
      var w := Run(own, before);
      RightExactly(own, before);
      if AllClean(own, before) {
        CountIsMentions(own, before);
        assert Right(own, w);
        hide Right, Counted;
        match step {
          case Begin(u) => BeginRight(own, w, u);
          case End(i) =>
            if i < |w.live| {
              EndRight(own, w, i);
            }
        }
      }
    }
  }

  /** No element is an indicator of one live request and disabled by another. */
  predicate Unmixed(live: seq<Uses>)
  {
    forall i, j, e | 0 <= i < |live| && 0 <= j < |live| && i != j && e in live[i].indicators :: e !in live[j].disabled
  }

  ghost predicate AlwaysUnmixed(own: set<nat>, steps: seq<Step>)
  {
    Unmixed(Run(own, steps).live) && (steps == [] || AlwaysUnmixed(own, steps[..|steps| - 1]))
  }

  lemma UnmixedEndsCleanly(own: set<nat>, w: World, i: nat)
    requires Unmixed(w.live) && i < |w.live|
    ensures Clean(own, w, End(i))
  {
    var live, u, rest := w.live, w.live[i], Dropped(w.live, i);
    assert forall j | 0 <= j < |rest| :: rest[j] == live[if j < i then j else j + 1];
    forall e | AllMentions(rest)[e] > 0
      ensures e in u.indicators ==> e in Indicating(rest)
      ensures e in u.disabled ==> e in Disabling(rest)
    {
      MentionedBy(rest, e);
    }
  }

  /** While no two overlapping requests use an element in different roles, all is right. */
  lemma UnmixedIsRight(own: set<nat>, steps: seq<Step>)
    requires AlwaysUnmixed(own, steps)
    ensures AlwaysRight(own, steps)
  {
    UnmixedIsClean(own, steps);
    RightExactly(own, steps);
  }

  lemma {:induction false} UnmixedIsClean(own: set<nat>, steps: seq<Step>)
    requires AlwaysUnmixed(own, steps)
    ensures AllClean(own, steps)
  {
    if steps != [] {
      var before, step := steps[..|steps| - 1], steps[|steps| - 1];
      UnmixedIsClean(own, before);
      if step.End? && step.index < |Run(own, before).live| {
        UnmixedEndsCleanly(own, Run(own, before), step.index);
      }
    }
  }

  // ---------------------------------------------------------------------------
  // Whatever roles are mixed
  // ---------------------------------------------------------------------------

  /** What holds without any assumption on roles. */
  predicate Shown(own: set<nat>, w: World)
  {
    && Indicating(w.live) <= w.page.request
    && Disabling(w.live) - own <= w.page.marked
    && w.page.disabled == own + w.page.marked && w.page.marked !! own
  }

  lemma ShownStep(own: set<nat>, w: World, step: Step)
    requires Counted(w) && Shown(own, w)
    ensures Shown(own, Next(w, step))
  {
    CountedStep(w, step);
    match step {
      case Begin(u) => BegunSets(w.live, u);
      case End(i) =>
        if i < |w.live| {
          var rest := Dropped(w.live, i);
          EndedIndicating(w.live, i);
          EndedDisabling(w.live, i);
          forall e | e in Indicating(rest) || e in Disabling(rest)
            ensures Count(Next(w, step).page.counts, e) > 0
          {
            MentionedBy(rest, e);
          }
          hide AllMentions, Indicating, Disabling, Down, Count, Dropped, Counted;
        }
    }
  }

  /**
   * In every interleaving an element shows the request class while some live request uses
   * it as an indicator and is disabled while some live request disables it, and an
   * element the page itself disabled is never enabled or marked.
   */
  lemma {:induction false} AlwaysShown(own: set<nat>, steps: seq<Step>)
    ensures Shown(own, Run(own, steps))
  {
    if steps != [] {
      AlwaysShown(own, steps[..|steps| - 1]);
      CountIsMentions(own, steps[..|steps| - 1]);
      ShownStep(own, Run(own, steps[..|steps| - 1]), steps[|steps| - 1]);
    }
  }

  lemma RunMore(own: set<nat>, steps: seq<Step>, step: Step)
    ensures Run(own, steps + [step]) == Next(Run(own, steps), step)
  {
    assert (steps + [step])[..|steps|] == steps;
  }

  lemma RunNone(own: set<nat>)
    ensures Run(own, []) == World(Page(map[], {}, own, {}), [])
  {
  }

  function Indicates(e: nat): Uses {
    Uses([e], [])
  }

  function Disables(e: nat): Uses {
    Uses([], [e])
  }

  /** Both requests are under way. */
  function Overlapping(e: nat): World {
    World(Page(map[e := 2], {e}, {e}, {e}), [Indicates(e), Disables(e)])
  }

  lemma MixedBegins(e: nat)
    ensures Next(Next(World(Page(map[], {}, {}, {}), []), Begin(Indicates(e))), Begin(Disables(e))) == Overlapping(e)
  {
    UpOne(map[], e);
    UpOne(map[e := 1], e);
    var w1 := Next(World(Page(map[], {}, {}, {}), []), Begin(Indicates(e)));
    assert w1 == World(Page(map[e := 1], {e}, {}, {}), [Indicates(e)]);
  }

  lemma MixedEnds(e: nat)
    ensures var w := Next(Next(Overlapping(e), End(0)), End(0)); w.live == [] && w.page.request == {e}
  {
    DownOne(map[e := 2], e);
    DownOne(map[e := 1], e);
    assert [e] + [] == [e] && [] + [e] == [e];
    var w1 := Next(Overlapping(e), End(0));
    assert w1 == World(Page(map[e := 1], {e}, {e}, {e}), [Disables(e)]);
  }

  /** An indicator of one request that another disables keeps the class when both have ended. */
  lemma MixedRolesStick(e: nat)
    ensures var w := Run({}, [Begin(Indicates(e)), Begin(Disables(e)), End(0), End(0)]);
            w.live == [] && w.page.request == {e}
  {
    hide *;
    var a, b, c := Begin(Indicates(e)), Begin(Disables(e)), End(0);
    MixedBegins(e);
    MixedEnds(e);
    RunNone({});
    RunMore({}, [], a);
    RunMore({}, [a], b);
    RunMore({}, [a, b], c);
    RunMore({}, [a, b, c], c);
    assert [] + [a] == [a] && [a] + [b] == [a, b] && [a, b] + [c] == [a, b, c] && [a, b, c] + [c] == [a, b, c, c];
  }

  lemma UpOne(counts: map<nat, nat>, e: nat)
    ensures Up(counts, [e]) == counts[e := Count(counts, e) + 1] && Up(counts, []) == counts
  {
    assert [e][..0] == [];
  }

  lemma DownOne(counts: map<nat, nat>, e: nat)
    ensures Down(counts, [e]) == counts[e := Less(Count(counts, e))]
  {
    assert [e][..0] == [];
  }
}
