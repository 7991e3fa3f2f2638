/**
  The page controller of the practice page: a cursor over the scenarios, the
  header and question cards it renders for the current scenario, the two
  navigation buttons, and the per-question answer toggling. The module-level
  `currentScenarioIndex` and the DOM regions become fields of one `Page` value;
  every operation is a function from page to page.
 */
module Navigation {
  import opened Wrappers
  import opened Js
  import opened Content
  import opened Render

  /** The counter, title, subtitle and story regions. */
  datatype Header = Header(counter: int, title: string, subtitle: string, story: string)

  datatype NavButtons = NavButtons(prevDisabled: bool, nextDisabled: bool, nextText: string)

  /**
    Everything the controller writes. `None` stands for a region still holding
    the page's static placeholder, before the first write.
   */
  datatype Page = Page(
    cursor: int,
    totalLabel: Option<int>,
    header: Option<Header>,
    cards: seq<Card>,
    nav: Option<NavButtons>)

  const CompletedText: string := "✓ Completed!"
  const NextText: string := "Next Scenario →"

  /** Before the `DOMContentLoaded` handler runs: cursor 0, nothing written yet. */
  const Blank: Page := Page(0, None, None, [], None)

  /**
    `updateNavButtons`: "Previous" is disabled exactly on the first scenario,
    "Next" exactly on the last, where it reads "✓ Completed!"; nothing but the
    buttons changes.
   */
  function UpdateNavButtons(p: Page, total: int): (r: Page)
    ensures ButtonsShow(r.nav, p.cursor, total)
    ensures r.(nav := p.nav) == p
  {
    var last := p.cursor == total - 1;
    p.(nav := Some(NavButtons(p.cursor == 0, last, if last then CompletedText else NextText)))
  }

  /** The buttons `UpdateNavButtons` writes for cursor `i` of `total`. */
  predicate ButtonsShow(nav: Option<NavButtons>, i: int, total: int)
  {
    && nav.Some?
    && (nav.value.prevDisabled <==> i == 0)
    && (nav.value.nextDisabled <==> i == total - 1)
    && (nav.value.nextText == CompletedText <==> i == total - 1)
    && (nav.value.nextText == NextText <==> i != total - 1)
  }

  function HeaderFor(s: Scenario, index: int): Header
  {
    Header(index + 1, s.title, s.subtitle, s.story)
  }

  /**
    `loadScenario(index)`: an index outside the scenarios changes nothing;
    otherwise the cursor moves there, the counter shows index + 1, the header
    and cards show that scenario with every answer hidden, and the buttons
    follow the new cursor.
   */
  function LoadScenario(sc: seq<Scenario>, p: Page, index: int): (r: Page)
    ensures index < 0 || index >= |sc| ==> r == p
    ensures 0 <= index < |sc| ==> r.cursor == index && r.totalLabel == p.totalLabel
    ensures 0 <= index < |sc| ==>
      r.header == Some(Header(index + 1, sc[index].title, sc[index].subtitle, sc[index].story))
    ensures 0 <= index < |sc| ==> r.cards == RenderQuestions(sc[index])
    ensures 0 <= index < |sc| ==> |r.cards| == |sc[index].questions| && AllHidden(r.cards)
    ensures 0 <= index < |sc| ==> forall k :: 0 <= k < |r.cards| ==> !r.cards[k].answered
    ensures 0 <= index < |sc| ==> ButtonsShow(r.nav, index, |sc|)
  {
    if index < 0 || index >= |sc| then p
    else
      var q := p.(cursor := index, header := Some(HeaderFor(sc[index], index)), cards := RenderQuestions(sc[index]));
      UpdateNavButtons(q, |sc|)
  }

  /** `nextScenario`: a no-op on the last scenario, otherwise one step forward. */
  function NextScenario(sc: seq<Scenario>, p: Page): (r: Page)
    ensures p.cursor >= |sc| - 1 ==> r == p
    ensures -1 <= p.cursor < |sc| - 1 ==> r.cursor == p.cursor + 1 && AllHidden(r.cards)
  {
    if p.cursor < |sc| - 1 then LoadScenario(sc, p, p.cursor + 1) else p
  }

  /** `previousScenario`: a no-op on the first scenario, otherwise one step back. */
  function PreviousScenario(sc: seq<Scenario>, p: Page): (r: Page)
    ensures p.cursor <= 0 ==> r == p
    ensures 0 < p.cursor <= |sc| ==> r.cursor == p.cursor - 1 && AllHidden(r.cards)
  {
    if p.cursor > 0 then LoadScenario(sc, p, p.cursor - 1) else p
  }

  /** The `DOMContentLoaded` handler: show the total, load scenario 0, update the buttons. */
  function Boot(sc: seq<Scenario>): (r: Page)
    ensures r.totalLabel == Some(|sc|) && r.cursor == 0
    ensures ButtonsShow(r.nav, 0, |sc|)
    ensures |sc| > 0 ==> r.header.Some? && r.header.value.counter == 1 && AllHidden(r.cards)
  {
    UpdateNavButtons(LoadScenario(sc, Blank.(totalLabel := Some(|sc|)), 0), |sc|)
  }

  // ---------------------------------------------------------------------------
  // Answer boxes
  // ---------------------------------------------------------------------------

  /**
    `document.getElementById('answer-' + questionNum)`: the first card, in page
    order, whose answer box carries that id.
   */
  function FindBox(cards: seq<Card>, questionNum: int, from: nat): (r: Option<nat>)
    requires from <= |cards|
    ensures r.Some? ==> from <= r.value < |cards| && IsBox(cards[r.value], questionNum)
    ensures r.Some? ==> forall k :: from <= k < r.value ==> !IsBox(cards[k], questionNum)
    ensures r.None? ==> forall k :: from <= k < |cards| ==> !IsBox(cards[k], questionNum)
    decreases |cards| - from
  {
    if from == |cards| then None
    else if IsBox(cards[from], questionNum) then Some(from)
    else FindBox(cards, questionNum, from + 1)
  }

  predicate IsBox(c: Card, questionNum: int)
  {
    HasAnswerBox(c) && BoxId(c.number) == BoxId(questionNum)
  }

  /**
    `toggleAnswer(questionNum, optionIndex, show)`. With no such answer box the
    lookup yields null and the handler throws before changing anything.
    Otherwise the box's shown flag flips; revealing a short answer also marks
    its button answered ("Hide Answer"), and hiding leaves the mark.
    `optionIndex` and `show` are not read.
   */
  function ToggleAnswer(p: Page, questionNum: int, optionIndex: Option<int>, show: bool): (r: Page)
    ensures r.cursor == p.cursor && r.header == p.header && r.nav == p.nav && r.totalLabel == p.totalLabel
    ensures |r.cards| == |p.cards|
    ensures FindBox(p.cards, questionNum, 0).None? ==> r == p
    ensures forall k :: 0 <= k < |p.cards| && FindBox(p.cards, questionNum, 0) != Some(k) ==> r.cards[k] == p.cards[k]
    ensures forall k :: 0 <= k < |p.cards| && FindBox(p.cards, questionNum, 0) == Some(k) ==>
      && r.cards[k].shown == !p.cards[k].shown
      && r.cards[k].number == p.cards[k].number && r.cards[k].prompt == p.cards[k].prompt && r.cards[k].body == p.cards[k].body
      && (r.cards[k].answered <==> p.cards[k].answered || (r.cards[k].shown && HasShowButton(p.cards[k])))
    ensures forall k :: 0 <= k < |p.cards| && FindBox(p.cards, questionNum, 0) == Some(k) && HasShowButton(p.cards[k]) && r.cards[k].shown ==>
      HasShowButton(r.cards[k]) && ShowButtonText(r.cards[k]) == "Hide Answer"
  {
    match FindBox(p.cards, questionNum, 0)
    case None => p
    case Some(k) =>
      var c := p.cards[k];
      var c' := if c.shown then c.(shown := false) else c.(shown := true, answered := c.answered || HasShowButton(c));
      p.(cards := p.cards[k := c'])
  }

  /** Only the question number matters: the option index and the `show` argument are ignored. */
  lemma ToggleIgnoresArguments(p: Page, questionNum: int, o1: Option<int>, s1: bool, o2: Option<int>, s2: bool)
    ensures ToggleAnswer(p, questionNum, o1, s1) == ToggleAnswer(p, questionNum, o2, s2)
  {
  }

  /** In well-formed pages the box with id `answer-q` is card q - 1. */
  lemma BoxOfNumberedCards(cards: seq<Card>, questionNum: int)
    requires forall k :: 0 <= k < |cards| ==> cards[k].number == k + 1 && HasAnswerBox(cards[k])
    ensures 1 <= questionNum <= |cards| ==> FindBox(cards, questionNum, 0) == Some(questionNum - 1)
    ensures !(1 <= questionNum <= |cards|) ==> FindBox(cards, questionNum, 0).None?
  {
    forall k | 0 <= k < |cards| && IsBox(cards[k], questionNum)
      ensures k == questionNum - 1
    {
      BoxIdInjective(k + 1, questionNum);
    }
    if 1 <= questionNum <= |cards| {
      assert IsBox(cards[questionNum - 1], questionNum);
    }
  }

  function Shown(p: Page): seq<bool>
  {
    seq(|p.cards|, k requires 0 <= k < |p.cards| => p.cards[k].shown)
  }

  /**
    Toggling the same answer twice restores every box's visibility, and the
    answered marks only grow.
   */
  lemma ToggleTwice(p: Page, questionNum: int, o1: Option<int>, s1: bool, o2: Option<int>, s2: bool)
    ensures Shown(ToggleAnswer(ToggleAnswer(p, questionNum, o1, s1), questionNum, o2, s2)) == Shown(p)
    ensures var r := ToggleAnswer(ToggleAnswer(p, questionNum, o1, s1), questionNum, o2, s2);
      forall k :: 0 <= k < |p.cards| ==> (p.cards[k].answered ==> r.cards[k].answered)
  {
  }

  lemma {:induction false} FindBoxFirst(cards: seq<Card>, questionNum: int, from: nat, k: nat)
    requires from <= k < |cards| && IsBox(cards[k], questionNum)
    requires forall m :: from <= m < k ==> !IsBox(cards[m], questionNum)
    ensures FindBox(cards, questionNum, from) == Some(k)
    decreases k - from
  {
    if from < k {
      FindBoxFirst(cards, questionNum, from + 1, k);
    }
  }

  // ---------------------------------------------------------------------------
  // The page invariant and user events
  // ---------------------------------------------------------------------------

  /** A card as freshly rendered: the view flags reset. */
  function Fresh(c: Card): Card
  {
    c.(shown := false, answered := false)
  }

  /**
    What the page shows always agrees with the cursor: the cursor is a valid
    index (when there is any scenario), the header and cards are that
    scenario's up to the view flags, and the buttons follow the cursor.
   */
  predicate Consistent(sc: seq<Scenario>, p: Page)
  {
    && p.totalLabel == Some(|sc|)
    && ButtonsShow(p.nav, p.cursor, |sc|)
    && (|sc| == 0 ==> p.cursor == 0 && p.header.None? && p.cards == [])
    && (|sc| > 0 ==>
          && 0 <= p.cursor < |sc|
          && p.header == Some(HeaderFor(sc[p.cursor], p.cursor))
          && |p.cards| == |sc[p.cursor].questions|
          && forall k :: 0 <= k < |p.cards| ==> Fresh(p.cards[k]) == CreateCard(sc[p.cursor].questions[k], k + 1))
  }

  /** The user actions wired in the page: the two navigation buttons, a "Show Answer" click, a radio change. */
  datatype Event =
    | NextClicked
    | PreviousClicked
    | ShowAnswerClicked(questionNum: int)
    | OptionChanged(questionNum: int, optionIndex: int)

  /**
    The handler each event runs. A radio's `onchange` fires when it becomes
    checked, so its `this.checked` argument is `true`. A radio change acts
    exactly like a "Show Answer" click on the same question; navigation moves
    the cursor by at most one and hides every answer when it moves.
   */
  function Handle(sc: seq<Scenario>, p: Page, e: Event): (r: Page)
    ensures e.NextClicked? ==> r == p || (r.cursor == p.cursor + 1 && AllHidden(r.cards))
    ensures e.PreviousClicked? ==> r == p || (r.cursor == p.cursor - 1 && AllHidden(r.cards))
    ensures e.ShowAnswerClicked? || e.OptionChanged? ==>
      r.cursor == p.cursor && r.header == p.header && r.nav == p.nav && |r.cards| == |p.cards|
    ensures e.OptionChanged? ==> r == ToggleAnswer(p, e.questionNum, None, true)
  {
    match e
    case NextClicked => NextScenario(sc, p)
    case PreviousClicked => PreviousScenario(sc, p)
    case ShowAnswerClicked(n) => ToggleAnswer(p, n, None, true)
    case OptionChanged(n, k) => ToggleAnswer(p, n, Some(k), true)
  }

  function Run(sc: seq<Scenario>, p: Page, events: seq<Event>): Page
    decreases |events|
  {
    if events == [] then p else Run(sc, Handle(sc, p, events[0]), events[1..])
  }

  lemma BootConsistent(sc: seq<Scenario>)
    ensures Consistent(sc, Boot(sc))
  {
  }

  lemma LoadConsistent(sc: seq<Scenario>, p: Page, index: int)
    requires Consistent(sc, p)
    ensures Consistent(sc, LoadScenario(sc, p, index))
  {
  }

  lemma ToggleConsistent(sc: seq<Scenario>, p: Page, questionNum: int, optionIndex: Option<int>, show: bool)
    requires Consistent(sc, p)
    ensures Consistent(sc, ToggleAnswer(p, questionNum, optionIndex, show))
  {
  }

  lemma NextConsistent(sc: seq<Scenario>, p: Page)
    requires Consistent(sc, p)
    ensures Consistent(sc, NextScenario(sc, p))
  {
    if p.cursor < |sc| - 1 {
      LoadConsistent(sc, p, p.cursor + 1);
    }
  }

  lemma PreviousConsistent(sc: seq<Scenario>, p: Page)
    requires Consistent(sc, p)
    ensures Consistent(sc, PreviousScenario(sc, p))
  {
    if p.cursor > 0 {
      LoadConsistent(sc, p, p.cursor - 1);
    }
  }

  /** Each handler keeps the page consistent. */
  lemma HandleConsistent(sc: seq<Scenario>, p: Page, e: Event)
    requires Consistent(sc, p)
    ensures Consistent(sc, Handle(sc, p, e))
  {
    match e
    case NextClicked => NextConsistent(sc, p);
    case PreviousClicked => PreviousConsistent(sc, p);
    case ShowAnswerClicked(n) => ToggleConsistent(sc, p, n, None, true);
    case OptionChanged(n, k) => ToggleConsistent(sc, p, n, Some(k), true);
  }

  /**
    From page load on, whatever the user does, the page stays consistent; in
    particular the cursor always stays within [0, number of scenarios).
   */
  lemma {:induction false} RunConsistent(sc: seq<Scenario>, events: seq<Event>)
    ensures Consistent(sc, Run(sc, Boot(sc), events))
    ensures |sc| > 0 ==> 0 <= Run(sc, Boot(sc), events).cursor < |sc|
  {
    BootConsistent(sc);
    RunFromConsistent(sc, Boot(sc), events);
  }

  lemma {:induction false} RunFromConsistent(sc: seq<Scenario>, p: Page, events: seq<Event>)
    requires Consistent(sc, p)
    ensures Consistent(sc, Run(sc, p, events))
    decreases |events|
  {
    if events != [] {
      HandleConsistent(sc, p, events[0]);
      RunFromConsistent(sc, Handle(sc, p, events[0]), events[1..]);
    }
  }

  /** In a consistent page the answer box `answer-q` belongs to card q - 1, whenever that card has one. */
  lemma ConsistentBox(sc: seq<Scenario>, p: Page, questionNum: int)
    requires Consistent(sc, p) && |sc| > 0
    requires 1 <= questionNum <= |p.cards| && HasAnswerBox(p.cards[questionNum - 1])
    ensures FindBox(p.cards, questionNum, 0) == Some(questionNum - 1)
  {
    var i := questionNum - 1;
    assert Fresh(p.cards[i]) == CreateCard(sc[p.cursor].questions[i], questionNum);
    forall m | 0 <= m < i
      ensures !IsBox(p.cards[m], questionNum)
    {
      assert Fresh(p.cards[m]) == CreateCard(sc[p.cursor].questions[m], m + 1);
      BoxIdInjective(m + 1, questionNum);
    }
    FindBoxFirst(p.cards, questionNum, 0, i);
  }

  /**
    On a multiple-choice question whose answer is hidden, choosing an option
    reveals it and then choosing another option hides it again: every radio
    change flips the box, whichever option it selects.
   */
  lemma SecondChoiceHidesAnswer(sc: seq<Scenario>, p: Page, questionNum: int, j: int, k: int)
    requires Consistent(sc, p) && |sc| > 0
    requires 1 <= questionNum <= |p.cards|
    requires sc[p.cursor].questions[questionNum - 1].MultipleChoice?
    requires !p.cards[questionNum - 1].shown
    ensures var p1 := Handle(sc, p, OptionChanged(questionNum, j));
      && |p1.cards| == |p.cards| && p1.cards[questionNum - 1].shown
      && var p2 := Handle(sc, p1, OptionChanged(questionNum, k));
      |p2.cards| == |p.cards| && !p2.cards[questionNum - 1].shown
  {
    var i := questionNum - 1;
    assert Fresh(p.cards[i]) == CreateCard(sc[p.cursor].questions[i], questionNum);
    ConsistentBox(sc, p, questionNum);
    var p1 := Handle(sc, p, OptionChanged(questionNum, j));
    ToggleConsistent(sc, p, questionNum, Some(j), true);
    ConsistentBox(sc, p1, questionNum);
  }
}
