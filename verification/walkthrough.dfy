/**
  The controller run on the page's own content: what the visitor sees at
  start-up, at the last scenario, and after a short walk through the scenarios.
 */
module Walkthrough {
  import opened Wrappers
  import opened Content
  import opened Render
  import opened Navigation
  import opened ScenarioData

  /** At start-up: scenario 1 of 4, "Previous" disabled, "Next Scenario →" enabled, all three cards with hidden answers. */
  lemma StartPage()
    ensures var p := Boot(Scenarios);
      && p.totalLabel == Some(4) && p.cursor == 0
      && p.header.Some? && p.header.value.counter == 1 && p.header.value.title == "Coffee Shop Chronicles"
      && p.nav.Some? && p.nav.value.prevDisabled && !p.nav.value.nextDisabled && p.nav.value.nextText == NextText
      && |p.cards| == 3 && AllHidden(p.cards)
  {
  }

  /** The same walk over any four scenarios: the cursor ends on index 2, showing that scenario. */
  lemma WalkOverFour(sc: seq<Scenario>)
    requires |sc| == 4
    ensures var p := Run(sc, Boot(sc), [NextClicked, NextClicked, NextClicked, PreviousClicked]);
      && p.cursor == 2 && p.header.Some? && p.header.value.counter == 3
      && p.header.value.title == sc[2].title
  {
  }

  /**
    Starting at the first scenario, three clicks on "Next" and one on
    "Previous" land on index 2, "Hollywood Dreams", counter 3.
   */
  lemma NextNextNextPrevious()
    ensures var p := Run(Scenarios, Boot(Scenarios), [NextClicked, NextClicked, NextClicked, PreviousClicked]);
      && p.cursor == 2 && p.header.Some? && p.header.value.counter == 3
      && p.header.value.title == "Hollywood Dreams"
  {
    WalkOverFour(Scenarios);
  }

  /** On the last scenario "Next" is disabled and reads "✓ Completed!", and clicking it changes nothing. */
  lemma LastPage(p: Page)
    requires Consistent(Scenarios, p) && p.cursor == 3
    ensures p.nav.value.nextDisabled && p.nav.value.nextText == CompletedText
    ensures Handle(Scenarios, p, NextClicked) == p
  {
  }
}
