/**
  The question cards the page renders for a scenario, as a view description
  instead of HTML: card number, prompt, the radio buttons or the short-answer
  box, and the two view flags of a card (answer shown, show-answer button
  marked answered).
 */
module Render {
  import opened Wrappers
  import opened Js
  import opened Content

  /** `<input type="radio" id=… name=… value=…>` with its label text. */
  datatype Radio = Radio(id: string, group: string, value: int, text: string)

  datatype CardBody =
    | ChoiceBody(radios: seq<Radio>, explanation: string)
    | ShortBody(answer: string, hint: Option<string>)
    | EmptyBody

  datatype Card = Card(number: int, prompt: string, body: CardBody, shown: bool, answered: bool)

  /** Multiple-choice and short-answer cards carry an answer box `answer-<number>`; an unrecognised question does not. */
  predicate HasAnswerBox(c: Card)
  {
    !c.body.EmptyBody?
  }

  /** Only short-answer cards carry a "Show Answer" button. */
  predicate HasShowButton(c: Card)
  {
    c.body.ShortBody?
  }

  /** The button reads "Hide Answer" once the answer has been revealed, and never goes back. */
  function ShowButtonText(c: Card): string
    requires HasShowButton(c)
  {
    if c.answered then "Hide Answer" else "Show Answer"
  }

  function BoxId(n: int): string
  {
    "answer-" + Decimal(n)
  }

  /** Different question numbers give different answer-box ids. */
  lemma BoxIdInjective(m: int, n: int)
    ensures BoxId(m) == BoxId(n) <==> m == n
  {
    if BoxId(m) == BoxId(n) {
      assert Decimal(m) == BoxId(m)[7..] == BoxId(n)[7..] == Decimal(n);
      DecimalInjective(m, n);
    }
  }

  function GroupName(n: int): string
  {
    "q" + Decimal(n)
  }

  function OptionId(n: int, k: int): string
  {
    GroupName(n) + "-opt" + Decimal(k)
  }

  /** The radios for options `from..` of question `n`: one per option, valued by its index. */
  function Radios(options: seq<string>, n: int, from: nat): (r: seq<Radio>)
    requires from <= |options|
    ensures |r| == |options| - from
    ensures forall k :: 0 <= k < |r| ==> r[k].value == from + k && r[k].text == options[from + k]
    ensures forall k :: 0 <= k < |r| ==> r[k].group == GroupName(n) && r[k].id == OptionId(n, from + k)
    decreases |options| - from
  {
    if from == |options| then []
    else [Radio(OptionId(n, from), GroupName(n), from, options[from])] + Radios(options, n, from + 1)
  }

  /** The radios of one question have pairwise different ids. */
  lemma RadioIdsDistinct(options: seq<string>, n: int, j: int, k: int)
    requires 0 <= j < k < |options|
    ensures Radios(options, n, 0)[j].id != Radios(options, n, 0)[k].id
  {
    var r := Radios(options, n, 0);
    if r[j].id == r[k].id {
      var p := GroupName(n) + "-opt";
      assert Decimal(j) == r[j].id[|p|..];
      assert Decimal(k) == r[k].id[|p|..];
      DecimalInjective(j, k);
    }
  }

  /** One question card (`createQuestionCard` with its two body builders), answer hidden. */
  function CreateCard(q: Question, n: int): (c: Card)
    ensures c.number == n && c.prompt == q.prompt
    ensures !c.shown && !c.answered
    ensures c.body.ChoiceBody? <==> q.MultipleChoice?
    ensures c.body.ShortBody? <==> q.Short?
    ensures HasAnswerBox(c) <==> !q.Unrecognised?
    ensures q.MultipleChoice? ==> c.body.radios == Radios(q.options, n, 0) && c.body.explanation == q.explanation
    ensures q.Short? ==> c.body.answer == q.answer && (c.body.hint.Some? <==> HasHint(q))
    ensures q.Short? && c.body.hint.Some? ==> c.body.hint == q.hint
  {
    var body :=
      match q
      case MultipleChoice(_, _, options, _, explanation) => ChoiceBody(Radios(options, n, 0), explanation)
      case Short(_, _, hint, answer) => ShortBody(answer, if HasHint(q) then hint else None)
      case Unrecognised(_, _, _) => EmptyBody;
    Card(n, q.prompt, body, false, false)
  }

  /** The cards for questions `from..`, numbered from `from + 1` (`forEach` with `qIndex + 1`). */
  function CardsFrom(qs: seq<Question>, from: nat): (r: seq<Card>)
    requires from <= |qs|
    ensures |r| == |qs| - from
    ensures forall k :: 0 <= k < |r| ==> r[k] == CreateCard(qs[from + k], from + k + 1)
    decreases |qs| - from
  {
    if from == |qs| then [] else [CreateCard(qs[from], from + 1)] + CardsFrom(qs, from + 1)
  }

  predicate AllHidden(cards: seq<Card>)
  {
    forall k :: 0 <= k < |cards| ==> !cards[k].shown
  }

  /**
    `renderQuestions`: one card per question, in order, numbered 1..n, built
    from that question; every answer box starts hidden and no button is marked.
   */
  function RenderQuestions(s: Scenario): (cards: seq<Card>)
    ensures |cards| == |s.questions|
    ensures forall k :: 0 <= k < |cards| ==> cards[k].number == k + 1 && cards[k].prompt == s.questions[k].prompt
    ensures forall k :: 0 <= k < |cards| ==> cards[k] == CreateCard(s.questions[k], k + 1)
    ensures AllHidden(cards)
    ensures forall k :: 0 <= k < |cards| ==> !cards[k].answered
  {
    CardsFrom(s.questions, 0)
  }

  /** For well-formed content every card has an answer box: no question renders as an empty card. */
  lemma WellFormedCardsHaveBoxes(s: Scenario)
    requires WellFormedScenario(s)
    ensures forall k :: 0 <= k < |RenderQuestions(s)| ==> HasAnswerBox(RenderQuestions(s)[k])
  {
  }
}
