/**
  The content of the practice page: scenarios with their questions, causal
  structure, identifiable elements and regression advice, together with the
  well-formedness conditions the renderer and the answer records rely on.
 */
module Content {
  import opened Wrappers

  /**
    A question as the renderer dispatches on it. The records carry a `type`
    string: "short" becomes `Short`, "multiple-choice" becomes `MultipleChoice`,
    and a record with any other `type` is kept as `Unrecognised` with that
    string; the renderer gives it an empty card.
   */
  datatype Question =
    | Short(id: int, prompt: string, hint: Option<string>, answer: string)
    | MultipleChoice(id: int, prompt: string, options: seq<string>, correctAnswer: int, explanation: string)
    | Unrecognised(id: int, kind: string, prompt: string)

  /** `if (question.hint)`: a hint is shown only when present and non-empty. */
  predicate HasHint(q: Question)
  {
    q.Short? && q.hint.Some? && q.hint.value != ""
  }

  datatype CausalStructure = CausalStructure(description: string, arrows: seq<string>, explanation: string)

  /** The three named roles; a role that does not occur is spelled "None". */
  datatype Elements = Elements(mediator: string, confounder: string, collider: string)

  datatype Recommended = Recommended(spec: string, interpretation: string, uses: string)
  datatype Mistaken = Mistaken(spec: string, interpretation: string, problem: string)
  datatype RegressionAdvice = RegressionAdvice(correct: seq<Recommended>, incorrect: seq<Mistaken>)

  datatype Scenario = Scenario(
    id: int,
    title: string,
    subtitle: string,
    story: string,
    variables: seq<string>,
    causalStructure: CausalStructure,
    questions: seq<Question>,
    identifiableElements: Elements,
    regressionAdvice: RegressionAdvice)

  // ---------------------------------------------------------------------------
  // Arrows "A → B"
  // ---------------------------------------------------------------------------

  const Separator: string := " → "

  function FormatArrow(source: string, target: string): string
  {
    source + Separator + target
  }

  predicate SeparatorStartsAt(s: string, k: nat)
  {
    k + |Separator| <= |s| && s[k..k + |Separator|] == Separator
  }

  /** The first position at or after `from` where the separator starts, if any. */
  function SeparatorAt(s: string, from: nat): (r: Option<nat>)
    ensures r.Some? ==> from <= r.value && SeparatorStartsAt(s, r.value)
    ensures r.Some? ==> forall k :: from <= k < r.value ==> !SeparatorStartsAt(s, k)
    ensures r.None? ==> forall k :: from <= k ==> !SeparatorStartsAt(s, k)
    decreases |s| - from
  {
    if from + |Separator| > |s| then None
    else if SeparatorStartsAt(s, from) then Some(from)
    else SeparatorAt(s, from + 1)
  }

  /** Splits an arrow at its first separator into its two endpoints. */
  function ParseArrow(s: string): (r: Option<(string, string)>)
    ensures r.Some? ==> s == FormatArrow(r.value.0, r.value.1)
  {
    match SeparatorAt(s, 0)
    case None => None
    case Some(k) =>
      assert s == s[..k] + s[k..k + |Separator|] + s[k + |Separator|..];
      Some((s[..k], s[k + |Separator|..]))
  }

  /** An arrow whose source names no '→' parses back into its endpoints. */
  lemma ParseFormatArrow(source: string, target: string)
    requires '→' !in source
    ensures ParseArrow(FormatArrow(source, target)) == Some((source, target))
  {
    var s := FormatArrow(source, target);
    var n := |source|;
    assert s[n..n + |Separator|] == Separator;
    forall k | 0 <= k < n
      ensures !SeparatorStartsAt(s, k)
    {
      if k + 1 < n {
        assert s[k + 1] == source[k + 1];
      } else {
        assert s[k + 1] == ' ';
      }
      assert s[k..k + |Separator|][1] == s[k + 1];
    }
    assert SeparatorStartsAt(s, n);
    SeparatorAtFirst(s, 0, n);
    assert SeparatorAt(s, 0) == Some(n);
    assert s[..n] == source;
    assert s[n + |Separator|..] == target;
  }

  /** The search returns a position where the separator starts and before which it does not. */
  lemma SeparatorAtFirst(s: string, from: nat, n: nat)
    requires from <= n && SeparatorStartsAt(s, n)
    requires forall k :: from <= k < n ==> !SeparatorStartsAt(s, k)
    ensures SeparatorAt(s, from) == Some(n)
    decreases n - from
  {
    if from < n {
      SeparatorAtFirst(s, from + 1, n);
    }
  }

  // ---------------------------------------------------------------------------
  // Well-formedness
  // ---------------------------------------------------------------------------

  /** The renderer's dispatch covers the question, and its own fields are usable. */
  predicate WellFormedQuestion(q: Question)
  {
    match q
    case Short(_, _, _, answer) => HasHint(q) && answer != ""
    case MultipleChoice(_, _, options, correct, _) => 0 <= correct < |options|
    case Unrecognised(_, _, _) => false
  }

  predicate ArrowDeclared(arrow: string, variables: seq<string>)
  {
    match ParseArrow(arrow)
    case None => false
    case Some((a, b)) => a in variables && b in variables
  }

  predicate AllArrowsDeclared(arrows: seq<string>, variables: seq<string>)
  {
    forall k :: 0 <= k < |arrows| ==> ArrowDeclared(arrows[k], variables)
  }

  /** Every arrow of the scenario's causal structure joins two of its declared variables. */
  predicate ArrowsDeclared(s: Scenario)
  {
    AllArrowsDeclared(s.causalStructure.arrows, s.variables)
  }

  /** Questions are numbered 1, 2, 3: a short question followed by two multiple-choice ones. */
  predicate StandardQuestionShape(s: Scenario)
  {
    && |s.questions| == 3
    && (forall k :: 0 <= k < 3 ==> s.questions[k].id == k + 1)
    && s.questions[0].Short?
    && s.questions[1].MultipleChoice?
    && s.questions[2].MultipleChoice?
  }

  predicate AdviceBalanced(s: Scenario)
  {
    |s.regressionAdvice.correct| >= 1 && |s.regressionAdvice.incorrect| >= 1
  }

  predicate WellFormedScenario(s: Scenario)
  {
    && (forall k :: 0 <= k < |s.questions| ==> WellFormedQuestion(s.questions[k]))
    && StandardQuestionShape(s)
    && ArrowsDeclared(s)
    && AdviceBalanced(s)
  }

  /** The content store: scenario i (0-based) has id i + 1 and every scenario is well formed. */
  predicate WellFormedContent(scenarios: seq<Scenario>)
  {
    forall i :: 0 <= i < |scenarios| ==> scenarios[i].id == i + 1 && WellFormedScenario(scenarios[i])
  }

  /** Exactly one role is named, and it is `name` in role `role` (0 mediator, 1 confounder, 2 collider). */
  predicate SingleRole(e: Elements, role: nat, name: string)
  {
    var names := [e.mediator, e.confounder, e.collider];
    && role < 3
    && names[role] == name && name != "None"
    && forall k :: 0 <= k < 3 && k != role ==> names[k] == "None"
  }
}
