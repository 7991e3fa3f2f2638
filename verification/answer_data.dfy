/**
  The four answer records (js/practice-causality-answers.js), keeping their
  structured fields. The HTML explanations, regression write-ups and takeaways
  are display text and are not part of the model.
 */
module AnswerData {
  import opened Content
  import opened Answers
  import ScenarioData

  const CoffeeShopAnswers: AnswerRecord := AnswerRecord(
    scenarioId := 1,
    title := "Coffee Shop Chronicles",
    dagImage := "practice-causality/images/scenario1_dag.png",
    regressionAnalysis := [
      ("correct", AnalysisEntry(spec := "ExamScore ~ Coffee", isCorrect := true)),
      ("incorrect", AnalysisEntry(spec := "ExamScore ~ Coffee + Caffeine", isCorrect := false))
    ],
    identifiedElements := Elements(mediator := "Caffeine", confounder := "None", collider := "None"))

  const ClimbingTheLadderAnswers: AnswerRecord := AnswerRecord(
    scenarioId := 2,
    title := "Climbing the Ladder",
    dagImage := "practice-causality/images/scenario2_dag.png",
    regressionAnalysis := [
      ("incorrect", AnalysisEntry(spec := "Health ~ Education", isCorrect := false)),
      ("correct", AnalysisEntry(spec := "Health ~ Education + SES", isCorrect := true))
    ],
    identifiedElements := Elements(mediator := "None", confounder := "SES", collider := "None"))

  const HollywoodDreamsAnswers: AnswerRecord := AnswerRecord(
    scenarioId := 3,
    title := "Hollywood Dreams",
    dagImage := "practice-causality/images/scenario3_dag.png",
    regressionAnalysis := [
      ("correct", AnalysisEntry(spec := "HardWork ~ Talent (Full Population)", isCorrect := true)),
      ("incorrect", AnalysisEntry(spec := "HardWork ~ Talent (Success = 1 Only)", isCorrect := false))
    ],
    identifiedElements := Elements(mediator := "None", confounder := "None", collider := "Success"))

  const FromGenerationToGenerationAnswers: AnswerRecord := AnswerRecord(
    scenarioId := 4,
    title := "From Generation to Generation",
    dagImage := "practice-causality/images/scenario4_dag.png",
    regressionAnalysis := [
      ("incorrect", AnalysisEntry(spec := "CollegeAdmission ~ StudentResources", isCorrect := false)),
      ("correct", AnalysisEntry(spec := "CollegeAdmission ~ StudentResources + StudentAptitude + GPA", isCorrect := true))
    ],
    identifiedElements := Elements(
      mediator := "GPA",
      confounder := "StudentAptitude (for StudentResources effect)",
      collider := "None"))

  /** The array `scenarioAnswers`, in page order. */
  const ScenarioAnswers: seq<AnswerRecord> :=
    [CoffeeShopAnswers, ClimbingTheLadderAnswers, HollywoodDreamsAnswers, FromGenerationToGenerationAnswers]

  lemma CoffeeShopAnswersMatch()
    ensures RecordMatches(CoffeeShopAnswers, ScenarioData.CoffeeShopChronicles, 0)
  {
    assert Js.Decimal(1) == "1";
  }

  lemma ClimbingTheLadderAnswersMatch()
    ensures RecordMatches(ClimbingTheLadderAnswers, ScenarioData.ClimbingTheLadder, 1)
  {
    assert Js.Decimal(2) == "2";
  }

  lemma HollywoodDreamsAnswersMatch()
    ensures RecordMatches(HollywoodDreamsAnswers, ScenarioData.HollywoodDreams, 2)
  {
    assert Js.Decimal(3) == "3";
  }

  lemma FromGenerationToGenerationAnswersMatch()
    ensures RecordMatches(FromGenerationToGenerationAnswers, ScenarioData.FromGenerationToGeneration, 3)
  {
    assert Js.Decimal(4) == "4";
  }

  /**
    The answer records line up with the scenarios: four of them, record i with
    scenarioId i + 1, the same title and identified roles as scenario i, the
    diagram path built from the id, and `correct`/`incorrect` tagged true/false
    whichever of the two is written first.
   */
  lemma AnswersAligned()
    ensures AlignedWith(ScenarioAnswers, ScenarioData.Scenarios)
  {
    forall i | 0 <= i < |ScenarioAnswers|
      ensures RecordMatches(ScenarioAnswers[i], ScenarioData.Scenarios[i], i)
    {
      if i == 0 {
        CoffeeShopAnswersMatch();
      } else if i == 1 {
        ClimbingTheLadderAnswersMatch();
      } else if i == 2 {
        HollywoodDreamsAnswersMatch();
      } else {
        FromGenerationToGenerationAnswersMatch();
      }
    }
  }
}
