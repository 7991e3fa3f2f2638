/**
  Facts about the page's content: the well-formedness conditions of `Content`
  hold of the four scenarios, and scenarios 1 to 3 each name a single causal role.
 */
module ScenarioFacts {
  import opened Content
  import opened ScenarioData

  /** An arrow written from two declared variables satisfies `ArrowDeclared`. */
  lemma DeclaredArrow(source: string, target: string, variables: seq<string>)
    requires '→' !in source
    requires source in variables && target in variables
    ensures ArrowDeclared(FormatArrow(source, target), variables)
  {
    ParseFormatArrow(source, target);
  }

  /** Every arrow of CoffeeShopChronicles joins two of its declared variables. */
  lemma CoffeeShopChroniclesArrows()
    ensures ArrowsDeclared(CoffeeShopChronicles)
  {
    var vs := ["Coffee", "Caffeine", "ExamScore"];
    var arrows := [
      "Coffee → Caffeine",
      "Caffeine → ExamScore"];
    assert CoffeeShopChronicles.variables == vs;
    assert CoffeeShopChronicles.causalStructure.arrows == arrows;
    forall k | 0 <= k < |arrows|
      ensures ArrowDeclared(arrows[k], vs)
    {
      if k == 0 {
        CoffeeShopChroniclesArrows0();
      } else {
        CoffeeShopChroniclesArrows1();
      }
    }
  }

  /** Arrow 0 of CoffeeShopChronicles, checked on the literal text. */
  lemma CoffeeShopChroniclesArrows0()
    ensures ArrowDeclared("Coffee → Caffeine", ["Coffee", "Caffeine", "ExamScore"])
  {
    assert "Coffee → Caffeine" == FormatArrow("Coffee", "Caffeine");
    DeclaredArrow("Coffee", "Caffeine", ["Coffee", "Caffeine", "ExamScore"]);
  }

  /** Arrow 1 of CoffeeShopChronicles, checked on the literal text. */
  lemma CoffeeShopChroniclesArrows1()
    ensures ArrowDeclared("Caffeine → ExamScore", ["Coffee", "Caffeine", "ExamScore"])
  {
    assert "Caffeine → ExamScore" == FormatArrow("Caffeine", "ExamScore");
    DeclaredArrow("Caffeine", "ExamScore", ["Coffee", "Caffeine", "ExamScore"]);
  }

  /** CoffeeShopChronicles satisfies every well-formedness condition. */
  lemma CoffeeShopChroniclesWellFormed()
    ensures WellFormedScenario(CoffeeShopChronicles)
  {
    CoffeeShopChroniclesArrows();
  }

  /** Every arrow of ClimbingTheLadder joins two of its declared variables. */
  lemma ClimbingTheLadderArrows()
    ensures ArrowsDeclared(ClimbingTheLadder)
  {
    var vs := ["SES", "Education", "Health"];
    var arrows := [
      "SES → Education",
      "SES → Health"];
    assert ClimbingTheLadder.variables == vs;
    assert ClimbingTheLadder.causalStructure.arrows == arrows;
    forall k | 0 <= k < |arrows|
      ensures ArrowDeclared(arrows[k], vs)
    {
      if k == 0 {
        ClimbingTheLadderArrows0();
      } else {
        ClimbingTheLadderArrows1();
      }
    }
  }

  /** Arrow 0 of ClimbingTheLadder, checked on the literal text. */
  lemma ClimbingTheLadderArrows0()
    ensures ArrowDeclared("SES → Education", ["SES", "Education", "Health"])
  {
    assert "SES → Education" == FormatArrow("SES", "Education");
    DeclaredArrow("SES", "Education", ["SES", "Education", "Health"]);
  }

  /** Arrow 1 of ClimbingTheLadder, checked on the literal text. */
  lemma ClimbingTheLadderArrows1()
    ensures ArrowDeclared("SES → Health", ["SES", "Education", "Health"])
  {
    assert "SES → Health" == FormatArrow("SES", "Health");
    DeclaredArrow("SES", "Health", ["SES", "Education", "Health"]);
  }

  /** ClimbingTheLadder satisfies every well-formedness condition. */
  lemma ClimbingTheLadderWellFormed()
    ensures WellFormedScenario(ClimbingTheLadder)
  {
    ClimbingTheLadderArrows();
  }

  /** Every arrow of HollywoodDreams joins two of its declared variables. */
  lemma HollywoodDreamsArrows()
    ensures ArrowsDeclared(HollywoodDreams)
  {
    var vs := ["Talent", "HardWork", "Success"];
    var arrows := [
      "Talent → Success",
      "HardWork → Success"];
    assert HollywoodDreams.variables == vs;
    assert HollywoodDreams.causalStructure.arrows == arrows;
    forall k | 0 <= k < |arrows|
      ensures ArrowDeclared(arrows[k], vs)
    {
      if k == 0 {
        HollywoodDreamsArrows0();
      } else {
        HollywoodDreamsArrows1();
      }
    }
  }

  /** Arrow 0 of HollywoodDreams, checked on the literal text. */
  lemma HollywoodDreamsArrows0()
    ensures ArrowDeclared("Talent → Success", ["Talent", "HardWork", "Success"])
  {
    assert "Talent → Success" == FormatArrow("Talent", "Success");
    DeclaredArrow("Talent", "Success", ["Talent", "HardWork", "Success"]);
  }

  /** Arrow 1 of HollywoodDreams, checked on the literal text. */
  lemma HollywoodDreamsArrows1()
    ensures ArrowDeclared("HardWork → Success", ["Talent", "HardWork", "Success"])
  {
    assert "HardWork → Success" == FormatArrow("HardWork", "Success");
    DeclaredArrow("HardWork", "Success", ["Talent", "HardWork", "Success"]);
  }

  /** HollywoodDreams satisfies every well-formedness condition. */
  lemma HollywoodDreamsWellFormed()
    ensures WellFormedScenario(HollywoodDreams)
  {
    HollywoodDreamsArrows();
  }

  /** Every arrow of FromGenerationToGeneration joins two of its declared variables. */
  lemma FromGenerationToGenerationArrows()
    ensures ArrowsDeclared(FromGenerationToGeneration)
  {
    var vs := ["ParentEducation", "StudentResources", "StudentAptitude", "GPA", "CollegeAdmission"];
    var arrows := [
      "ParentEducation → StudentResources",
      "ParentEducation → StudentAptitude",
      "StudentResources → GPA",
      "StudentAptitude → GPA",
      "GPA → CollegeAdmission"];
    assert FromGenerationToGeneration.variables == vs;
    assert FromGenerationToGeneration.causalStructure.arrows == arrows;
    forall k | 0 <= k < |arrows|
      ensures ArrowDeclared(arrows[k], vs)
    {
      if k == 0 {
        FromGenerationToGenerationArrows0();
      } else if k == 1 {
        FromGenerationToGenerationArrows1();
      } else if k == 2 {
        FromGenerationToGenerationArrows2();
      } else if k == 3 {
        FromGenerationToGenerationArrows3();
      } else {
        FromGenerationToGenerationArrows4();
      }
    }
  }

  /** Arrow 0 of FromGenerationToGeneration, checked on the literal text. */
  lemma FromGenerationToGenerationArrows0()
    ensures ArrowDeclared("ParentEducation → StudentResources", ["ParentEducation", "StudentResources", "StudentAptitude", "GPA", "CollegeAdmission"])
  {
    assert "ParentEducation → StudentResources" == FormatArrow("ParentEducation", "StudentResources");
    DeclaredArrow("ParentEducation", "StudentResources", ["ParentEducation", "StudentResources", "StudentAptitude", "GPA", "CollegeAdmission"]);
  }

  /** Arrow 1 of FromGenerationToGeneration, checked on the literal text. */
  lemma FromGenerationToGenerationArrows1()
    ensures ArrowDeclared("ParentEducation → StudentAptitude", ["ParentEducation", "StudentResources", "StudentAptitude", "GPA", "CollegeAdmission"])
  {
    assert "ParentEducation → StudentAptitude" == FormatArrow("ParentEducation", "StudentAptitude");
    DeclaredArrow("ParentEducation", "StudentAptitude", ["ParentEducation", "StudentResources", "StudentAptitude", "GPA", "CollegeAdmission"]);
  }

  /** Arrow 2 of FromGenerationToGeneration, checked on the literal text. */
  lemma FromGenerationToGenerationArrows2()
    ensures ArrowDeclared("StudentResources → GPA", ["ParentEducation", "StudentResources", "StudentAptitude", "GPA", "CollegeAdmission"])
  {
    assert "StudentResources → GPA" == FormatArrow("StudentResources", "GPA");
    DeclaredArrow("StudentResources", "GPA", ["ParentEducation", "StudentResources", "StudentAptitude", "GPA", "CollegeAdmission"]);
  }

  /** Arrow 3 of FromGenerationToGeneration, checked on the literal text. */
  lemma FromGenerationToGenerationArrows3()
    ensures ArrowDeclared("StudentAptitude → GPA", ["ParentEducation", "StudentResources", "StudentAptitude", "GPA", "CollegeAdmission"])
  {
    assert "StudentAptitude → GPA" == FormatArrow("StudentAptitude", "GPA");
    DeclaredArrow("StudentAptitude", "GPA", ["ParentEducation", "StudentResources", "StudentAptitude", "GPA", "CollegeAdmission"]);
  }

  /** Arrow 4 of FromGenerationToGeneration, checked on the literal text. */
  lemma FromGenerationToGenerationArrows4()
    ensures ArrowDeclared("GPA → CollegeAdmission", ["ParentEducation", "StudentResources", "StudentAptitude", "GPA", "CollegeAdmission"])
  {
    assert "GPA → CollegeAdmission" == FormatArrow("GPA", "CollegeAdmission");
    DeclaredArrow("GPA", "CollegeAdmission", ["ParentEducation", "StudentResources", "StudentAptitude", "GPA", "CollegeAdmission"]);
  }

  /** FromGenerationToGeneration satisfies every well-formedness condition. */
  lemma FromGenerationToGenerationWellFormed()
    ensures WellFormedScenario(FromGenerationToGeneration)
  {
    FromGenerationToGenerationArrows();
  }

  /**
    The content store is well formed: four scenarios numbered 1 to 4 in array
    order, every question of a kind the renderer dispatches on, every
    multiple-choice answer a valid option index, every short question with a
    hint and an answer, every arrow between declared variables, and advice with
    at least one correct and one incorrect regression.
   */
  lemma ScenariosWellFormed()
    ensures |Scenarios| == 4
    ensures WellFormedContent(Scenarios)
  {
    forall i | 0 <= i < |Scenarios|
      ensures Scenarios[i].id == i + 1 && WellFormedScenario(Scenarios[i])
    {
      if i == 0 {
        CoffeeShopChroniclesWellFormed();
      } else if i == 1 {
        ClimbingTheLadderWellFormed();
      } else if i == 2 {
        HollywoodDreamsWellFormed();
      } else {
        FromGenerationToGenerationWellFormed();
      }
    }
  }

  /** Scenario 1 names a single causal role: Caffeine, the mediator. */
  lemma CoffeeShopChroniclesRole()
    ensures SingleRole(Scenarios[0].identifiableElements, 0, "Caffeine")
  {
  }

  /** Scenario 2 names a single causal role: SES, the confounder. */
  lemma ClimbingTheLadderRole()
    ensures SingleRole(Scenarios[1].identifiableElements, 1, "SES")
  {
  }

  /** Scenario 3 names a single causal role: Success, the collider. */
  lemma HollywoodDreamsRole()
    ensures SingleRole(Scenarios[2].identifiableElements, 2, "Success")
  {
  }
}
