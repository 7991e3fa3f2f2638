/**
  The four scenarios of the practice page, transcribed field by field from the
  content array (js/practice-causality-data.js). The page never changes them.
 */
module ScenarioData {
  import opened Wrappers
  import opened Content

  /** Scenario 1: the mediator case. */
  const CoffeeShopChronicles: Scenario := Scenario(
    id := 1,
    title := "Coffee Shop Chronicles",
    subtitle := "Caffeine and Exam Success",
    story := "Meet Sarah, a graduate student who swears by her morning coffee ritual. Over the past semester, she's noticed something: the more coffee she drinks before her exams, the better she performs. But is it really the coffee itself that's helping? Or is there something about the caffeine that's the true ingredient for exam success? As she digs deeper into her data, she realizes the mechanism might be more nuanced than she thought. The coffee is just the vehicle—it's the caffeine coursing through her veins that's actually sharpening her focus and helping her ace those exams.",
    variables := [
      "Coffee",
      "Caffeine",
      "ExamScore"
    ],
    causalStructure := CausalStructure(
      description := "CAUSAL CHAIN (Mediator structure)",
      arrows := [
        "Coffee → Caffeine",
        "Caffeine → ExamScore"
      ],
      explanation := "Coffee doesn't directly affect exam scores; the effect flows through caffeine. Coffee → (causes) Caffeine → (causes) Exam Score."),
    questions := [
      Short(
        id := 1,
        prompt := "Draw the causal graph for this scenario. What variables affect what?",
        hint := Some("Think about whether coffee directly affects exam scores, or if there's an intermediate step."),
        answer := "Coffee → Caffeine → ExamScore (a chain/mediator structure)"),
      MultipleChoice(
        id := 2,
        prompt := "If you want to measure the TOTAL effect of coffee on exam scores, which regression should you use?",
        options := [
          "ExamScore ~ Coffee",
          "ExamScore ~ Coffee + Caffeine",
          "Caffeine ~ Coffee"
        ],
        correctAnswer := 0,
        explanation := "Use ExamScore ~ Coffee. This gives you the total effect including the pathway through caffeine. Controlling for the mediator (Caffeine) blocks the main causal pathway and makes the effect disappear!"),
      MultipleChoice(
        id := 3,
        prompt := "What type of causal structure is this? Identify the key element:",
        options := [
          "Confounder (fork)",
          "Mediator (chain)",
          "Collider",
          "Simple direct effect"
        ],
        correctAnswer := 1,
        explanation := "This is a CHAIN or MEDIATOR structure. Caffeine is the mechanism through which coffee affects exam scores. If you want the total effect, never control for mediators!")
    ],
    identifiableElements := Elements(
      mediator := "Caffeine",
      confounder := "None",
      collider := "None"),
    regressionAdvice := RegressionAdvice(
      correct := [
        Recommended(
          spec := "ExamScore ~ Coffee",
          interpretation := "Total effect of coffee on exam scores (including the pathway through caffeine)",
          uses := "When you want to know: Does coffee help with exam performance?")
      ],
      incorrect := [
        Mistaken(
          spec := "ExamScore ~ Coffee + Caffeine",
          interpretation := "WRONG: This controls for the mediator",
          problem := "Blocks the main causal pathway. The effect of coffee disappears because you've controlled for the mechanism!")
      ]))

  /** Scenario 2: the confounder case. */
  const ClimbingTheLadder: Scenario := Scenario(
    id := 2,
    title := "Climbing the Ladder",
    subtitle := "Wealth, Education, and Health",
    story := "David grew up in a wealthy suburb with excellent schools and top-tier healthcare facilities. His childhood friend Marcus, from the other side of town, had access to fewer educational resources and couldn't afford regular medical checkups. As they got older, David noticed something striking: people like him—well-educated and healthy—seemed to have a strong positive relationship between how many years they spent in school and how well they felt. But when David started studying this relationship scientifically, he realized he might be missing the bigger picture. What if the real reason educated people are healthier isn't because education itself makes you healthy, but because people with more money (and better family backgrounds) can afford both better education AND better healthcare?",
    variables := [
      "SES",
      "Education",
      "Health"
    ],
    causalStructure := CausalStructure(
      description := "CAUSAL FORK (Confounder structure)",
      arrows := [
        "SES → Education",
        "SES → Health"
      ],
      explanation := "SES is a common cause of both Education and Health. If we don't control for SES, we see a spurious positive correlation between Education and Health."),
    questions := [
      Short(
        id := 1,
        prompt := "Draw the causal graph. What is the relationship between these variables?",
        hint := Some("Think about whether both variables could be caused by the same underlying factor."),
        answer := "SES causes both Education and Health (fork/common cause structure)"),
      MultipleChoice(
        id := 2,
        prompt := "If you regress Health on Education WITHOUT controlling for SES, what will you find?",
        options := [
          "A strong positive relationship (education improves health)",
          "No relationship at all",
          "A negative relationship",
          "You can't tell without seeing the data"
        ],
        correctAnswer := 0,
        explanation := "You'll likely find a strong positive relationship. But this is SPURIOUS! It's not because education causes health. They both appear correlated because they share a common cause (SES). This is confounding."),
      MultipleChoice(
        id := 3,
        prompt := "Which regression is correct if you want to measure the true relationship between education and health?",
        options := [
          "Health ~ Education",
          "Health ~ Education + SES",
          "Health ~ SES",
          "Education ~ Health"
        ],
        correctAnswer := 1,
        explanation := "You MUST control for SES. By including SES in the regression, you remove the confounding effect and see the true relationship (or lack thereof) between education and health.")
    ],
    identifiableElements := Elements(
      mediator := "None",
      confounder := "SES",
      collider := "None"),
    regressionAdvice := RegressionAdvice(
      correct := [
        Recommended(
          spec := "Health ~ Education + SES",
          interpretation := "True relationship between education and health, controlling for the confounder",
          uses := "When you want to know: Does education itself improve health, independent of wealth?")
      ],
      incorrect := [
        Mistaken(
          spec := "Health ~ Education",
          interpretation := "WRONG: Ignores the confounder SES",
          problem := "This gives a biased, inflated estimate because SES affects both variables. The relationship appears stronger than it really is.")
      ]))

  /** Scenario 3: the collider case. */
  const HollywoodDreams: Scenario := Scenario(
    id := 3,
    title := "Hollywood Dreams",
    subtitle := "Talent, Hard Work, and Stardom",
    story := "Hollywood is full of aspiring actors, singers, and creators. Some are naturally gifted—they have that special something audiences can't look away from. Others are relentless grinders who work 16-hour days, perfect their craft obsessively, and never give up. Interestingly, in the general population of aspiring artists, talent and hard work are pretty independent—you can find lazy geniuses and determined folks with limited natural ability. But among those who actually make it big, something strange happens: successful people with less natural talent seem to be the hardest workers, while naturally gifted stars often coast on their abilities with less grind. This creates an apparent negative relationship between talent and hard work among the successful—but only because we're looking at the winners. Outside that select group, they're not related at all.",
    variables := [
      "Talent",
      "HardWork",
      "Success"
    ],
    causalStructure := CausalStructure(
      description := "COLLIDER structure",
      arrows := [
        "Talent → Success",
        "HardWork → Success"
      ],
      explanation := "Both Talent and Hard Work cause Success (they both point INTO the same variable). In the general population, they're independent. But among the successful, they become negatively correlated (collider bias)."),
    questions := [
      Short(
        id := 1,
        prompt := "Draw the causal graph. How do these variables relate to each other?",
        hint := Some("What causes success? How many different paths lead to it?"),
        answer := "Talent → Success ← HardWork (both point into Success - a collider)"),
      MultipleChoice(
        id := 2,
        prompt := "In the general population of all aspiring artists (successful and unsuccessful), what's the relationship between talent and hard work?",
        options := [
          "Strong positive (talented people work harder)",
          "Strong negative (talented people are lazy)",
          "No relationship / Independent",
          "It depends on the genre"
        ],
        correctAnswer := 2,
        explanation := "In the full population, talent and hard work are independent. They're two separate paths to success. But this changes when you condition on success..."),
      MultipleChoice(
        id := 3,
        prompt := "Among only the SUCCESSFUL artists, what happens to the relationship between talent and hard work?",
        options := [
          "They remain independent",
          "They become strongly positively correlated",
          "They become negatively correlated (talented stars work less)",
          "The relationship becomes random"
        ],
        correctAnswer := 2,
        explanation := "This is COLLIDER BIAS! Among the successful, talented people need to work less to make it, while less talented people must compensate with hard work. This creates a spurious negative relationship. The bias comes from conditioning on the collider (Success).")
    ],
    identifiableElements := Elements(
      mediator := "None",
      confounder := "None",
      collider := "Success"),
    regressionAdvice := RegressionAdvice(
      correct := [
        Recommended(
          spec := "HardWork ~ Talent (full population)",
          interpretation := "No relationship between talent and hard work",
          uses := "Shows the true population relationship"),
        Recommended(
          spec := "Success ~ Talent + HardWork",
          interpretation := "Both talent and hard work increase chances of success",
          uses := "Correct model of what causes success")
      ],
      incorrect := [
        Mistaken(
          spec := "HardWork ~ Talent (subset: Success = 1 only)",
          interpretation := "WRONG: Appears to show negative relationship",
          problem := "COLLIDER BIAS! By restricting to successful people only, you create spurious negative correlation. This is selection bias caused by conditioning on the collider.")
      ]))

  /** Scenario 4: the fork and chain case. */
  const FromGenerationToGeneration: Scenario := Scenario(
    id := 4,
    title := "From Generation to Generation",
    subtitle := "Family Legacy and Academic Success",
    story := "Emma comes from a family of academics. Her parents both have graduate degrees and have invested heavily in her education—tutoring programs, summer camps, and a home filled with books. Emma is also naturally bright, having inherited what seems like a genetic predisposition toward analytical thinking. By high school, Emma has an excellent GPA, which leads her to get accepted to a top university. Now researchers want to understand: is it the resources her parents provided that propelled Emma to success? Or is it her natural aptitude? Or her parents' education itself? The reality is messier: Emma's parents' education created a cascade effect, influencing both the resources available to her AND her innate abilities, both of which show up in her GPA, which then opens doors to college. Untangling this web of influence requires carefully thinking about what you measure and what you control for.",
    variables := [
      "ParentEducation",
      "StudentResources",
      "StudentAptitude",
      "GPA",
      "CollegeAdmission"
    ],
    causalStructure := CausalStructure(
      description := "COMPLEX structure combining Fork and Chain",
      arrows := [
        "ParentEducation → StudentResources",
        "ParentEducation → StudentAptitude",
        "StudentResources → GPA",
        "StudentAptitude → GPA",
        "GPA → CollegeAdmission"
      ],
      explanation := "ParentEducation is a confounder (fork) affecting both StudentResources and StudentAptitude. Both converge into GPA (chain). Then GPA is a mediator flowing to CollegeAdmission."),
    questions := [
      Short(
        id := 1,
        prompt := "Draw the causal graph. Identify all the pathways from ParentEducation to CollegeAdmission.",
        hint := Some("How many routes does parental education take to affect college admission?"),
        answer := "ParentEducation affects college admission through multiple paths: (1) via StudentResources → GPA → CollegeAdmission, and (2) via StudentAptitude → GPA → CollegeAdmission"),
      MultipleChoice(
        id := 2,
        prompt := "If you want to estimate the effect of StudentResources on college admission, which variables do you NEED to control for?",
        options := [
          "Nothing; just regress CollegeAdmission ~ StudentResources",
          "StudentAptitude (to control for confounding)",
          "GPA (to control for mediation)",
          "Both StudentAptitude and GPA"
        ],
        correctAnswer := 3,
        explanation := "StudentAptitude is a confounder of the StudentResources → CollegeAdmission relationship (both are caused by ParentEducation). GPA is the mediating pathway. You need both to isolate the true effect of resources."),
      MultipleChoice(
        id := 3,
        prompt := "Identify each causal structure present in this scenario:",
        options := [
          "Only a chain",
          "Only a fork",
          "A fork (confounding) and a chain (mediation)",
          "Multiple colliders"
        ],
        correctAnswer := 2,
        explanation := "This scenario has BOTH a fork and a chain. The fork is ParentEducation causing both StudentResources and StudentAptitude. The chain is StudentResources → GPA → CollegeAdmission (and StudentAptitude → GPA → CollegeAdmission).")
    ],
    identifiableElements := Elements(
      mediator := "GPA",
      confounder := "StudentAptitude (for StudentResources effect)",
      collider := "None"),
    regressionAdvice := RegressionAdvice(
      correct := [
        Recommended(
          spec := "CollegeAdmission ~ ParentEducation",
          interpretation := "Total effect of parental education on college admission (all pathways)",
          uses := "When you want to know: Does family background matter for college admission?"),
        Recommended(
          spec := "CollegeAdmission ~ StudentResources + StudentAptitude + GPA",
          interpretation := "Effect of resources on college admission, controlling for aptitude confounder and GPA mediator",
          uses := "When you want to isolate: Does money/resources help with college admission, independent of talent?")
      ],
      incorrect := [
        Mistaken(
          spec := "CollegeAdmission ~ StudentResources",
          interpretation := "WRONG: Confounded by StudentAptitude",
          problem := "StudentAptitude is a confounder—it's caused by ParentEducation and affects GPA. Ignoring it biases your estimate of the resources effect.")
      ]))

  /** The content array `scenarios`, in page order. */
  const Scenarios: seq<Scenario> := [CoffeeShopChronicles, ClimbingTheLadder, HollywoodDreams, FromGenerationToGeneration]
}
