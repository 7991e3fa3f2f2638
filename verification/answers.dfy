/**
  The companion answer records (one per scenario) as far as their structured
  fields go: the scenario they belong to, its title, the diagram image path,
  the two tagged regression specifications and the identified causal roles.
 */
module Answers {
  import opened Wrappers
  import opened Js
  import opened Content

  datatype AnalysisEntry = AnalysisEntry(spec: string, isCorrect: bool)

  /**
    `regressionAnalysis` is an object literal whose `correct` and `incorrect`
    properties appear in either order; it is kept as its (key, entry) pairs in
    textual order and read with `Property`.
   */
  datatype AnswerRecord = AnswerRecord(
    scenarioId: int,
    title: string,
    dagImage: string,
    regressionAnalysis: seq<(string, AnalysisEntry)>,
    identifiedElements: Elements)

  /** Reading a property of an object literal: the last entry written with that key wins. */
  function Property(entries: seq<(string, AnalysisEntry)>, key: string): (r: Option<AnalysisEntry>)
    ensures r.None? <==> forall k :: 0 <= k < |entries| ==> entries[k].0 != key
    decreases |entries|
  {
    if entries == [] then None
    else if entries[|entries| - 1].0 == key then Some(entries[|entries| - 1].1)
    else
      assert forall k :: 0 <= k < |entries| - 1 ==> entries[..|entries| - 1][k] == entries[k];
      Property(entries[..|entries| - 1], key)
  }

  /** Entry k carries `key` and no later entry does. */
  predicate LastWithKey(entries: seq<(string, AnalysisEntry)>, key: string, k: int)
  {
    0 <= k < |entries| && entries[k].0 == key && forall m :: k < m < |entries| ==> entries[m].0 != key
  }

  /** `Property` returns exactly the entry of the last occurrence of the key. */
  lemma {:induction false} PropertyIsLast(entries: seq<(string, AnalysisEntry)>, key: string, k: int)
    requires LastWithKey(entries, key, k)
    ensures Property(entries, key) == Some(entries[k].1)
    decreases |entries|
  {
    if k < |entries| - 1 {
      var init := entries[..|entries| - 1];
      assert init[k] == entries[k];
      assert LastWithKey(init, key, k);
      PropertyIsLast(init, key, k);
    }
  }

  /** When a key occurs, it has a last occurrence. */
  lemma {:induction false} LastOccurrence(entries: seq<(string, AnalysisEntry)>, key: string, j: int) returns (k: int)
    requires 0 <= j < |entries| && entries[j].0 == key
    ensures LastWithKey(entries, key, k)
    decreases |entries| - j
  {
    if forall m :: j < m < |entries| ==> entries[m].0 != key {
      k := j;
    } else {
      var m :| j < m < |entries| && entries[m].0 == key;
      k := LastOccurrence(entries, key, m);
    }
  }

  /** Swapping two neighbouring entries with different keys changes no property: textual order is irrelevant. */
  lemma PropertyIgnoresOrder(before: seq<(string, AnalysisEntry)>, x: (string, AnalysisEntry), y: (string, AnalysisEntry), after: seq<(string, AnalysisEntry)>, key: string)
    requires x.0 != y.0
    ensures Property(before + [x, y] + after, key) == Property(before + [y, x] + after, key)
  {
    var s, t := before + [x, y] + after, before + [y, x] + after;
    var n := |before|;
    assert |s| == |t|;
    assert forall k :: 0 <= k < |s| && k != n && k != n + 1 ==> s[k] == t[k];
    assert s[n] == t[n + 1] && s[n + 1] == t[n];
    if j :| 0 <= j < |s| && s[j].0 == key {
      var k := LastOccurrence(s, key, j);
      var k' := if k == n then n + 1 else if k == n + 1 then n else k;
      assert t[k'] == s[k];
      assert LastWithKey(t, key, k');
      PropertyIsLast(s, key, k);
      PropertyIsLast(t, key, k');
    } else {
      assert forall k :: 0 <= k < |t| ==> t[k].0 != key by {
        forall k | 0 <= k < |t|
          ensures t[k].0 != key
        {
          var k' := if k == n then n + 1 else if k == n + 1 then n else k;
          assert t[k] == s[k'];
        }
      }
    }
  }

  /** Each record tags its `correct` specification as correct and its `incorrect` one as not. */
  predicate TaggedAnalysis(a: AnswerRecord)
  {
    && Property(a.regressionAnalysis, "correct").Some?
    && Property(a.regressionAnalysis, "correct").value.isCorrect
    && Property(a.regressionAnalysis, "incorrect").Some?
    && !Property(a.regressionAnalysis, "incorrect").value.isCorrect
  }

  const DagPrefix: string := "practice-causality/images/scenario"
  const DagSuffix: string := "_dag.png"

  /** The causal diagram of scenario `id`. */
  function DagImagePath(id: int): string
  {
    DagPrefix + Decimal(id) + DagSuffix
  }

  /** Different scenarios never share a diagram image. */
  lemma DagImagePathInjective(m: int, n: int)
    requires DagImagePath(m) == DagImagePath(n)
    ensures m == n
  {
    var a, b := DagImagePath(m), DagImagePath(n);
    assert Decimal(m) == a[|DagPrefix|..|a| - |DagSuffix|];
    assert Decimal(n) == b[|DagPrefix|..|b| - |DagSuffix|];
    DecimalInjective(m, n);
  }

  /**
    The answer records are index-aligned with the scenarios: same count, record
    i belongs to scenario i + 1, repeats its title and identified roles, points
    at that scenario's diagram, and tags its two regressions.
   */
  predicate AlignedWith(answers: seq<AnswerRecord>, scenarios: seq<Scenario>)
  {
    && |answers| == |scenarios|
    && forall i :: 0 <= i < |answers| ==> RecordMatches(answers[i], scenarios[i], i)
  }

  predicate RecordMatches(a: AnswerRecord, s: Scenario, i: int)
  {
    && a.scenarioId == i + 1
    && a.title == s.title
    && a.identifiedElements == s.identifiableElements
    && a.dagImage == DagImagePath(a.scenarioId)
    && TaggedAnalysis(a)
  }

  /** With well-formed content, record i refers back to the scenario whose id it carries. */
  lemma AlignedIds(answers: seq<AnswerRecord>, scenarios: seq<Scenario>, i: int)
    requires AlignedWith(answers, scenarios) && WellFormedContent(scenarios)
    requires 0 <= i < |answers|
    ensures answers[i].scenarioId == scenarios[i].id
    ensures forall j :: 0 <= j < |answers| && j != i ==> answers[j].dagImage != answers[i].dagImage
  {
    forall j | 0 <= j < |answers| && j != i
      ensures answers[j].dagImage != answers[i].dagImage
    {
      assert RecordMatches(answers[j], scenarios[j], j) && RecordMatches(answers[i], scenarios[i], i);
      if answers[j].dagImage == answers[i].dagImage {
        DagImagePathInjective(j + 1, i + 1);
      }
    }
  }
}
