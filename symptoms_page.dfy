/** The symptom-checker page: a selection list built in step 1, details edited in step 2, and an assessment shown
    in step 3. */
module SymptomChecker {
  import opened Common
  import opened Seqs
  import opened RiskScoring

  /** One selected symptom with the details the page collects for it. */
  datatype Selection = Selection(symptomId: string, severity: int, duration: string, notes: Option<string>)

  /** The details `updateSymptomDetails` is called with: a field name together with its new value. */
  datatype Detail = Severity(level: int) | Duration(period: string) | Notes(text: string)

  datatype Assessment = Assessment(score: int, level: RiskLevel, recommendations: seq<string>)

  const DefaultSeverity := 3
  const DefaultDuration := "1-2 weeks"

  // ---------------------------------------------------------------- selection list

  /** `isSymptomSelected`: some entry carries the id. */
  predicate IsSelected(sel: seq<Selection>, id: string) {
    exists i :: 0 <= i < |sel| && sel[i].symptomId == id
  }

  predicate UniqueIds(sel: seq<Selection>) {
    forall i, j :: 0 <= i < j < |sel| ==> sel[i].symptomId != sel[j].symptomId
  }

  function Ids(sel: seq<Selection>): (ids: seq<string>)
    ensures |ids| == |sel| && forall i :: 0 <= i < |sel| ==> ids[i] == sel[i].symptomId
  {
    seq(|sel|, i requires 0 <= i < |sel| => sel[i].symptomId)
  }

  function NotId(id: string): Selection -> bool {
    (s: Selection) => s.symptomId != id
  }

  /** `toggleSymptom`: a selected id is filtered out; an unselected one is appended with the default details. */
  function ToggleSelection(sel: seq<Selection>, id: string): seq<Selection> {
    if IsSelected(sel, id) then Filter(NotId(id), sel)
    else sel + [Selection(id, DefaultSeverity, DefaultDuration, None)]
  }

  /** Toggling flips the membership of that id and of no other id. */
  lemma ToggleFlips(sel: seq<Selection>, id: string, other: string)
    requires other != id
    ensures IsSelected(ToggleSelection(sel, id), id) <==> !IsSelected(sel, id)
    ensures IsSelected(ToggleSelection(sel, id), other) <==> IsSelected(sel, other)
  {
    var r := ToggleSelection(sel, id);
    if IsSelected(sel, id) {
      forall i | 0 <= i < |r| ensures r[i].symptomId != id {
        assert r[i] in r;
      }
      if IsSelected(sel, other) {
        var i :| 0 <= i < |sel| && sel[i].symptomId == other;
        assert sel[i] in sel;
        var j :| 0 <= j < |r| && r[j] == sel[i];
      }
      if IsSelected(r, other) {
        var i :| 0 <= i < |r| && r[i].symptomId == other;
        assert r[i] in r;
        var j :| 0 <= j < |sel| && sel[j] == r[i];
      }
    } else {
      assert r[|sel|].symptomId == id;
      if IsSelected(r, other) {
        var i :| 0 <= i < |r| && r[i].symptomId == other;
        assert sel[i] == r[i];
      }
      if IsSelected(sel, other) {
        var i :| 0 <= i < |sel| && sel[i].symptomId == other;
        assert r[i] == sel[i];
      }
    }
  }

  /** An id is appended only when absent, so the selected ids stay distinct. */
  lemma ToggleKeepsUnique(sel: seq<Selection>, id: string)
    requires UniqueIds(sel)
    ensures UniqueIds(ToggleSelection(sel, id))
  {
    if IsSelected(sel, id) {
      FilterIsSubsequence(NotId(id), sel);
      SubsequenceKeepsUnique(Filter(NotId(id), sel), sel);
    } else {
      var r := ToggleSelection(sel, id);
      forall i, j | 0 <= i < j < |r| ensures r[i].symptomId != r[j].symptomId {
        if j == |sel| { assert r[i] == sel[i]; } else { assert r[i] == sel[i] && r[j] == sel[j]; }
      }
    }
  }

  lemma {:induction false} SubsequenceKeepsUnique(a: seq<Selection>, b: seq<Selection>)
    requires IsSubsequence(a, b) && UniqueIds(b)
    ensures UniqueIds(a)
    decreases |b|
  {
    if a != [] && b != [] {
      if a[0] == b[0] {
        SubsequenceKeepsUnique(a[1..], b[1..]);
        forall j | 0 < j < |a| ensures a[0].symptomId != a[j].symptomId {
          SubsequenceMember(a[1..], b[1..], j - 1);
          var k :| 0 <= k < |b[1..]| && b[1..][k] == a[1..][j - 1];
          assert b[k + 1] == a[j];
        }
      } else {
        SubsequenceKeepsUnique(a, b[1..]);
      }
    }
  }

  lemma {:induction false} SubsequenceMember(a: seq<Selection>, b: seq<Selection>, i: int)
    requires IsSubsequence(a, b) && 0 <= i < |a|
    ensures a[i] in b
    decreases |b|
  {
    if a[0] == b[0] {
      if i > 0 { SubsequenceMember(a[1..], b[1..], i - 1); }
    } else {
      SubsequenceMember(a, b[1..], i);
    }
  }

  /** Toggling an unselected id twice gives back the original list: the appended entry is the only one removed. */
  lemma ToggleTwiceRestores(sel: seq<Selection>, id: string)
    requires !IsSelected(sel, id)
    ensures ToggleSelection(ToggleSelection(sel, id), id) == sel
  {
    var added := Selection(id, DefaultSeverity, DefaultDuration, None);
    var r := sel + [added];
    assert r[|sel|] == added;
    assert IsSelected(r, id);
    FilterConcat(NotId(id), sel, [added]);
    forall x | x in sel ensures NotId(id)(x) {
      var i :| 0 <= i < |sel| && sel[i] == x;
    }
    FilterAll(NotId(id), sel);
  }

  function ApplyDetail(s: Selection, d: Detail): Selection {
    match d
    case Severity(v) => s.(severity := v)
    case Duration(v) => s.(duration := v)
    case Notes(v) => s.(notes := Some(v))
  }

  /** `updateSymptomDetails`: the entries with the id get the new value in that one field. */
  function UpdateById(sel: seq<Selection>, id: string, d: Detail): (r: seq<Selection>)
    ensures |r| == |sel|
    ensures forall i :: 0 <= i < |sel| && sel[i].symptomId != id ==> r[i] == sel[i]
    ensures forall i :: 0 <= i < |sel| && sel[i].symptomId == id ==> r[i] == ApplyDetail(sel[i], d)
  {
    seq(|sel|, i requires 0 <= i < |sel| => if sel[i].symptomId == id then ApplyDetail(sel[i], d) else sel[i])
  }

  /** An update touches only the named field: the id and the two other fields stay as they were. */
  lemma UpdateChangesOneField(sel: seq<Selection>, id: string, d: Detail)
    ensures Ids(UpdateById(sel, id, d)) == Ids(sel)
    ensures forall i :: 0 <= i < |sel| ==>
      var r := UpdateById(sel, id, d)[i];
      (!d.Severity? ==> r.severity == sel[i].severity)
      && (!d.Duration? ==> r.duration == sel[i].duration)
      && (!d.Notes? ==> r.notes == sel[i].notes)
  {
  }

  // ---------------------------------------------------------------- assessment

  const HighRecommendations: seq<string> := [
    "Seek immediate medical attention from a hematologist",
    "Complete blood count (CBC) with differential urgently needed",
    "Consider emergency department visit if experiencing fever or severe bleeding",
    "Avoid activities that could cause injury or bleeding",
    "Monitor for signs of infection and seek care immediately if fever develops"]

  const MediumRecommendations: seq<string> := [
    "Schedule appointment with your primary care physician within 1-2 weeks",
    "Request complete blood count (CBC) to evaluate blood cell levels",
    "Keep a symptom diary to track changes",
    "Avoid taking aspirin or blood-thinning medications",
    "Practice good hygiene to prevent infections"]

  const LowRecommendations: seq<string> := [
    "Continue monitoring symptoms and note any changes",
    "Maintain a healthy lifestyle with adequate rest",
    "Consider routine blood work at your next physical exam",
    "Contact healthcare provider if symptoms worsen",
    "Stay up to date with preventive care"]

  /** The advice list for a level: one of three fixed lists of five. */
  function Recommendations(level: RiskLevel): (r: seq<string>)
    ensures |r| == 5
    ensures r == HighRecommendations <==> level == High
    ensures r == MediumRecommendations <==> level == Medium
    ensures r == LowRecommendations <==> level == Low
  {
    assert HighRecommendations[0] != MediumRecommendations[0] && HighRecommendations[0] != LowRecommendations[0];
    assert MediumRecommendations[0] != LowRecommendations[0];
    match level
    case High => HighRecommendations
    case Medium => MediumRecommendations
    case Low => LowRecommendations
  }

  /** What `generateRiskAssessment` produces for the selected ids: the symptom score without lab values, its level,
      and that level's advice. */
  function AssessmentFor(ids: seq<string>): Assessment {
    var score := RiskScore(ids, None);
    Assessment(score, GetRiskLevel(score), Recommendations(GetRiskLevel(score)))
  }

  /** The assessment's score is in [0, 100], its level is the score's level and it carries five recommendations. */
  lemma AssessmentConsistent(ids: seq<string>)
    ensures 0 <= AssessmentFor(ids).score <= 100
    ensures AssessmentFor(ids).level == GetRiskLevel(AssessmentFor(ids).score)
    ensures |AssessmentFor(ids).recommendations| == 5
  {
    ScoreBounds(ids, None);
  }

  /** Severity, duration and notes never reach the score: editing details leaves the assessment unchanged. */
  lemma AssessmentIgnoresDetails(sel: seq<Selection>, id: string, d: Detail)
    ensures AssessmentFor(Ids(UpdateById(sel, id, d))) == AssessmentFor(Ids(sel))
  {
    UpdateChangesOneField(sel, id, d);
  }

  // ---------------------------------------------------------------- page state

  class SymptomCheckerPage {
    var selected: seq<Selection>
    var step: int
    var assessment: Option<Assessment>

    /** Each handler below requires the step whose panel renders its control: the symptom cards and "Next" on
        step 1, the severity buttons, "Back" and "Generate Assessment" on step 2, and "Start New Assessment" on step 3. */
    predicate Valid()
      reads this
    {
      1 <= step <= 3 && UniqueIds(selected) && (step == 3 ==> assessment.Some?)
    }

    constructor ()
      ensures Valid()
      ensures selected == [] && step == 1 && assessment == None
    {
      selected := [];
      step := 1;
      assessment := None;
    }

    method Toggle(id: string)
      requires Valid() && step == 1
      modifies this
      ensures Valid()
      ensures selected == ToggleSelection(old(selected), id)
      ensures step == old(step) && assessment == old(assessment)
    {
      ToggleKeepsUnique(selected, id);
      selected := ToggleSelection(selected, id);
    }

    method UpdateDetails(id: string, d: Detail)
      requires Valid() && step == 2
      modifies this
      ensures Valid()
      ensures selected == UpdateById(old(selected), id, d)
      ensures step == old(step) && assessment == old(assessment)
    {
      UpdateChangesOneField(selected, id, d);
      selected := UpdateById(selected, id, d);
    }

    /** `generateRiskAssessment`: score the selected ids, pick the level and its advice, go to step 3. */
    method GenerateRiskAssessment()
      requires Valid() && step == 2
      modifies this
      ensures Valid()
      ensures assessment == Some(AssessmentFor(Ids(selected))) && step == 3
      ensures selected == old(selected)
    {
      var sel := selected;
      var ids := seq(|sel|, i requires 0 <= i < |sel| => sel[i].symptomId);
      assert ids == Ids(sel);
      var score := CalculateRiskScore(ids, None);
      var level := GetRiskLevel(score);
      var recommendations: seq<string>;
      if level == High {
        recommendations := HighRecommendations;
      } else if level == Medium {
        recommendations := MediumRecommendations;
      } else {
        recommendations := LowRecommendations;
      }
      assessment := Some(Assessment(score, level, recommendations));
      step := 3;
    }

    /** `resetAssessment`. */
    method Reset()
      requires Valid() && step == 3
      modifies this
      ensures Valid()
      ensures selected == [] && assessment == None && step == 1
    {
      selected := [];
      assessment := None;
      step := 1;
    }

    /** The "Next" button, which is disabled while nothing is selected. */
    method Next()
      requires Valid() && step == 1
      modifies this
      ensures Valid()
      ensures step == (if old(selected) != [] then 2 else old(step))
      ensures selected == old(selected) && assessment == old(assessment)
    {
      if selected != [] {
        step := 2;
      }
    }

    /** The "Back" button of step 2. */
    method Back()
      requires Valid() && step == 2
      modifies this
      ensures Valid()
      ensures step == 1 && selected == old(selected) && assessment == old(assessment)
    {
      step := 1;
    }
  }
}
