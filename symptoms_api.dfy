/** The symptom-assessment endpoint: validates the `symptoms` array, scores it and picks urgency and advice. */
module SymptomsApi {
  import opened RiskScoring
  import SymptomChecker
  import opened Common

  /** The `symptoms` member of the request body as the guard sees it. */
  datatype SymptomsField = Missing | NotAnArray | AnArray(ids: seq<string>)

  /** `await request.json()`: a body that is not JSON throws and lands in the catch, and so does the JSON literal
      `null`, whose destructuring throws; both are `Unparsable`. `severities` and `durations` are read from the body
      but never used, so they are not part of it here. */
  datatype Request = Unparsable | Json(symptoms: SymptomsField)

  datatype Response =
    | Failure(status: int, error: string)
    | Assessed(riskScore: int, riskLevel: RiskLevel, urgency: string, recommendations: seq<string>)

  const RouteHighRecommendations: seq<string> := [
    "Seek immediate medical attention from a hematologist",
    "Complete blood count (CBC) with differential urgently needed",
    "Consider emergency department visit if experiencing fever or severe bleeding",
    "Avoid activities that could cause injury or bleeding",
    "Monitor for signs of infection and seek care immediately if fever develops"]

  const RouteMediumRecommendations: seq<string> := [
    "Schedule appointment with your primary care physician within 1-2 weeks",
    "Request complete blood count (CBC) to evaluate blood cell levels",
    "Keep a symptom diary to track changes",
    "Avoid taking aspirin or blood-thinning medications",
    "Practice good hygiene to prevent infections"]

  const RouteLowRecommendations: seq<string> := [
    "Continue monitoring symptoms and note any changes",
    "Maintain a healthy lifestyle with adequate rest",
    "Consider routine blood work at your next physical exam",
    "Contact healthcare provider if symptoms worsen",
    "Stay up to date with preventive care"]

  /** The urgency the level maps to; it starts as `'routine'` and only high and medium change it. */
  function Urgency(level: RiskLevel): (u: string)
    ensures level == High ==> u == "urgent"
    ensures level == Medium ==> u == "soon"
    ensures level == Low ==> u == "routine"
  {
    if level == High then "urgent" else if level == Medium then "soon" else "routine"
  }

  /** Different levels never share an urgency, so the urgency alone tells the level. */
  lemma UrgencyDistinguishesLevels(a: RiskLevel, b: RiskLevel)
    ensures Urgency(a) == Urgency(b) <==> a == b
  {
    assert "urgent"[0] != "soon"[0] && "soon"[0] != "routine"[0] && "urgent"[0] != "routine"[0];
  }

  function RouteRecommendations(level: RiskLevel): seq<string> {
    if level == High then RouteHighRecommendations
    else if level == Medium then RouteMediumRecommendations
    else RouteLowRecommendations
  }

  /** The endpoint carries its own copy of the advice lists, word for word those of the symptom-checker page. */
  lemma RouteListsMatchPage(level: RiskLevel)
    ensures RouteRecommendations(level) == SymptomChecker.Recommendations(level)
    ensures |RouteRecommendations(level)| == 5
  {
  }

  /** `POST /api/symptoms`. */
  function Post(req: Request): (r: Response)
    ensures req.Unparsable? ==> r == Failure(500, "Assessment failed")
    ensures req.Json? && !req.symptoms.AnArray? ==> r == Failure(400, "Invalid symptoms data")
  {
    match req
    case Unparsable => Failure(500, "Assessment failed")
    case Json(Missing) => Failure(400, "Invalid symptoms data")
    case Json(NotAnArray) => Failure(400, "Invalid symptoms data")
    case Json(AnArray(ids)) =>
      var score := RiskScore(ids, None);
      var level := GetRiskLevel(score);
      Assessed(score, level, Urgency(level), RouteRecommendations(level))
  }

  /** A request with a symptoms array, the empty one included, is always assessed: the score is in [0, 100] and
      is the ids' score without lab values, the level is the score's level, and the advice is the page's list for
      that level. Any other request is refused. */
  lemma PostCorrect(req: Request)
    ensures Post(req).Assessed? <==> req.Json? && req.symptoms.AnArray?
    ensures Post(req).Assessed? ==>
      0 <= Post(req).riskScore <= 100
      && Post(req).riskScore == RiskScore(req.symptoms.ids, None)
      && Post(req).riskLevel == GetRiskLevel(Post(req).riskScore)
      && Post(req).urgency == Urgency(Post(req).riskLevel)
      && Post(req).recommendations == SymptomChecker.Recommendations(Post(req).riskLevel)
  {
    if req.Json? && req.symptoms.AnArray? {
      ScoreBounds(req.symptoms.ids, None);
      RouteListsMatchPage(GetRiskLevel(RiskScore(req.symptoms.ids, None)));
    }
  }

  /** The endpoint and the page agree: the same ids give the same score, level and advice. */
  lemma PostAgreesWithPage(ids: seq<string>)
    ensures Post(Json(AnArray(ids))).riskScore == SymptomChecker.AssessmentFor(ids).score
    ensures Post(Json(AnArray(ids))).riskLevel == SymptomChecker.AssessmentFor(ids).level
    ensures Post(Json(AnArray(ids))).recommendations == SymptomChecker.AssessmentFor(ids).recommendations
  {
    RouteListsMatchPage(GetRiskLevel(RiskScore(ids, None)));
  }
}
