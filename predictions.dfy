/** The mock prediction endpoints: POST picks a canned prediction by report type, GET echoes a prediction id. */
module Predictions {
  import opened Common

  datatype Prediction = Prediction(
    confidence: real,
    diagnosis: seq<string>,
    probability: seq<(string, real)>,
    severity: string,
    keyFindings: seq<string>)

  const Cbc := Prediction(
    92.5,
    ["Severe Aplastic Anemia", "Pancytopenia"],
    [("Severe Aplastic Anemia", 92.5), ("Moderate Aplastic Anemia", 7.2), ("MDS", 0.3)],
    "high",
    ["WBC count significantly below normal range",
     "Hemoglobin levels indicate severe anemia",
     "Platelet count suggests high bleeding risk",
     "Pattern consistent with bone marrow failure"])

  const Biopsy := Prediction(
    96.8,
    ["Severe Aplastic Anemia"],
    [("Severe Aplastic Anemia", 96.8), ("Hypoplastic MDS", 2.8), ("Drug-induced aplasia", 0.4)],
    "high",
    ["Bone marrow cellularity <20%",
     "Absence of abnormal cell populations",
     "No evidence of infiltrative disease",
     "Consistent with severe aplastic anemia"])

  const Recommendations: seq<string> := [
    "Immediate hematology consultation required",
    "Consider immunosuppressive therapy vs. stem cell transplant evaluation",
    "Implement strict infection precautions",
    "Monitor for bleeding complications",
    "Family HLA typing for potential donors"]

  const AdditionalTests: seq<string> := [
    "Bone marrow cytogenetics",
    "PNH flow cytometry",
    "Viral studies (EBV, CMV, Parvovirus B19)",
    "Vitamin B12 and folate levels",
    "HLA typing"]

  /** The property names every plain JavaScript object inherits from `Object.prototype`. */
  const InheritedNames: seq<string> := [
    "constructor", "hasOwnProperty", "isPrototypeOf", "propertyIsEnumerable", "toLocaleString", "toString",
    "valueOf", "__proto__", "__defineGetter__", "__defineSetter__", "__lookupGetter__", "__lookupSetter__"]

  /** The JSON body's `fileId` and `reportType`, or `Unparsable` for a body that is not JSON or is the JSON literal
      `null` (destructuring `null` throws into the catch, unlike an object that lacks the fields). */
  datatype Request = Unparsable | Json(fileId: Option<string>, reportType: Option<string>)

  /** The fields of the response's `data` that depend on the request: the prediction's fields are optional
      because `JSON.stringify` drops those that are `undefined`. The random prediction id and the time are
      left out. */
  datatype Data = Data(
    fileId: string,
    confidence: Option<real>,
    diagnosis: Option<seq<string>>,
    probability: Option<seq<(string, real)>>,
    severity: Option<string>,
    keyFindings: Option<seq<string>>,
    recommendations: seq<string>,
    additionalTests: seq<string>)

  datatype Response = Failure(status: int, error: string) | Predicted(data: Data)

  const FileIdRequired := "File ID required"
  const PredictionFailed := "Prediction failed"

  function Report(fileId: string, p: Prediction): Data {
    Data(fileId, Some(p.confidence), Some(p.diagnosis), Some(p.probability), Some(p.severity), Some(p.keyFindings),
      Recommendations, AdditionalTests)
  }

  /** The prediction a report type selects: the biopsy one for `'biopsy'`, the CBC one for anything else. */
  function SelectPrediction(reportType: Option<string>): (p: Prediction)
    ensures reportType == Some("biopsy") ==> p == Biopsy
    ensures reportType != Some("biopsy") ==> p == Cbc
  {
    if reportType == Some("biopsy") then Biopsy else Cbc
  }

  /** `POST /api/predictions`, with the report type looked up among the table's own entries. */
  function Post(req: Request): Response {
    match req
    case Unparsable => Failure(500, PredictionFailed)
    case Json(fileId, reportType) =>
      if !Truthy(fileId) then Failure(400, FileIdRequired)
      else Predicted(Report(fileId.value, SelectPrediction(reportType)))
  }

  /** A body without a file id is refused; otherwise the response echoes the id, copies every field of the
      selected prediction, and carries the same two five-item lists whatever the type. */
  lemma PostOutcomes(req: Request)
    ensures req.Json? && !Truthy(req.fileId) ==> Post(req) == Failure(400, FileIdRequired)
    ensures Post(req).Predicted? <==> req.Json? && Truthy(req.fileId)
    ensures Post(req).Predicted? ==>
      var d := Post(req).data;
      var p := SelectPrediction(req.reportType);
      d.fileId == req.fileId.value
      && d.confidence == Some(p.confidence) && d.diagnosis == Some(p.diagnosis)
      && d.severity == Some(p.severity) && d.keyFindings == Some(p.keyFindings) && d.probability == Some(p.probability)
      && d.recommendations == Recommendations && d.additionalTests == AdditionalTests
      && |d.recommendations| == 5 && |d.additionalTests| == 5
      && d.severity == Some("high")
  {
  }

  // ---------------------------------------------------------------- the lookup as written

  /** `mockPredictions[reportType]` on a plain object: an own entry, an inherited member (a function or the
      prototype itself, both truthy but without the prediction's fields), or `undefined`. */
  datatype Lookup = Own(prediction: Prediction) | Inherited(name: string) | Undefined

  function LookupAsWritten(reportType: Option<string>): Lookup {
    if reportType == Some("cbc") then Own(Cbc)
    else if reportType == Some("biopsy") then Own(Biopsy)
    else if reportType.Some? && reportType.value in InheritedNames then Inherited(reportType.value)
    else Undefined
  }

  /** `lookup || mockPredictions.cbc`, then the fields read off the result. */
  function ReportAsWritten(fileId: string, reportType: Option<string>): Data {
    match LookupAsWritten(reportType)
    case Own(p) => Report(fileId, p)
    case Undefined => Report(fileId, Cbc)
    case Inherited(_) => Data(fileId, None, None, None, None, None, Recommendations, AdditionalTests)
  }

  function PostAsWritten(req: Request): Response {
    match req
    case Unparsable => Failure(500, PredictionFailed)
    case Json(fileId, reportType) =>
      if !Truthy(fileId) then Failure(400, FileIdRequired)
      else Predicted(ReportAsWritten(fileId.value, reportType))
  }

  /** As written, a report type that names an inherited member, such as `'constructor'`, slips past the fallback:
      the response then carries no confidence, diagnosis or severity at all. */
  lemma InheritedNameLosesPrediction(fileId: string)
    requires fileId != ""
    ensures PostAsWritten(Json(Some(fileId), Some("constructor"))).data.diagnosis == None
    ensures PostAsWritten(Json(Some(fileId), Some("constructor"))).data.confidence == None
    ensures Post(Json(Some(fileId), Some("constructor"))).data.diagnosis == Some(Cbc.diagnosis)
  {
    assert InheritedNames[0] == "constructor";
  }

  /** Away from the inherited names, the lookup as written and the corrected selection agree. */
  lemma AsWrittenAgreesElsewhere(req: Request)
    requires req.Json? && req.reportType.Some? ==> req.reportType.value !in InheritedNames
    ensures PostAsWritten(req) == Post(req)
  {
  }

  // ---------------------------------------------------------------- retrieval

  datatype Retrieved = Retrieved(predictionId: string, status: string, confidence: real, diagnosis: seq<string>, severity: string)

  datatype GetResponse = GetFailure(httpStatus: int, error: string) | Found(data: Retrieved)

  const PredictionIdRequired := "Prediction ID required"

  /** `GET /api/predictions?id=...`: the `id` query parameter, absent or present. */
  function Get(id: Option<string>): GetResponse {
    if !Truthy(id) then GetFailure(400, PredictionIdRequired)
    else Found(Retrieved(id.value, "completed", 92.5, ["Severe Aplastic Anemia", "Pancytopenia"], "high"))
  }

  /** Any non-empty id is reported completed with the CBC prediction's confidence, diagnosis and severity. */
  lemma GetOutcomes(id: Option<string>)
    ensures Get(id).Found? <==> Truthy(id)
    ensures !Truthy(id) ==> Get(id) == GetFailure(400, PredictionIdRequired)
    ensures Get(id).Found? ==>
      Get(id).data.predictionId == id.value && Get(id).data.status == "completed"
      && Get(id).data.confidence == Cbc.confidence && Get(id).data.diagnosis == Cbc.diagnosis
      && Get(id).data.severity == Cbc.severity
  {
  }
}
