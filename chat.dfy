/** The chat endpoint: a keyword responder over the lower-cased message, first matching rule first. */
module Chat {
  import opened Common
  import opened Text

  const AnemiaReply := "Aplastic anemia is a rare but serious blood disorder where your bone marrow doesn't make enough new blood cells. This leads to low counts of red blood cells, white blood cells, and platelets. Early symptoms include fatigue, frequent infections, and easy bruising. Would you like me to help you assess your symptoms or explain your recent test results?"
  const CountReply := "Based on your recent CBC results, your blood counts show some concerning values. Your white blood cell count, hemoglobin, and platelet levels are all below normal ranges. This pattern is consistent with your aplastic anemia diagnosis. I recommend discussing these results with your hematologist. Would you like me to explain what each value means?"
  const SymptomReply := "Fatigue is one of the most common symptoms of aplastic anemia, caused by low red blood cell counts (anemia). Other symptoms to watch for include easy bruising, frequent infections, shortness of breath, and pale skin. If you're experiencing severe fatigue or new symptoms, please contact your healthcare provider. Would you like to use our symptom checker tool?"
  const TreatmentReply := "Treatment for aplastic anemia depends on the severity and your age. Options include immunosuppressive therapy (like ATG and cyclosporine) or stem cell transplantation. Your medical team will consider factors like your blood counts, age, and availability of donors. It's important to follow all treatment recommendations and report any side effects. Do you have specific questions about your treatment plan?"
  const DefaultReply := "I'm here to help you understand your condition and navigate your care. You can ask me about your test results, symptoms, treatment options, or general questions about aplastic anemia. How can I assist you today?"

  const Replies: seq<string> := [AnemiaReply, CountReply, SymptomReply, TreatmentReply, DefaultReply]

  predicate AboutAnemia(lower: string) {
    Contains(lower, "aplastic anemia") || Contains(lower, "bone marrow")
  }

  predicate AboutCounts(lower: string) {
    Contains(lower, "blood count") || Contains(lower, "cbc")
  }

  predicate AboutSymptoms(lower: string) {
    Contains(lower, "symptoms") || Contains(lower, "tired") || Contains(lower, "fatigue")
  }

  predicate AboutTreatment(lower: string) {
    Contains(lower, "treatment") || Contains(lower, "therapy")
  }

  /** `generateResponse`. */
  function GenerateResponse(message: string): string {
    var lower := Lower(message);
    if AboutAnemia(lower) then AnemiaReply
    else if AboutCounts(lower) then CountReply
    else if AboutSymptoms(lower) then SymptomReply
    else if AboutTreatment(lower) then TreatmentReply
    else DefaultReply
  }

  /** Letter case never changes the reply. */
  lemma ResponseIgnoresCase(message: string)
    ensures GenerateResponse(Lower(message)) == GenerateResponse(message)
  {
    LowerIdempotent(message);
  }

  /** The reply is always one of the five fixed texts, and each rule answers only when no earlier rule matched;
      the help text comes back exactly when no keyword occurs. */
  lemma ResponseRules(message: string)
    ensures GenerateResponse(message) in Replies
    ensures var l := Lower(message);
      (GenerateResponse(message) == AnemiaReply <==> AboutAnemia(l))
      && (GenerateResponse(message) == CountReply <==> !AboutAnemia(l) && AboutCounts(l))
      && (GenerateResponse(message) == SymptomReply <==> !AboutAnemia(l) && !AboutCounts(l) && AboutSymptoms(l))
      && (GenerateResponse(message) == TreatmentReply <==>
            !AboutAnemia(l) && !AboutCounts(l) && !AboutSymptoms(l) && AboutTreatment(l))
      && (GenerateResponse(message) == DefaultReply <==>
            !AboutAnemia(l) && !AboutCounts(l) && !AboutSymptoms(l) && !AboutTreatment(l))
  {
    RepliesDistinct();
  }

  lemma RepliesDistinct()
    ensures forall i, j :: 0 <= i < j < |Replies| ==> Replies[i] != Replies[j]
  {
    assert |AnemiaReply| == 351 && |CountReply| == 347 && |SymptomReply| == 360;
    assert |TreatmentReply| == 406 && |DefaultReply| == 211;
  }

  /** The `message` member: absent or falsy, a string, or a truthy non-string (on which `toLowerCase` throws). */
  datatype MessageField = NoMessage | Text(text: string) | NotText

  /** The JSON body, or `Unparsable` for one that is not JSON or is the JSON literal `null` (destructuring `null`
      throws into the catch); the context is any JSON value, `None` standing for a falsy one. */
  datatype Request<C> = Unparsable | Json(message: MessageField, context: Option<C>)

  /** `context || {}`. */
  datatype Context<C> = EmptyObject | Given(value: C)

  datatype Response<C> = Failure(status: int, error: string) | Replied(response: string, context: Context<C>)

  const MessageRequired := "Message is required"
  const ChatFailed := "Chat response failed"

  /** `POST /api/chat`; the random message id and the time are left out. */
  function Post<C>(req: Request<C>): Response<C> {
    match req
    case Unparsable => Failure(500, ChatFailed)
    case Json(message, context) =>
      if message.NoMessage? || (message.Text? && message.text == "") then Failure(400, MessageRequired)
      else if message.NotText? then Failure(500, ChatFailed)
      else Replied(GenerateResponse(message.text), if context.Some? then Given(context.value) else EmptyObject)
  }

  /** An empty or missing message is refused; a text message always gets its keyword reply, with the context
      echoed back or `{}` in its place. */
  lemma PostOutcomes<C>(req: Request<C>)
    ensures req.Json? && (req.message.NoMessage? || req.message == Text("")) ==> Post(req) == Failure(400, MessageRequired)
    ensures Post(req).Replied? <==> req.Json? && req.message.Text? && req.message.text != ""
    ensures Post(req).Replied? ==>
      Post(req).response == GenerateResponse(req.message.text)
      && (req.context.Some? ==> Post(req).context == Given(req.context.value))
      && (req.context.None? ==> Post(req).context == EmptyObject)
  {
  }
}
