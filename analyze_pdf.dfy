/** The report-analysis endpoint: refuses an empty text, asks the language model for a JSON analysis, strips a
    Markdown code fence from the answer and parses it. The model and `JSON.parse` are inputs. */
module AnalyzePdf {
  import opened Common
  import opened Text

  const JsonFence := "```json"
  const Fence := "```"

  /** `s.replace(/```json|```/g, '')`: scanning left to right, at each position the longer alternative is tried
      first, and scanning resumes after the removed match. */
  function RemoveFences(s: string): (r: string)
    ensures |r| <= |s|
    decreases |s|
  {
    if |s| >= 7 && s[..7] == JsonFence then RemoveFences(s[7..])
    else if |s| >= 3 && s[..3] == Fence then RemoveFences(s[3..])
    else if s == [] then []
    else [s[0]] + RemoveFences(s[1..])
  }

  /** A position that does not hold a backtick starts no match and is kept. */
  lemma KeepsPlainChar(s: string)
    requires s != [] && s[0] != '`'
    ensures RemoveFences(s) == [s[0]] + RemoveFences(s[1..])
  {
    if |s| >= 7 {
      assert s[..7][0] == s[0];
    }
    if |s| >= 3 {
      assert s[..3][0] == s[0];
    }
  }

  /** Text without a backtick holds no match and passes through whole. */
  lemma {:induction false} RemoveFencesNoBacktick(s: string)
    requires '`' !in s
    ensures RemoveFences(s) == s
    decreases |s|
  {
    if s != [] {
      KeepsPlainChar(s);
      RemoveFencesNoBacktick(s[1..]);
    }
  }

  /** Backtick-free text ahead of the rest is kept as it is. */
  lemma {:induction false} RemoveFencesPlainPrefix(a: string, b: string)
    requires '`' !in a
    ensures RemoveFences(a + b) == a + RemoveFences(b)
    decreases |a|
  {
    if a != [] {
      assert a[0] in a;
      assert (a + b)[0] == a[0];
      KeepsPlainChar(a + b);
      assert (a + b)[1..] == a[1..] + b;
      RemoveFencesPlainPrefix(a[1..], b);
      calc {
        RemoveFences(a + b);
        [a[0]] + RemoveFences(a[1..] + b);
        [a[0]] + (a[1..] + RemoveFences(b));
        { assert a == [a[0]] + a[1..]; }
        a + RemoveFences(b);
      }
    } else {
      assert a + b == b;
    }
  }

  /** An opening json fence is removed whole. */
  lemma DropsJsonFence(rest: string)
    ensures RemoveFences(JsonFence + rest) == RemoveFences(rest)
  {
    var s := JsonFence + rest;
    assert s[..7] == JsonFence;
    assert s[7..] == rest;
  }

  lemma ClosingFenceRemoved()
    ensures RemoveFences(Fence) == []
  {
    assert |Fence| < 7;
    assert Fence[..3] == Fence;
    assert Fence[3..] == [];
  }

  /** The cleaned answer `JSON.parse` receives: the trimmed answer, and, only when it both starts with "```json"
      and ends with "```", with every fence removed and trimmed again. */
  function CleanJson(response: string): string {
    var t := Trim(response);
    if IsPrefix(JsonFence, t) && IsSuffix(Fence, t) then Trim(RemoveFences(t)) else t
  }

  /** An answer not wrapped in a json fence reaches the parser exactly as trimmed, backticks and all. */
  lemma UnfencedPassesThrough(response: string)
    requires !(IsPrefix(JsonFence, Trim(response)) && IsSuffix(Fence, Trim(response)))
    ensures CleanJson(response) == Trim(response)
  {
  }

  /** A json-fenced body without backticks comes out as the trimmed body: the fence is undone. */
  lemma FencedBodyRecovered(body: string)
    requires '`' !in body
    ensures CleanJson(JsonFence + body + Fence) == Trim(body)
  {
    var s := JsonFence + body + Fence;
    assert s[0] == '`' && s[|s| - 1] == '`';
    TrimIdentity(s);
    assert IsPrefix(JsonFence, s) by {
      assert s[..7] == JsonFence;
    }
    assert IsSuffix(Fence, s) by {
      assert s[|s| - 3..] == Fence;
    }
    assert s == JsonFence + (body + Fence);
    DropsJsonFence(body + Fence);
    RemoveFencesPlainPrefix(body, Fence);
    ClosingFenceRemoved();
    assert body + [] == body;
  }

  /** The model either answered with text or threw. */
  datatype ModelOutcome = Answered(response: string) | ModelThrew(message: string)

  /** What `JSON.parse` made of a string. */
  datatype Parsed<J> = Value(value: J) | SyntaxError(message: string)

  datatype Response<J> = Failure(status: int, error: string, details: Option<string>) | Analysis(data: J)

  const NoText := "No text provided"
  const AnalysisFailed := "Failed to analyze text"

  /** `POST /api/analyze-pdf` for a request whose body has a `text` member, or not. */
  function Post<J>(text: Option<string>, model: ModelOutcome, parse: string -> Parsed<J>): Response<J> {
    if !Truthy(text) then Failure(400, NoText, None)
    else match model
      case ModelThrew(m) => Failure(500, AnalysisFailed, Some(m))
      case Answered(response) =>
        match parse(CleanJson(response))
        case Value(v) => Analysis(v)
        case SyntaxError(m) => Failure(500, AnalysisFailed, Some(m))
  }

  /** A missing or empty text is refused before the model's outcome matters; otherwise the route answers with
      exactly what the parser made of the cleaned answer, and any failure of the model or the parser is a 500
      without data. */
  lemma PostOutcomes<J>(text: Option<string>, model: ModelOutcome, parse: string -> Parsed<J>)
    ensures !Truthy(text) ==> forall m :: Post(text, m, parse) == Failure(400, NoText, None)
    ensures Post(text, model, parse).Analysis? <==>
      Truthy(text) && model.Answered? && parse(CleanJson(model.response)).Value?
    ensures Post(text, model, parse).Analysis? ==> Post(text, model, parse).data == parse(CleanJson(model.response)).value
    ensures Truthy(text) && !Post(text, model, parse).Analysis? ==>
      Post(text, model, parse).status == 500 && Post(text, model, parse).error == AnalysisFailed
  {
  }
}
