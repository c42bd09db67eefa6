/** The PDF parsing endpoint: checks the form, assembles the document's text page by page, and saves a report
    record built from it. The PDF library and the database are inputs: the pages it yields and the outcome of
    the save. */
module ParsePdf {
  import opened Common
  import opened Text

  /** A text-content item of a page: one with a `str` member, or one without (marked content). */
  datatype Item = TextItem(str: string) | MarkedItem

  type Page = seq<Item>

  function ItemText(it: Item): string {
    if it.TextItem? then it.str else ""
  }

  function ItemTexts(page: Page): (r: seq<string>)
    ensures |r| == |page|
    ensures forall k :: 0 <= k < |page| ==> r[k] == ItemText(page[k])
  {
    seq(|page|, k requires 0 <= k < |page| => ItemText(page[k]))
  }

  /** A page's text: its items' strings joined by single spaces. */
  function PageText(page: Page): string {
    Join(ItemTexts(page), ' ')
  }

  /** The raw text: every page's text followed by a line feed, in page order. */
  function RawText(pages: seq<Page>): string
    decreases |pages|
  {
    if pages == [] then "" else PageText(pages[0]) + "\n" + RawText(pages[1..])
  }

  lemma {:induction false} RawTextSnoc(pages: seq<Page>, p: Page)
    ensures RawText(pages + [p]) == RawText(pages) + PageText(p) + "\n"
    decreases |pages|
  {
    if pages == [] {
      assert [p][1..] == [];
    } else {
      assert (pages + [p])[1..] == pages[1..] + [p];
      RawTextSnoc(pages[1..], p);
    }
  }

  /** The loop of the route: for pages 1 to numPages, append the page's text and a line feed. */
  method ExtractText(pages: seq<Page>) returns (text: string)
    ensures text == RawText(pages)
  {
    text := "";
    var numPages := |pages|;
    var i := 1;
    while i <= numPages
      invariant 1 <= i <= numPages + 1
      invariant text == RawText(pages[..i - 1])
    {
      var pageText := PageText(pages[i - 1]);
      assert pages[..i] == pages[..i - 1] + [pages[i - 1]];
      RawTextSnoc(pages[..i - 1], pages[i - 1]);
      text := text + pageText + "\n";
      i := i + 1;
    }
    assert pages[..numPages] == pages;
  }

  lemma {:induction false} JoinAvoids(parts: seq<string>, sep: char, c: char)
    requires c != sep
    requires forall k :: 0 <= k < |parts| ==> c !in parts[k]
    ensures c !in Join(parts, sep)
    decreases |parts|
  {
    if |parts| > 1 {
      JoinAvoids(parts[1..], sep, c);
      assert Join(parts, sep) == parts[0] + [sep] + Join(parts[1..], sep);
    }
  }

  /** With no line feed inside an item, a page's text has none either. */
  lemma PageTextOneLine(page: Page)
    requires forall k :: 0 <= k < |page| ==> '\n' !in ItemText(page[k])
    ensures '\n' !in PageText(page)
  {
    JoinAvoids(ItemTexts(page), ' ', '\n');
  }

  predicate OneLineItems(pages: seq<Page>) {
    forall p, k :: 0 <= p < |pages| && 0 <= k < |pages[p]| ==> '\n' !in ItemText(pages[p][k])
  }

  function PageTexts(pages: seq<Page>): (r: seq<string>)
    ensures |r| == |pages|
    ensures forall k :: 0 <= k < |pages| ==> r[k] == PageText(pages[k])
  {
    seq(|pages|, k requires 0 <= k < |pages| => PageText(pages[k]))
  }

  lemma OneLineTail(pages: seq<Page>)
    requires OneLineItems(pages) && pages != []
    ensures OneLineItems(pages[1..])
    ensures forall k :: 0 <= k < |pages[0]| ==> '\n' !in ItemText(pages[0][k])
  {
    forall p, k | 0 <= p < |pages[1..]| && 0 <= k < |pages[1..][p]|
      ensures '\n' !in ItemText(pages[1..][p][k])
    {
      assert pages[1..][p] == pages[p + 1];
    }
  }

  /** Splitting one page's line, followed by the rest of the text, at line feeds. */
  lemma SplitFirstLine(line: string, rest: string)
    requires '\n' !in line
    ensures Split(line + "\n" + rest, '\n') == [line] + Split(rest, '\n')
  {
    assert line + "\n" + rest == line + ['\n'] + rest;
    SplitAppend(line, '\n', rest);
    SplitWithoutSep(line, '\n');
  }

  /** The raw text keeps the pages apart: when no item holds a line feed, splitting it at line feeds gives back
      each page's text, in order, and one empty piece after the final line feed. */
  lemma {:induction false} RawTextSplitsIntoPages(pages: seq<Page>)
    requires OneLineItems(pages)
    ensures Split(RawText(pages), '\n') == PageTexts(pages) + [""]
    decreases |pages|
  {
    if pages == [] {
      SplitWithoutSep("", '\n');
    } else {
      OneLineTail(pages);
      RawTextSplitsIntoPages(pages[1..]);
      PageTextOneLine(pages[0]);
      SplitFirstLine(PageText(pages[0]), RawText(pages[1..]));
      assert PageTexts(pages) == [PageText(pages[0])] + PageTexts(pages[1..]);
    }
  }

  // ---------------------------------------------------------------- the request and the stored record

  /** The multipart form fields the route reads. */
  datatype FormInput = FormInput(file: Option<FileInfo>, userId: Option<string>, reportType: Option<string>, notes: Option<string>)

  /** `req.formData()` either throws or yields the form. A thrown value that is an `Error` carries a message. */
  datatype Request = UnreadableForm(thrown: Option<string>) | Posted(form: FormInput)

  /** What the PDF library produced for the file. */
  datatype PdfOutcome = Parsed(pages: seq<Page>) | ParseThrew(thrown: Option<string>)

  /** What saving the record produced. */
  datatype SaveOutcome = Saved(reportId: string) | SaveThrew(thrown: Option<string>)

  datatype PdfInfo = PdfInfo(numPages: int, version: string)

  /** The record written to the database; the upload and modification times it also gets are left out. */
  datatype ReportRecord = ReportRecord(
    userId: string,
    fileName: string,
    fileSize: int,
    extractedText: string,
    textLength: int,
    pdfInfo: PdfInfo,
    reportType: string,
    notes: Option<string>,
    aiAnalyzed: bool)

  datatype Response =
    | Failure(status: int, error: string, details: Option<string>)
    | Success(reportId: string, message: string)

  const MissingInput := "File and User ID are required."
  const NotPdf := "File must be a PDF."
  const ProcessingFailed := "Failed to process request."
  const UnexpectedError := "An unexpected error occurred."
  const SavedMessage := "PDF processed and saved successfully"

  /** The first guard failure of a form, if any: the presence check runs before the type check. */
  function Validate(form: FormInput): (r: Option<string>)
    ensures (form.file.None? || !Truthy(form.userId)) ==> r == Some(MissingInput)
    ensures form.file.Some? && Truthy(form.userId) && form.file.value.mimeType != "application/pdf" ==> r == Some(NotPdf)
    ensures r.None? <==> form.file.Some? && Truthy(form.userId) && form.file.value.mimeType == "application/pdf"
  {
    if form.file.None? || !Truthy(form.userId) then Some(MissingInput)
    else if form.file.value.mimeType != "application/pdf" then Some(NotPdf)
    else None
  }

  /** The record for a valid form and the raw text of its pages: trimmed text and its length, the page count,
      the report type or `'general'`, and the notes only when non-empty. */
  function Record(form: FormInput, pages: seq<Page>, rawText: string): ReportRecord
    requires Validate(form).None?
  {
    var text := Trim(rawText);
    ReportRecord(form.userId.value, form.file.value.name, form.file.value.size, text, |text|,
      PdfInfo(|pages|, ""), OrElse(form.reportType, "general"), if Truthy(form.notes) then form.notes else None, false)
  }

  function Details(thrown: Option<string>): string {
    if thrown.Some? then thrown.value else UnexpectedError
  }

  function ServerError(thrown: Option<string>): Response {
    Failure(500, ProcessingFailed, Some(Details(thrown)))
  }

  /** The response of `POST /api/parse-pdf`. */
  function Respond(req: Request, pdf: PdfOutcome, save: SaveOutcome): Response {
    match req
    case UnreadableForm(t) => ServerError(t)
    case Posted(form) =>
      if Validate(form).Some? then Failure(400, Validate(form).value, None)
      else match pdf
        case ParseThrew(t) => ServerError(t)
        case Parsed(_) =>
          match save
          case SaveThrew(t) => ServerError(t)
          case Saved(id) => Success(id, SavedMessage)
  }

  /** The record the route asks the database to save, if it gets that far. */
  function Written(req: Request, pdf: PdfOutcome): Option<ReportRecord> {
    if req.Posted? && Validate(req.form).None? && pdf.Parsed? then Some(Record(req.form, pdf.pages, RawText(pdf.pages)))
    else None
  }

  /** The whole route, with its text-assembly loop. */
  method Post(req: Request, pdf: PdfOutcome, save: SaveOutcome) returns (resp: Response, written: Option<ReportRecord>)
    ensures resp == Respond(req, pdf, save)
    ensures written == Written(req, pdf)
  {
    if req.UnreadableForm? {
      return ServerError(req.thrown), None;
    }
    var form := req.form;
    var problem := Validate(form);
    if problem.Some? {
      return Failure(400, problem.value, None), None;
    }
    if pdf.ParseThrew? {
      return ServerError(pdf.thrown), None;
    }
    var rawText := ExtractText(pdf.pages);
    written := Some(Record(form, pdf.pages, rawText));
    match save {
      case SaveThrew(t) => resp := ServerError(t);
      case Saved(id) => resp := Success(id, SavedMessage);
    }
  }

  /** The route succeeds exactly when the form is valid and both the library and the save succeed; a bad form is
      a 400 with the first failed guard's text and saves nothing, and every thrown error is a 500 with its message,
      or the generic one, as details. */
  lemma RespondOutcomes(req: Request, pdf: PdfOutcome, save: SaveOutcome)
    ensures Respond(req, pdf, save).Success? <==> req.Posted? && Validate(req.form).None? && pdf.Parsed? && save.Saved?
    ensures Respond(req, pdf, save).Success? ==> Respond(req, pdf, save) == Success(save.reportId, SavedMessage)
    ensures req.Posted? && Validate(req.form).Some? ==>
      Respond(req, pdf, save) == Failure(400, Validate(req.form).value, None) && Written(req, pdf).None?
    ensures Respond(req, pdf, save).Failure? && Respond(req, pdf, save).status != 400 ==>
      Respond(req, pdf, save).status == 500 && Respond(req, pdf, save).error == ProcessingFailed
    ensures req.UnreadableForm? ==> Respond(req, pdf, save).details == Some(Details(req.thrown))
  {
  }

  /** A saved record holds the trimmed page text and its true length, and is stored as not yet analysed. */
  lemma WrittenRecordFacts(req: Request, pdf: PdfOutcome)
    requires Written(req, pdf).Some?
    ensures var r := Written(req, pdf).value;
      r.extractedText == Trim(RawText(pdf.pages))
      && r.textLength == |r.extractedText|
      && r.pdfInfo == PdfInfo(|pdf.pages|, "")
      && r.reportType != ""
      && (r.notes.Some? ==> r.notes.value != "")
      && !r.aiAnalyzed
      && r.userId != ""
  {
  }
}
