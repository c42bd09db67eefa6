/** The medical-report upload manager: admits one dropped file at a time, walks each file through its status
    sequence while it is sent to the PDF parser, and keeps the user's saved reports in step. */
module UploadManager {
  import opened Common
  import opened Text
  import opened Seqs

  datatype Status = Pending | Uploading | Processing | Completed | Error

  /** One entry of the upload list. */
  datatype UploadedFile = UploadedFile(
    id: string,
    file: FileInfo,
    status: Status,
    error: Option<string>,
    extractedText: Option<string>,
    reportId: Option<string>,
    reportType: Option<string>,
    notes: Option<string>)

  /** The part of a stored report the manager relies on. */
  datatype SavedReport = SavedReport(id: string, fileName: string)

  const PdfType := "application/pdf"
  const DefaultReportType := "general"
  const LoginRequired := "Please log in to upload files"

  predicate IsPdf(f: FileInfo) {
    f.mimeType == PdfType
  }

  function InvalidTypeMessage(mimeType: string): string {
    "Invalid file type: " + mimeType + ". Only PDF files are supported."
  }

  // ---------------------------------------------------------------- updating one entry by id

  /** The changes the manager makes to an entry: a new status, a failure with its message, or completion with the
      parser's text and the stored report's id. */
  datatype Update = ToStatus(status: Status) | ToError(message: string) | ToCompleted(text: Option<string>, savedId: Option<string>)

  /** `{ ...f, ... }` for each kind of update: the identity, the file and the form values always survive. */
  function Apply(f: UploadedFile, u: Update): (r: UploadedFile)
    ensures r.id == f.id && r.file == f.file && r.reportType == f.reportType && r.notes == f.notes
    ensures u.ToStatus? ==> r.status == u.status && r.error == f.error && r.extractedText == f.extractedText && r.reportId == f.reportId
    ensures u.ToError? ==> r.status == Error && r.error == Some(u.message) && r.extractedText == f.extractedText && r.reportId == f.reportId
    ensures u.ToCompleted? ==> r.status == Completed && r.error == f.error && r.extractedText == u.text && r.reportId == u.savedId
  {
    match u
    case ToStatus(s) => f.(status := s)
    case ToError(m) => f.(status := Error, error := Some(m))
    case ToCompleted(t, rid) => f.(status := Completed, extractedText := t, reportId := rid)
  }

  /** `files.map(f => f.id === id ? update(f) : f)`. */
  function MapById(files: seq<UploadedFile>, id: string, u: Update): (r: seq<UploadedFile>)
    ensures |r| == |files|
    ensures forall k :: 0 <= k < |files| && files[k].id != id ==> r[k] == files[k]
    ensures forall k :: 0 <= k < |files| && files[k].id == id ==> r[k] == Apply(files[k], u)
  {
    seq(|files|, k requires 0 <= k < |files| => if files[k].id == id then Apply(files[k], u) else files[k])
  }

  /** An intermediate status is overwritten by any later update of the same entry. */
  lemma StatusStepAbsorbed(files: seq<UploadedFile>, id: string, s: Status, u: Update)
    ensures MapById(MapById(files, id, ToStatus(s)), id, u) == MapById(files, id, u)
  {
    var once := MapById(files, id, ToStatus(s));
    forall k | 0 <= k < |files|
      ensures MapById(once, id, u)[k] == MapById(files, id, u)[k]
    {
      if files[k].id == id {
        assert once[k] == Apply(files[k], ToStatus(s));
      }
    }
  }

  /** `files.filter(f => f.id !== id)`. */
  function WithoutId(files: seq<UploadedFile>, id: string): (r: seq<UploadedFile>)
    ensures IsSubsequence(r, files)
    ensures forall f :: f in r <==> f in files && f.id != id
  {
    FilterIsSubsequence((f: UploadedFile) => f.id != id, files);
    Filter((f: UploadedFile) => f.id != id, files)
  }

  /** Removing an id leaves every other entry, in order, and none with that id; an id not present changes nothing. */
  lemma WithoutIdFacts(files: seq<UploadedFile>, id: string)
    ensures forall k :: 0 <= k < |WithoutId(files, id)| ==> WithoutId(files, id)[k].id != id
    ensures (forall k :: 0 <= k < |files| ==> files[k].id != id) ==> WithoutId(files, id) == files
  {
    var r := WithoutId(files, id);
    forall k | 0 <= k < |r| ensures r[k].id != id {
      assert r[k] in r;
    }
    if forall k :: 0 <= k < |files| ==> files[k].id != id {
      FilterAll((f: UploadedFile) => f.id != id, files);
    }
  }

  // ---------------------------------------------------------------- dropping files

  /** A freshly dropped file: pending, carrying the manager's current report type and notes. */
  function NewEntry(f: FileInfo, id: string, reportType: string, notes: string): UploadedFile {
    UploadedFile(id, f, Pending, None, None, None, Some(reportType), Some(notes))
  }

  /** What the type check leaves of a new entry: a PDF stays pending, anything else is failed with the type. */
  function TypeChecked(e: UploadedFile): (r: UploadedFile)
    ensures IsPdf(e.file) ==> r == e
    ensures !IsPdf(e.file) ==> r.status == Error && r.error == Some(InvalidTypeMessage(e.file.mimeType))
    ensures r.id == e.id && r.file == e.file && r.reportType == e.reportType && r.notes == e.notes
  {
    if IsPdf(e.file) then e else Apply(e, ToError(InvalidTypeMessage(e.file.mimeType)))
  }

  predicate DistinctIds(ids: seq<string>) {
    forall i, j :: 0 <= i < j < |ids| ==> ids[i] != ids[j]
  }

  function NewEntries(files: seq<FileInfo>, ids: seq<string>, reportType: string, notes: string): (r: seq<UploadedFile>)
    requires |ids| == |files|
    ensures |r| == |files|
    ensures forall k :: 0 <= k < |files| ==> r[k] == NewEntry(files[k], ids[k], reportType, notes)
  {
    seq(|files|, k requires 0 <= k < |files| => NewEntry(files[k], ids[k], reportType, notes))
  }

  predicate IsPdfEntry(e: UploadedFile) {
    IsPdf(e.file)
  }

  /** The entries a drop hands on for processing. */
  function PdfEntries(files: seq<FileInfo>, ids: seq<string>, reportType: string, notes: string): seq<UploadedFile>
    requires |ids| == |files|
  {
    Filter(IsPdfEntry, NewEntries(files, ids, reportType, notes))
  }

  /** The entries handed on for processing are exactly the PDF ones, all pending. */
  lemma ProcessedAreExactlyPdfs(files: seq<FileInfo>, ids: seq<string>, reportType: string, notes: string)
    requires |ids| == |files|
    ensures forall e :: e in PdfEntries(files, ids, reportType, notes) <==>
      exists k :: 0 <= k < |files| && IsPdf(files[k]) && e == NewEntry(files[k], ids[k], reportType, notes)
    ensures forall e :: e in PdfEntries(files, ids, reportType, notes) ==> e.status == Pending
  {
    var entries := NewEntries(files, ids, reportType, notes);
    forall e | e in entries
      ensures exists k :: 0 <= k < |files| && e == NewEntry(files[k], ids[k], reportType, notes)
    {
      var k :| 0 <= k < |entries| && entries[k] == e;
    }
  }

  /** The upload list part-way through the type checks of a drop: the first i entries checked, the rest as dropped. */
  predicate CheckedUpTo(uploaded: seq<UploadedFile>, dropped: seq<UploadedFile>, i: int) {
    0 <= i <= |dropped| && |uploaded| == |dropped|
    && (forall k :: 0 <= k < i ==> uploaded[k] == TypeChecked(dropped[k]))
    && (forall k :: i <= k < |dropped| ==> uploaded[k] == dropped[k])
  }

  /** Failing entry i by its id touches only entry i when the ids are distinct. */
  lemma CheckNext(uploaded: seq<UploadedFile>, dropped: seq<UploadedFile>, i: int)
    requires CheckedUpTo(uploaded, dropped, i) && i < |dropped|
    requires forall a, b :: 0 <= a < b < |dropped| ==> dropped[a].id != dropped[b].id
    ensures IsPdf(dropped[i].file) ==> CheckedUpTo(uploaded, dropped, i + 1)
    ensures !IsPdf(dropped[i].file) ==>
      CheckedUpTo(MapById(uploaded, dropped[i].id, ToError(InvalidTypeMessage(dropped[i].file.mimeType))), dropped, i + 1)
  {
    var u := MapById(uploaded, dropped[i].id, ToError(InvalidTypeMessage(dropped[i].file.mimeType)));
    forall k | 0 <= k < |dropped| && k != i
      ensures uploaded[k].id != dropped[i].id
    {
      assert uploaded[k].id == dropped[k].id;
    }
  }

  /** The loop of `onDrop` over the dropped entries: each non-PDF is failed by its id in the list, each PDF is
      handed on for processing. */
  method TypeCheckDrop(dropped: seq<UploadedFile>) returns (list: seq<UploadedFile>, toProcess: seq<UploadedFile>)
    requires forall a, b :: 0 <= a < b < |dropped| ==> dropped[a].id != dropped[b].id
    ensures |list| == |dropped|
    ensures forall k :: 0 <= k < |dropped| ==> list[k] == TypeChecked(dropped[k])
    ensures toProcess == Filter(IsPdfEntry, dropped)
  {
    list := dropped;
    toProcess := [];
    var i := 0;
    while i < |dropped|
      invariant CheckedUpTo(list, dropped, i)
      invariant toProcess == Filter(IsPdfEntry, dropped[..i])
    {
      var entry := dropped[i];
      FilterPrefixStep(IsPdfEntry, dropped, i);
      CheckNext(list, dropped, i);
      if IsPdf(entry.file) {
        toProcess := toProcess + [entry];
      } else {
        list := MapById(list, entry.id, ToError(InvalidTypeMessage(entry.file.mimeType)));
      }
      i := i + 1;
    }
    assert dropped[..|dropped|] == dropped;
  }

  // ---------------------------------------------------------------- talking to the parser

  /** What `response.json()` produced: an exception, or the fields the manager reads. */
  datatype Body = Unreadable(message: string) | Data(error: Option<string>, text: Option<string>, reportId: Option<string>)

  /** How `fetch('/api/parse-pdf')` ended. */
  datatype FetchOutcome = Thrown(message: string) | Received(ok: bool, httpStatus: int, body: Body)

  /** What `getUserMedicalReports` produced. */
  datatype LoadOutcome = Fetched(reports: seq<SavedReport>) | NotAList | LoadFailed

  /** The form posted to the parser. */
  datatype Form = Form(fileName: string, userId: string, reportType: string, notes: Option<string>)

  function FormFor(entry: UploadedFile, uid: string, reportType: string, notes: string): Form {
    var n := if Truthy(entry.notes) || notes != "" then Some(OrElse(entry.notes, notes)) else None;
    Form(entry.file.name, uid, OrElse(entry.reportType, reportType), n)
  }

  /** The file's own report type wins when set; notes are sent only when the file's or the manager's are
      non-empty, and then never empty. */
  lemma FormFields(entry: UploadedFile, uid: string, reportType: string, notes: string)
    ensures FormFor(entry, uid, reportType, notes).reportType == (if Truthy(entry.reportType) then entry.reportType.value else reportType)
    ensures FormFor(entry, uid, reportType, notes).notes.None? <==> !Truthy(entry.notes) && notes == ""
    ensures FormFor(entry, uid, reportType, notes).notes.Some? ==> FormFor(entry, uid, reportType, notes).notes.value != ""
    ensures Truthy(entry.notes) ==> FormFor(entry, uid, reportType, notes).notes == entry.notes
  {
  }

  /** `(error as Error).message || 'Unknown error'`. */
  function CaughtMessage(m: string): (r: string)
    ensures r != ""
    ensures m != "" ==> r == m
  {
    if m == "" then "Unknown error" else m
  }

  /** The message thrown for a non-OK response. */
  function HttpErrorMessage(error: Option<string>, httpStatus: int): string {
    OrElse(error, "HTTP error! status: " + IntToString(httpStatus))
  }

  /** The update that ends processing for a signed-in user. */
  function FinalUpdate(outcome: FetchOutcome): Update {
    match outcome
    case Thrown(m) => ToError(CaughtMessage(m))
    case Received(ok, code, Unreadable(m)) => ToError(CaughtMessage(m))
    case Received(ok, code, Data(err, text, rid)) =>
      if ok then ToCompleted(text, rid) else ToError(CaughtMessage(HttpErrorMessage(err, code)))
  }

  /** A non-OK response fails the entry with the server's `error` text, or with the HTTP status when there is none. */
  lemma NonOkMessage(code: int, error: Option<string>, text: Option<string>, rid: Option<string>)
    ensures FinalUpdate(Received(false, code, Data(error, text, rid))) ==
      ToError(if Truthy(error) then error.value else "HTTP error! status: " + IntToString(code))
  {
  }

  /** The statuses an entry takes, in order, while it is processed. */
  function Trail(signedIn: bool, outcome: FetchOutcome): seq<Status> {
    if !signedIn then [Error]
    else match outcome
      case Thrown(_) => [Uploading, Error]
      case Received(_, _, Unreadable(_)) => [Uploading, Processing, Error]
      case Received(_, _, Data(_, _, _)) => [Uploading, Processing, FinalStatus(FinalUpdate(outcome))]
  }

  function FinalStatus(u: Update): Status {
    match u
    case ToStatus(s) => s
    case ToError(_) => Error
    case ToCompleted(_, _) => Completed
  }

  /** Processing always ends, in completed or in error, after passing through a prefix of uploading, processing;
      it completes exactly when a signed-in user's request came back OK with a readable body. */
  lemma TrailFacts(signedIn: bool, outcome: FetchOutcome)
    ensures var t := Trail(signedIn, outcome);
      |t| >= 1
      && (t[|t| - 1] == Completed || t[|t| - 1] == Error)
      && (forall k :: 0 <= k < |t| - 1 ==> t[k] == [Uploading, Processing][k])
      && (t[|t| - 1] == Completed <==> signedIn && outcome.Received? && outcome.ok && outcome.body.Data?)
  {
  }

  /** The reports a load leaves in the list: any failure empties it. */
  function LoadedReports(outcome: LoadOutcome): seq<SavedReport> {
    if outcome.Fetched? then outcome.reports else []
  }

  /** `getFileType` of the manager: the last dot-separated piece, upper-cased (`''` stays `''`). */
  function FileTypeTag(name: string): string {
    Upper(LastSegment(name, '.'))
  }

  /** Only the text after the last dot names the type; a name without a dot is its own type. */
  lemma FileTypeTagFacts(base: string, ext: string)
    ensures FileTypeTag(base + "." + ext) == FileTypeTag(ext)
    ensures '.' !in ext ==> FileTypeTag(ext) == Upper(ext)
    ensures FileTypeTag("") == ""
  {
    assert base + "." + ext == base + ['.'] + ext;
    LastSegmentAfterSep(base, '.', ext);
    if '.' !in ext {
      LastSegmentWithoutSep(ext, '.');
    }
    LastSegmentWithoutSep("", '.');
  }

  // ---------------------------------------------------------------- the manager

  class ReportManager {
    var user: Option<string>
    var uploadedFiles: seq<UploadedFile>
    var savedReports: seq<SavedReport>
    var reportType: string
    var notes: string
    var searchTerm: string
    var isLoadingReports: bool

    constructor(user: Option<string>)
      ensures this.user == user && uploadedFiles == [] && savedReports == []
      ensures reportType == DefaultReportType && notes == "" && searchTerm == "" && !isLoadingReports
    {
      this.user := user;
      uploadedFiles := [];
      savedReports := [];
      reportType := DefaultReportType;
      notes := "";
      searchTerm := "";
      isLoadingReports := false;
    }

    method SetReportType(value: string)
      modifies this
      ensures reportType == value
      ensures user == old(user) && uploadedFiles == old(uploadedFiles) && savedReports == old(savedReports)
      ensures notes == old(notes) && searchTerm == old(searchTerm) && isLoadingReports == old(isLoadingReports)
    {
      reportType := value;
    }

    method SetNotes(value: string)
      modifies this
      ensures notes == value
      ensures user == old(user) && uploadedFiles == old(uploadedFiles) && savedReports == old(savedReports)
      ensures reportType == old(reportType) && searchTerm == old(searchTerm) && isLoadingReports == old(isLoadingReports)
    {
      notes := value;
    }

    /** `setSearchTerm`, bound to the search box. */
    method SetSearchTerm(value: string)
      modifies this
      ensures searchTerm == value
      ensures user == old(user) && uploadedFiles == old(uploadedFiles) && savedReports == old(savedReports)
      ensures reportType == old(reportType) && notes == old(notes) && isLoadingReports == old(isLoadingReports)
    {
      searchTerm := value;
    }

    /** `loadSavedReports`: nothing happens without a user; otherwise the list becomes what was fetched, or empty
        on any failure, and the loading flag ends cleared. */
    method LoadSavedReports(outcome: LoadOutcome)
      modifies this
      ensures user.None? ==> savedReports == old(savedReports) && isLoadingReports == old(isLoadingReports)
      ensures user.Some? ==> savedReports == LoadedReports(outcome) && !isLoadingReports
      ensures user == old(user) && uploadedFiles == old(uploadedFiles)
      ensures reportType == old(reportType) && notes == old(notes) && searchTerm == old(searchTerm)
    {
      if user.None? {
        return;
      }
      isLoadingReports := true;
      match outcome {
        case Fetched(reports) => savedReports := reports;
        case NotAList => savedReports := [];
        case LoadFailed => savedReports := [];
      }
      isLoadingReports := false;
    }

    /** The effect on a change of signed-in user: load that user's reports, or clear the list on sign-out. */
    method UserChanged(newUser: Option<string>, outcome: LoadOutcome)
      modifies this
      ensures user == newUser
      ensures newUser.None? ==> savedReports == [] && isLoadingReports == old(isLoadingReports)
      ensures newUser.Some? ==> savedReports == LoadedReports(outcome) && !isLoadingReports
      ensures uploadedFiles == old(uploadedFiles)
      ensures reportType == old(reportType) && notes == old(notes) && searchTerm == old(searchTerm)
    {
      user := newUser;
      if newUser.Some? {
        LoadSavedReports(outcome);
      } else {
        savedReports := [];
      }
    }

    /** `onDrop`. The ids stand for the random ones the page draws. A drop is refused whole while a saved report
        or an upload exists; otherwise every file is listed pending with the current report type and notes, each
        non-PDF is failed at once, and the PDFs are returned, in order, as the entries to process. */
    method OnDrop(files: seq<FileInfo>, ids: seq<string>) returns (admitted: bool, toProcess: seq<UploadedFile>)
      requires |ids| == |files| && DistinctIds(ids)
      modifies this
      ensures admitted <==> |old(savedReports)| == 0 && |old(uploadedFiles)| == 0
      ensures !admitted ==> uploadedFiles == old(uploadedFiles) && toProcess == []
      ensures admitted ==> |uploadedFiles| == |files|
      ensures admitted ==> forall k :: 0 <= k < |files| ==>
        uploadedFiles[k] == TypeChecked(NewEntry(files[k], ids[k], reportType, notes))
      ensures admitted ==> toProcess == PdfEntries(files, ids, reportType, notes)
      ensures user == old(user) && savedReports == old(savedReports) && reportType == old(reportType)
      ensures notes == old(notes) && searchTerm == old(searchTerm) && isLoadingReports == old(isLoadingReports)
    {
      if |savedReports| >= 1 || |uploadedFiles| >= 1 {
        return false, [];
      }
      admitted := true;
      var dropped := NewEntries(files, ids, reportType, notes);
      var list;
      list, toProcess := TypeCheckDrop(dropped);
      uploadedFiles := uploadedFiles + list;
      assert uploadedFiles == list;
    }

    /** `processFile`. Without a user the entry is failed with the sign-in message and nothing is sent. Otherwise
        the form is sent and the entry ends as `FinalUpdate` of the outcome says, after the statuses of `Trail`;
        on completion the saved reports are reloaded and the notes cleared. Only entries with this id change. */
    method ProcessFile(entry: UploadedFile, outcome: FetchOutcome, reload: LoadOutcome)
      returns (sent: Option<Form>, trail: seq<Status>)
      modifies this
      ensures trail == Trail(old(user).Some?, outcome)
      ensures old(user).None? ==>
        uploadedFiles == MapById(old(uploadedFiles), entry.id, ToError(LoginRequired))
        && sent == None && savedReports == old(savedReports) && notes == old(notes)
        && isLoadingReports == old(isLoadingReports)
      ensures old(user).Some? ==>
        uploadedFiles == MapById(old(uploadedFiles), entry.id, FinalUpdate(outcome))
        && sent == Some(FormFor(entry, old(user).value, old(reportType), old(notes)))
      ensures old(user).Some? && FinalUpdate(outcome).ToCompleted? ==>
        savedReports == LoadedReports(reload) && !isLoadingReports && notes == ""
      ensures old(user).Some? && !FinalUpdate(outcome).ToCompleted? ==>
        savedReports == old(savedReports) && isLoadingReports == old(isLoadingReports) && notes == old(notes)
      ensures user == old(user) && reportType == old(reportType) && searchTerm == old(searchTerm)
    {
      if user.None? {
        uploadedFiles := MapById(uploadedFiles, entry.id, ToError(LoginRequired));
        return None, [Error];
      }
      var before := uploadedFiles;
      uploadedFiles := MapById(uploadedFiles, entry.id, ToStatus(Uploading));
      trail := [Uploading];
      sent := Some(FormFor(entry, user.value, reportType, notes));
      var final := FinalUpdate(outcome);
      StatusStepAbsorbed(before, entry.id, Uploading, final);
      match outcome {
        case Thrown(m) =>
          uploadedFiles := MapById(uploadedFiles, entry.id, final);
          trail := trail + [Error];
        case Received(ok, code, body) =>
          var mid := uploadedFiles;
          uploadedFiles := MapById(uploadedFiles, entry.id, ToStatus(Processing));
          trail := trail + [Processing];
          StatusStepAbsorbed(mid, entry.id, Processing, final);
          uploadedFiles := MapById(uploadedFiles, entry.id, final);
          trail := trail + [FinalStatus(final)];
          if final.ToCompleted? {
            LoadSavedReports(reload);
            notes := "";
          }
      }
    }

    /** `removeFile`. */
    method RemoveFile(id: string)
      modifies this
      ensures uploadedFiles == WithoutId(old(uploadedFiles), id)
      ensures user == old(user) && savedReports == old(savedReports) && reportType == old(reportType)
      ensures notes == old(notes) && searchTerm == old(searchTerm) && isLoadingReports == old(isLoadingReports)
    {
      uploadedFiles := WithoutId(uploadedFiles, id);
    }

    /** `deleteReport`: on success the list is reloaded; a failure only raises an alert. */
    method DeleteReport(deleted: bool, reload: LoadOutcome)
      modifies this
      ensures deleted && user.Some? ==> savedReports == LoadedReports(reload) && !isLoadingReports
      ensures !deleted || user.None? ==> savedReports == old(savedReports) && isLoadingReports == old(isLoadingReports)
      ensures user == old(user) && uploadedFiles == old(uploadedFiles) && reportType == old(reportType)
      ensures notes == old(notes) && searchTerm == old(searchTerm)
    {
      if deleted {
        LoadSavedReports(reload);
      }
    }

    /** `searchReports`: without a user or with a blank term it reloads; otherwise the list becomes the search's
        results, or stays as it was when the search fails, and the loading flag ends cleared. */
    method SearchReports(results: Option<seq<SavedReport>>, reload: LoadOutcome)
      modifies this
      ensures user.None? ==> savedReports == old(savedReports) && isLoadingReports == old(isLoadingReports)
      ensures user.Some? && Trim(searchTerm) == "" ==> savedReports == LoadedReports(reload) && !isLoadingReports
      ensures user.Some? && Trim(searchTerm) != "" && results.Some? ==> savedReports == results.value && !isLoadingReports
      ensures user.Some? && Trim(searchTerm) != "" && results.None? ==> savedReports == old(savedReports) && !isLoadingReports
      ensures user == old(user) && uploadedFiles == old(uploadedFiles) && reportType == old(reportType)
      ensures notes == old(notes) && searchTerm == old(searchTerm)
    {
      var blank := Trim(searchTerm) == "";
      if user.None? || blank {
        LoadSavedReports(reload);
      } else {
        isLoadingReports := true;
        if results.Some? {
          savedReports := results.value;
        }
        isLoadingReports := false;
      }
    }
  }
}
