/** The reports hook: the signed-in user's stored reports, loaded when the user changes, deleted by id, and
    searched case-insensitively. The database calls are replaced by their outcomes. */
module ReportsManager {
  import opened Common
  import opened Text
  import opened Seqs

  /** The fields of a stored report the pages read; a document may lack its id, notes, text or type. */
  datatype Report = Report(
    id: Option<string>,
    fileName: string,
    notes: Option<string>,
    extractedText: Option<string>,
    reportType: Option<string>,
    aiAnalyzed: bool)

  /** The lowered term occurs in the lowered file name, or in the notes or the extracted text when those are
      present and non-empty. */
  predicate MatchesSearch(r: Report, term: string) {
    var q := Lower(term);
    Contains(Lower(r.fileName), q)
    || (Truthy(r.notes) && Contains(Lower(r.notes.value), q))
    || (Truthy(r.extractedText) && Contains(Lower(r.extractedText.value), q))
  }

  /** `filteredReports`. */
  function FilteredReports(reports: seq<Report>, term: string): (r: seq<Report>)
    ensures IsSubsequence(r, reports)
    ensures forall x :: x in r <==> x in reports && MatchesSearch(x, term)
  {
    FilterIsSubsequence((x: Report) => MatchesSearch(x, term), reports);
    Filter((x: Report) => MatchesSearch(x, term), reports)
  }

  /** An empty search keeps every report, in order. */
  lemma EmptySearchKeepsAll(reports: seq<Report>)
    ensures FilteredReports(reports, "") == reports
  {
    forall x | x in reports ensures MatchesSearch(x, "") {
      ContainsEmpty(Lower(x.fileName));
    }
    FilterAll((x: Report) => MatchesSearch(x, ""), reports);
  }

  lemma MatchesLonger(r: Report, term: string, more: string)
    requires MatchesSearch(r, term + more)
    ensures MatchesSearch(r, term)
  {
    LowerConcat(term, more);
    var q, m := Lower(term), Lower(more);
    if Contains(Lower(r.fileName), q + m) {
      ContainsLonger(Lower(r.fileName), q, m);
    } else if Truthy(r.notes) && Contains(Lower(r.notes.value), q + m) {
      ContainsLonger(Lower(r.notes.value), q, m);
    } else {
      ContainsLonger(Lower(r.extractedText.value), q, m);
    }
  }

  /** A longer search term lists a subsequence of what its prefix lists. */
  lemma LongerSearchNarrows(reports: seq<Report>, term: string, more: string)
    ensures IsSubsequence(FilteredReports(reports, term + more), FilteredReports(reports, term))
  {
    forall x | MatchesSearch(x, term + more) ensures MatchesSearch(x, term) {
      MatchesLonger(x, term, more);
    }
    FilterStronger((x: Report) => MatchesSearch(x, term + more), (x: Report) => MatchesSearch(x, term), reports);
  }

  predicate HasOtherId(r: Report, reportId: string) {
    r.id != Some(reportId)
  }

  /** `reports.filter(report => report.id !== reportId)`; a report without an id is never the one removed. */
  function WithoutReport(reports: seq<Report>, reportId: string): (r: seq<Report>)
    ensures IsSubsequence(r, reports)
    ensures forall x :: x in r <==> x in reports && x.id != Some(reportId)
  {
    FilterIsSubsequence((x: Report) => HasOtherId(x, reportId), reports);
    Filter((x: Report) => HasOtherId(x, reportId), reports)
  }

  /** Removing an id that no report carries changes nothing; removing it twice is removing it once. */
  lemma WithoutReportFacts(reports: seq<Report>, reportId: string)
    ensures (forall x :: x in reports ==> x.id != Some(reportId)) ==> WithoutReport(reports, reportId) == reports
    ensures WithoutReport(WithoutReport(reports, reportId), reportId) == WithoutReport(reports, reportId)
    ensures |WithoutReport(reports, reportId)| <= |reports|
  {
    if forall x :: x in reports ==> x.id != Some(reportId) {
      FilterAll((x: Report) => HasOtherId(x, reportId), reports);
    }
    FilterAll((x: Report) => HasOtherId(x, reportId), WithoutReport(reports, reportId));
  }

  /** What the report query came back with. */
  datatype LoadOutcome = Fetched(reports: seq<Report>) | LoadThrew

  class Manager {
    var user: Option<string>
    var reports: seq<Report>
    var searchTerm: string
    var isLoading: bool

    constructor(user: Option<string>)
      ensures this.user == user && reports == [] && searchTerm == "" && !isLoading
    {
      this.user := user;
      reports := [];
      searchTerm := "";
      isLoading := false;
    }

    method SetUser(u: Option<string>)
      modifies this
      ensures user == u && reports == old(reports) && searchTerm == old(searchTerm) && isLoading == old(isLoading)
    {
      user := u;
    }

    method SetSearchTerm(term: string)
      modifies this
      ensures searchTerm == term && user == old(user) && reports == old(reports) && isLoading == old(isLoading)
    {
      searchTerm := term;
    }

    /** The list the hook hands to the page. */
    function Visible(): seq<Report>
      reads this
    {
      FilteredReports(reports, searchTerm)
    }

    /** `loadReports`: signed out, the list is emptied and no query is made; signed in, the query for the user's
        id replaces the list with its result, or with the empty list when it fails, and loading ends. */
    method LoadReports(outcome: LoadOutcome) returns (queried: Option<string>)
      modifies this
      ensures user.None? ==> queried.None? && reports == [] && isLoading == old(isLoading)
      ensures user.Some? ==> queried == user && !isLoading
      ensures user.Some? && outcome.Fetched? ==> reports == outcome.reports
      ensures user.Some? && outcome.LoadThrew? ==> reports == []
      ensures user == old(user) && searchTerm == old(searchTerm)
    {
      if user.None? {
        reports := [];
        return None;
      }
      isLoading := true;
      queried := user;
      match outcome {
        case Fetched(rs) => reports := rs;
        case LoadThrew => reports := [];
      }
      isLoading := false;
    }

    /** `deleteReport`: signed out, nothing happens; otherwise a successful delete drops exactly the reports with
        that id, a failed one keeps the list, and loading ends either way. */
    method DeleteReport(reportId: string, deleted: bool) returns (requested: bool)
      modifies this
      ensures requested <==> user.Some?
      ensures user.None? ==> reports == old(reports) && isLoading == old(isLoading)
      ensures user.Some? ==> !isLoading
      ensures user.Some? && deleted ==> reports == WithoutReport(old(reports), reportId)
      ensures user.Some? && !deleted ==> reports == old(reports)
      ensures user == old(user) && searchTerm == old(searchTerm)
    {
      if user.None? {
        return false;
      }
      isLoading := true;
      requested := true;
      if deleted {
        reports := WithoutReport(reports, reportId);
      }
      isLoading := false;
    }
  }
}
