/** The reports page: only AI-analysed reports are listed, each with a type icon, and deleting goes through a
    confirmation dialog. */
module ReportsPage {
  import opened Common
  import opened Seqs
  import opened ReportsManager

  predicate IsAnalyzed(r: Report) {
    r.aiAnalyzed
  }

  /** `aiAnalyzedReports`. */
  function AnalyzedReports(reports: seq<Report>): (r: seq<Report>)
    ensures IsSubsequence(r, reports)
    ensures forall x :: x in r <==> x in reports && x.aiAnalyzed
  {
    FilterIsSubsequence(IsAnalyzed, reports);
    Filter(IsAnalyzed, reports)
  }

  /** The cards the page shows: the analysed reports among the search results, in stored order, and the
      empty-state card exactly when there are none. */
  lemma ListedReports(m: Manager, x: Report)
    ensures x in AnalyzedReports(m.Visible()) <==> x in m.reports && x.aiAnalyzed && MatchesSearch(x, m.searchTerm)
    ensures IsSubsequence(AnalyzedReports(m.Visible()), m.reports)
  {
    SubsequenceTransitive(AnalyzedReports(m.Visible()), m.Visible(), m.reports);
  }

  datatype Icon = FlaskIcon | DnaIcon | EyeIcon | FileTextIcon

  /** `getReportIcon(report.reportType || 'default')`: CBC, biopsy and imaging reports have their own icons, every
      other type, a missing one included, gets the document icon. */
  function ReportIcon(reportType: Option<string>): (icon: Icon)
    ensures icon == FlaskIcon <==> reportType == Some("cbc")
    ensures icon == DnaIcon <==> reportType == Some("biopsy")
    ensures icon == EyeIcon <==> reportType == Some("imaging")
    ensures icon == FileTextIcon <==> !(reportType in {Some("cbc"), Some("biopsy"), Some("imaging")})
  {
    match OrElse(reportType, "default")
    case "cbc" => FlaskIcon
    case "biopsy" => DnaIcon
    case "imaging" => EyeIcon
    case _ => FileTextIcon
  }

  /** The Delete button is disabled for a report without an id. */
  predicate DeleteEnabled(r: Report) {
    Truthy(r.id)
  }

  /** The confirmation dialog's two pieces of state. */
  class DeleteDialog {
    var deleteModalOpen: bool
    var reportToDelete: Option<string>

    /** An open dialog always has a report to delete. */
    predicate Valid()
      reads this
    {
      deleteModalOpen ==> Truthy(reportToDelete)
    }

    constructor()
      ensures Valid() && !deleteModalOpen && reportToDelete.None?
    {
      deleteModalOpen := false;
      reportToDelete := None;
    }

    /** The Delete button: for a report with an id, `handleDelete` records it and opens the dialog; for one
        without, the button is disabled and nothing changes. */
    method ClickDelete(r: Report)
      requires Valid()
      modifies this
      ensures Valid()
      ensures DeleteEnabled(r) ==> deleteModalOpen && reportToDelete == r.id
      ensures !DeleteEnabled(r) ==> deleteModalOpen == old(deleteModalOpen) && reportToDelete == old(reportToDelete)
    {
      if Truthy(r.id) {
        reportToDelete := r.id;
        deleteModalOpen := true;
      }
    }

    /** Dismissing the dialog closes it but keeps the recorded id. */
    method Close()
      requires Valid()
      modifies this
      ensures Valid()
      ensures !deleteModalOpen && reportToDelete == old(reportToDelete)
    {
      deleteModalOpen := false;
    }

    /** `confirmDelete`: deletes the recorded report, if one is recorded, then always closes the dialog and forgets
        the id. */
    method ConfirmDelete(m: Manager, deleted: bool)
      requires Valid()
      modifies this, m
      ensures Valid()
      ensures !deleteModalOpen && reportToDelete.None?
      ensures m.user == old(m.user) && m.searchTerm == old(m.searchTerm)
      ensures Truthy(old(reportToDelete)) && m.user.Some? && deleted ==>
        m.reports == WithoutReport(old(m.reports), old(reportToDelete).value)
      ensures !(Truthy(old(reportToDelete)) && m.user.Some? && deleted) ==> m.reports == old(m.reports)
      ensures Truthy(old(reportToDelete)) && m.user.Some? ==> !m.isLoading
      ensures !(Truthy(old(reportToDelete)) && m.user.Some?) ==> m.isLoading == old(m.isLoading)
    {
      if Truthy(reportToDelete) {
        var _ := m.DeleteReport(reportToDelete.value, deleted);
      }
      deleteModalOpen := false;
      reportToDelete := None;
    }
  }

  /** Confirming an open dialog after a successful delete removes the clicked report from the page. */
  lemma ConfirmedReportGone(reports: seq<Report>, r: Report)
    requires DeleteEnabled(r)
    ensures r !in AnalyzedReports(WithoutReport(reports, r.id.value))
  {
  }
}
