/** The specialist directory: a case-insensitive search over several doctor fields, a specialty filter, and
    pages of six cards. */
module Connect {
  import opened Text
  import opened Seqs

  /** The fields of a doctor that the directory searches and filters on. */
  datatype Doctor = Doctor(
    id: int,
    name: string,
    institution: string,
    location: string,
    diseaseExpertise: seq<string>,
    specialty: string)

  const CardsPerPage := 6
  const Specialties: seq<string> := ["all", "Oncology", "Hematology", "Pediatric Hematology", "Transplant Medicine"]

  /** The lowered term occurs in the lowered name, specialty, institution, location or one of the diseases. */
  predicate MatchesSearch(d: Doctor, term: string) {
    var q := Lower(term);
    Contains(Lower(d.name), q)
    || Contains(Lower(d.specialty), q)
    || Contains(Lower(d.institution), q)
    || Contains(Lower(d.location), q)
    || exists i :: 0 <= i < |d.diseaseExpertise| && Contains(Lower(d.diseaseExpertise[i]), q)
  }

  /** `'all'` admits everyone; any other choice is compared with the specialty exactly, case included. */
  predicate MatchesSpecialty(d: Doctor, specialty: string) {
    specialty == "all" || d.specialty == specialty
  }

  function FilteredDoctors(doctors: seq<Doctor>, term: string, specialty: string): (r: seq<Doctor>)
    ensures IsSubsequence(r, doctors)
    ensures forall d :: d in r <==> d in doctors && MatchesSearch(d, term) && MatchesSpecialty(d, specialty)
  {
    FilterIsSubsequence((d: Doctor) => MatchesSearch(d, term) && MatchesSpecialty(d, specialty), doctors);
    Filter((d: Doctor) => MatchesSearch(d, term) && MatchesSpecialty(d, specialty), doctors)
  }

  /** With an empty search and `'all'` selected, as when the page opens or after clearing, every doctor is listed. */
  lemma EmptySearchListsEveryone(doctors: seq<Doctor>)
    ensures FilteredDoctors(doctors, "", "all") == doctors
  {
    forall d | d in doctors
      ensures MatchesSearch(d, "") && MatchesSpecialty(d, "all")
    {
      ContainsEmpty(Lower(d.name));
    }
    FilterAll((d: Doctor) => MatchesSearch(d, "") && MatchesSpecialty(d, "all"), doctors);
  }

  /** The search ignores letter case in the term. */
  lemma SearchIgnoresCase(doctors: seq<Doctor>, term: string, specialty: string)
    ensures FilteredDoctors(doctors, Lower(term), specialty) == FilteredDoctors(doctors, term, specialty)
  {
    LowerIdempotent(term);
    FilterCongruent(
      (d: Doctor) => MatchesSearch(d, Lower(term)) && MatchesSpecialty(d, specialty),
      (d: Doctor) => MatchesSearch(d, term) && MatchesSpecialty(d, specialty),
      doctors);
  }

  lemma MatchesLonger(d: Doctor, term: string, more: string)
    requires MatchesSearch(d, term + more)
    ensures MatchesSearch(d, term)
  {
    LowerConcat(term, more);
    var q, m := Lower(term), Lower(more);
    if Contains(Lower(d.name), q + m) {
      ContainsLonger(Lower(d.name), q, m);
    } else if Contains(Lower(d.specialty), q + m) {
      ContainsLonger(Lower(d.specialty), q, m);
    } else if Contains(Lower(d.institution), q + m) {
      ContainsLonger(Lower(d.institution), q, m);
    } else if Contains(Lower(d.location), q + m) {
      ContainsLonger(Lower(d.location), q, m);
    } else {
      var i :| 0 <= i < |d.diseaseExpertise| && Contains(Lower(d.diseaseExpertise[i]), q + m);
      ContainsLonger(Lower(d.diseaseExpertise[i]), q, m);
    }
  }

  /** Typing more of the search term only ever narrows the list, keeping its order. */
  lemma LongerSearchNarrows(doctors: seq<Doctor>, term: string, more: string, specialty: string)
    ensures IsSubsequence(FilteredDoctors(doctors, term + more, specialty), FilteredDoctors(doctors, term, specialty))
  {
    forall d | MatchesSearch(d, term + more) && MatchesSpecialty(d, specialty)
      ensures MatchesSearch(d, term) && MatchesSpecialty(d, specialty)
    {
      MatchesLonger(d, term, more);
    }
    FilterStronger(
      (d: Doctor) => MatchesSearch(d, term + more) && MatchesSpecialty(d, specialty),
      (d: Doctor) => MatchesSearch(d, term) && MatchesSpecialty(d, specialty),
      doctors);
  }

  /** Any specialty choice lists a subsequence of what `'all'` lists for the same search. */
  lemma AllSpecialtiesWidest(doctors: seq<Doctor>, term: string, specialty: string)
    ensures IsSubsequence(FilteredDoctors(doctors, term, specialty), FilteredDoctors(doctors, term, "all"))
  {
    FilterStronger(
      (d: Doctor) => MatchesSearch(d, term) && MatchesSpecialty(d, specialty),
      (d: Doctor) => MatchesSearch(d, term) && MatchesSpecialty(d, "all"),
      doctors);
  }

  // ---- JavaScript Array.prototype.slice and the page arithmetic ----

  /** Where a `slice` bound lands: negative bounds count from the end, and both are clamped to [0, n]. */
  function SliceIndex(i: int, n: nat): (k: nat)
    ensures k <= n
    ensures 0 <= i <= n ==> k == i
    ensures i > n ==> k == n
    ensures i < 0 && n + i >= 0 ==> k == n + i
    ensures n + i < 0 ==> k == 0
  {
    if i < 0 then (if n + i < 0 then 0 else n + i) else if i > n then n else i
  }

  function JsSlice<T>(s: seq<T>, start: int, end: int): seq<T> {
    var a, b := SliceIndex(start, |s|), SliceIndex(end, |s|);
    if a < b then s[a..b] else []
  }

  function Min(a: int, b: int): int { if a <= b then a else b }

  /** `Math.ceil(n / 6)`: the fewest pages of six that hold n cards. */
  function TotalPages(n: nat): (t: nat)
    ensures t * CardsPerPage >= n
    ensures t > 0 ==> (t - 1) * CardsPerPage < n
    ensures t == 0 <==> n == 0
  {
    (n + CardsPerPage - 1) / CardsPerPage
  }

  /** The cards of page p: `slice((p - 1) * 6, p * 6)`. */
  function Page<T>(s: seq<T>, p: int): seq<T> {
    JsSlice(s, p * CardsPerPage - CardsPerPage, p * CardsPerPage)
  }

  /** No page, whatever its number, shows more than six cards. */
  lemma PageAtMostSix<T>(s: seq<T>, p: int)
    ensures |Page(s, p)| <= CardsPerPage
  {
  }

  /** A page from 1 to the page count is the stretch of six (the last one possibly shorter) that it names, and is
      never empty; a page past the count is empty. */
  lemma PageContents<T>(s: seq<T>, p: int)
    ensures 1 <= p <= TotalPages(|s|) ==>
      (p - 1) * CardsPerPage < |s|
      && Page(s, p) == s[(p - 1) * CardsPerPage .. Min(p * CardsPerPage, |s|)]
      && Page(s, p) != []
    ensures p > TotalPages(|s|) ==> Page(s, p) == []
  {
    if 1 <= p <= TotalPages(|s|) {
      assert (p - 1) * CardsPerPage <= (TotalPages(|s|) - 1) * CardsPerPage;
    }
    if p > TotalPages(|s|) {
      assert (p - 1) * CardsPerPage >= TotalPages(|s|) * CardsPerPage;
    }
  }

  /** Pages 1 to k, one after the other. */
  function Pages<T>(s: seq<T>, k: int): seq<T>
    decreases k
  {
    if k <= 0 then [] else Pages(s, k - 1) + Page(s, k)
  }

  lemma {:induction false} PagesPrefix<T>(s: seq<T>, k: int)
    requires 0 <= k <= TotalPages(|s|)
    ensures Pages(s, k) == s[..Min(k * CardsPerPage, |s|)]
    decreases k
  {
    if k > 0 {
      PagesPrefix(s, k - 1);
      PageContents(s, k);
      assert (k - 1) * CardsPerPage < |s|;
      var lo, hi := (k - 1) * CardsPerPage, Min(k * CardsPerPage, |s|);
      assert Min((k - 1) * CardsPerPage, |s|) == lo;
      assert s[..lo] + s[lo..hi] == s[..hi];
    }
  }

  /** Reading pages 1 to the page count in order shows each filtered doctor exactly once, in list order. */
  lemma PagesCoverList<T>(s: seq<T>)
    ensures Pages(s, TotalPages(|s|)) == s
  {
    PagesPrefix(s, TotalPages(|s|));
    assert Min(TotalPages(|s|) * CardsPerPage, |s|) == |s|;
  }

  /** The pages the directory can be on: page 1, or any page up to the count. */
  predicate ReachablePage(n: nat, p: int) {
    1 <= p && (p == 1 || p <= TotalPages(n))
  }

  /** On a reachable page the grid is empty only when nothing matches. */
  lemma CardsShownUnlessNoMatch<T>(s: seq<T>, p: int)
    requires ReachablePage(|s|, p)
    ensures Page(s, p) == [] <==> s == []
    ensures p <= TotalPages(|s|) || s == []
  {
    if s != [] {
      PageContents(s, p);
    }
  }

  /** The directory page's state: the search box, the specialty selector and the current page. */
  class DoctorDirectory {
    const doctors: seq<Doctor>
    var searchTerm: string
    var selectedSpecialty: string
    var currentPage: int

    function Filtered(): seq<Doctor>
      reads this
    {
      FilteredDoctors(doctors, searchTerm, selectedSpecialty)
    }

    function PageCount(): nat
      reads this
    {
      TotalPages(|Filtered()|)
    }

    function CurrentCards(): seq<Doctor>
      reads this
    {
      Page(Filtered(), currentPage)
    }

    /** The page number stays one the controls can reach. */
    predicate Valid()
      reads this
    {
      ReachablePage(|Filtered()|, currentPage)
    }

    /** The previous/numbered/next controls are rendered only when there is more than one page. */
    predicate ShowPagination()
      reads this
    {
      PageCount() > 1
    }

    predicate PreviousDisabled()
      reads this
    {
      currentPage == 1
    }

    predicate NextDisabled()
      reads this
    {
      currentPage == PageCount()
    }

    /** The "No Specialists Found" panel with its clear button. */
    predicate ShowNoResults()
      reads this
    {
      |Filtered()| == 0
    }

    constructor(doctors: seq<Doctor>)
      ensures this.doctors == doctors
      ensures searchTerm == "" && selectedSpecialty == "all" && currentPage == 1
      ensures Valid() && Filtered() == doctors
    {
      this.doctors := doctors;
      searchTerm := "";
      selectedSpecialty := "all";
      currentPage := 1;
      new;
      EmptySearchListsEveryone(doctors);
    }

    /** Typing in the search box stores the term and goes back to page 1. */
    method SetSearch(term: string)
      modifies this
      ensures searchTerm == term && currentPage == 1
      ensures selectedSpecialty == old(selectedSpecialty)
      ensures Valid()
    {
      searchTerm := term;
      currentPage := 1;
    }

    /** Choosing a specialty stores it and goes back to page 1. */
    method SetSpecialty(specialty: string)
      modifies this
      ensures selectedSpecialty == specialty && currentPage == 1
      ensures searchTerm == old(searchTerm)
      ensures Valid()
    {
      selectedSpecialty := specialty;
      currentPage := 1;
    }

    /** "Clear All Filters" restores the opening state, where every doctor is listed. */
    method ClearAll()
      modifies this
      ensures searchTerm == "" && selectedSpecialty == "all" && currentPage == 1
      ensures Valid() && Filtered() == doctors
    {
      searchTerm := "";
      selectedSpecialty := "all";
      currentPage := 1;
      EmptySearchListsEveryone(doctors);
    }

    /** "Previous", clickable only while the controls are shown and the page is not the first. */
    method PreviousPage()
      requires Valid() && ShowPagination() && !PreviousDisabled()
      modifies this
      ensures currentPage == old(currentPage) - 1
      ensures searchTerm == old(searchTerm) && selectedSpecialty == old(selectedSpecialty)
      ensures Valid()
    {
      currentPage := currentPage - 1;
    }

    /** "Next", clickable only while the controls are shown and the page is not the last. */
    method NextPage()
      requires Valid() && ShowPagination() && !NextDisabled()
      modifies this
      ensures currentPage == old(currentPage) + 1
      ensures searchTerm == old(searchTerm) && selectedSpecialty == old(selectedSpecialty)
      ensures Valid()
    {
      currentPage := currentPage + 1;
    }

    /** A numbered button; the buttons run from 1 to the page count. */
    method GoToPage(page: int)
      requires ShowPagination() && 1 <= page <= PageCount()
      modifies this
      ensures currentPage == page
      ensures searchTerm == old(searchTerm) && selectedSpecialty == old(selectedSpecialty)
      ensures Valid()
    {
      currentPage := page;
    }
  }
}
