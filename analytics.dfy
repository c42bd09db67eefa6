/** The analytics page: the period window over the daily entries, the headline statistics, the symptom-frequency
    table with its top five, and the report-type histogram. */
module Analytics {
  import opened Common
  import opened Seqs
  import opened Tally
  import RiskScoring

  /** `new Date(d.date)`: a timestamp in milliseconds, or Invalid Date, whose comparisons are all false. */
  datatype Date = ValidDate(ms: int) | InvalidDate

  /** One daily analytics entry, with the fields the page reads. */
  datatype Entry = Entry(
    date: Date, riskScore: int, riskLevel: string, symptoms: seq<string>,
    reportType: Option<string>, bloodCounts: RiskScoring.BloodCount)

  // ---------------------------------------------------------------- window

  /** The cutoff the period switch chooses: it has only the `'all'`/default branch, which takes the epoch. */
  function StartDate(period: string): int {
    0
  }

  /** `new Date(d.date) >= startDate`. */
  predicate OnOrAfter(d: Date, cutoff: int) {
    d.ValidDate? && d.ms >= cutoff
  }

  function InWindow(cutoff: int): Entry -> bool {
    (e: Entry) => OnOrAfter(e.date, cutoff)
  }

  /** `filteredData`: the entries dated on or after the period's cutoff, in their original order. Whatever the period,
      the window keeps exactly the entries with a valid date at or after the epoch. */
  function FilteredData(entries: seq<Entry>, period: string): (w: seq<Entry>)
    ensures IsSubsequence(w, entries)
    ensures forall e :: e in w <==> e in entries && e.date.ValidDate? && e.date.ms >= 0
  {
    FilterIsSubsequence(InWindow(StartDate(period)), entries);
    Filter(InWindow(StartDate(period)), entries)
  }

  /** The chosen period never changes the window. */
  lemma WindowIgnoresPeriod(entries: seq<Entry>, p1: string, p2: string)
    ensures FilteredData(entries, p1) == FilteredData(entries, p2)
  {
  }

  /** With every entry dated at or after the epoch the window is the whole list. */
  lemma WindowKeepsDatedEntries(entries: seq<Entry>, period: string)
    requires forall e :: e in entries ==> e.date.ValidDate? && e.date.ms >= 0
    ensures FilteredData(entries, period) == entries
  {
    FilterAll(InWindow(StartDate(period)), entries);
  }

  // ---------------------------------------------------------------- statistics

  datatype Stats = Stats(
    avgRiskScore: int, highRiskDays: nat, totalReports: nat, symptomCount: nat,
    latestBloodCounts: Option<RiskScoring.BloodCount>)

  function TotalScore(w: seq<Entry>): int
    decreases |w|
  {
    if w == [] then 0 else TotalScore(w[..|w| - 1]) + w[|w| - 1].riskScore
  }

  function SymptomCount(w: seq<Entry>): nat
    decreases |w|
  {
    if w == [] then 0 else SymptomCount(w[..|w| - 1]) + |w[|w| - 1].symptoms|
  }

  /** `Math.round(sum / n)` for a positive count: the floor of `sum / n + 1/2`. */
  function RoundDiv(sum: int, n: int): int
    requires n > 0
  {
    (2 * sum + n) / (2 * n)
  }

  predicate IsHighRisk(e: Entry) {
    e.riskScore >= 70
  }

  predicate HasReportType(e: Entry) {
    Truthy(e.reportType)
  }

  /** `aggregatedStats`: all zeros and no blood counts for an empty window (no division happens); otherwise the
      rounded mean score, the number of entries scoring 70 or more, the number with a report type, the total number
      of symptom tags and the blood counts of the last entry. */
  function AggregatedStats(w: seq<Entry>): (st: Stats)
    ensures w == [] ==> st == Stats(0, 0, 0, 0, None)
    ensures st.highRiskDays <= |w| && st.totalReports <= |w|
    ensures w != [] ==> st.latestBloodCounts == Some(w[|w| - 1].bloodCounts)
  {
    if w == [] then Stats(0, 0, 0, 0, None)
    else
      Stats(RoundDiv(TotalScore(w), |w|),
            |Filter(IsHighRisk, w)|,
            |Filter(HasReportType, w)|,
            SymptomCount(w),
            Some(w[|w| - 1].bloodCounts))
  }

  /** Adding one entry to the end of a window adds one high-risk day exactly when it scores 70 or more, one report
      exactly when it has a report type, its tags to the symptom count and its score to the sum the mean is taken
      over; its blood counts become the latest. With the empty window's zeros this fixes every field for every
      window. */
  lemma AggregatedStatsSnoc(w: seq<Entry>, e: Entry)
    ensures AggregatedStats(w + [e]).highRiskDays == AggregatedStats(w).highRiskDays + (if e.riskScore >= 70 then 1 else 0)
    ensures AggregatedStats(w + [e]).totalReports == AggregatedStats(w).totalReports + (if Truthy(e.reportType) then 1 else 0)
    ensures AggregatedStats(w + [e]).symptomCount == AggregatedStats(w).symptomCount + |e.symptoms|
    ensures AggregatedStats(w + [e]).avgRiskScore == RoundDiv(TotalScore(w) + e.riskScore, |w| + 1)
    ensures AggregatedStats(w + [e]).latestBloodCounts == Some(e.bloodCounts)
  {
    var v := w + [e];
    assert v[..|v| - 1] == w;
    assert TotalScore(v) == TotalScore(w) + e.riskScore;
    assert SymptomCount(v) == SymptomCount(w) + |e.symptoms|;
    FilterSnocLength(IsHighRisk, w, e);
    FilterSnocLength(HasReportType, w, e);
    if w == [] {
      assert Filter(IsHighRisk, w) == [] && Filter(HasReportType, w) == [];
    }
  }

  /** The high-risk threshold is inclusive: an entry scoring exactly 70 counts, one scoring 69 does not. */
  lemma HighRiskDaysInclusive(e: Entry, f: Entry)
    requires e.riskScore == 70 && f.riskScore == 69
    ensures AggregatedStats([e]).highRiskDays == 1
    ensures AggregatedStats([f]).highRiskDays == 0
  {
    assert Filter(IsHighRisk, [e]) == [e];
    assert Filter(IsHighRisk, [f]) == [];
  }

  function MinScore(w: seq<Entry>): int
    requires w != []
    decreases |w|
  {
    if |w| == 1 then w[0].riskScore
    else var m := MinScore(w[..|w| - 1]); if w[|w| - 1].riskScore < m then w[|w| - 1].riskScore else m
  }

  function MaxScore(w: seq<Entry>): int
    requires w != []
    decreases |w|
  {
    if |w| == 1 then w[0].riskScore
    else var m := MaxScore(w[..|w| - 1]); if w[|w| - 1].riskScore > m then w[|w| - 1].riskScore else m
  }

  lemma {:induction false} TotalScoreBounds(w: seq<Entry>)
    requires w != []
    ensures |w| * MinScore(w) <= TotalScore(w) <= |w| * MaxScore(w)
    decreases |w|
  {
    if |w| > 1 {
      var v := w[..|w| - 1];
      TotalScoreBounds(v);
      var n, lo, hi, x := |v|, MinScore(v), MaxScore(v), w[|w| - 1].riskScore;
      MulMonotone(n, MinScore(w), lo);
      MulMonotone(n, hi, MaxScore(w));
      assert (n + 1) * MinScore(w) == n * MinScore(w) + MinScore(w);
      assert (n + 1) * MaxScore(w) == n * MaxScore(w) + MaxScore(w);
    }
  }

  lemma MulMonotone(n: nat, a: int, b: int)
    requires a <= b
    ensures n * a <= n * b
  {
    assert n * b - n * a == n * (b - a);
  }

  /** Rounding a mean stays inside the range of the values averaged. */
  lemma RoundDivBetween(sum: int, n: int, lo: int, hi: int)
    requires n > 0 && n * lo <= sum <= n * hi
    ensures lo <= RoundDiv(sum, n) <= hi
  {
    var q := RoundDiv(sum, n);
    var r := (2 * sum + n) % (2 * n);
    assert 2 * sum + n == 2 * n * q + r && 0 <= r < 2 * n;
    if q < lo {
      MulMonotone(2 * n, q, lo - 1);
    }
    if q > hi {
      MulMonotone(2 * n, hi + 1, q);
    }
  }

  /** The average risk score of a non-empty window lies between its lowest and highest score. */
  lemma AverageWithinRange(w: seq<Entry>)
    requires w != []
    ensures MinScore(w) <= AggregatedStats(w).avgRiskScore <= MaxScore(w)
  {
    TotalScoreBounds(w);
    RoundDivBetween(TotalScore(w), |w|, MinScore(w), MaxScore(w));
  }

  /** Every entry scoring the same gives exactly that score as the average. */
  lemma AverageOfEqualScores(w: seq<Entry>, s: int)
    requires w != [] && forall e :: e in w ==> e.riskScore == s
    ensures AggregatedStats(w).avgRiskScore == s
  {
    AverageWithinRange(w);
    MinMaxAttained(w);
  }

  lemma {:induction false} MinMaxAttained(w: seq<Entry>)
    requires w != []
    ensures exists i :: 0 <= i < |w| && w[i].riskScore == MinScore(w)
    ensures exists i :: 0 <= i < |w| && w[i].riskScore == MaxScore(w)
    decreases |w|
  {
    if |w| == 1 {
      assert w[0].riskScore == MinScore(w) == MaxScore(w);
    } else {
      var v := w[..|w| - 1];
      MinMaxAttained(v);
      var i :| 0 <= i < |v| && v[i].riskScore == MinScore(v);
      var j :| 0 <= j < |v| && v[j].riskScore == MaxScore(v);
      assert w[i] == v[i] && w[j] == v[j];
    }
  }

  // ---------------------------------------------------------------- symptom frequencies

  /** Every symptom tag of the window, entry by entry, repeats included. */
  function AllSymptoms(w: seq<Entry>): seq<string>
    decreases |w|
  {
    if w == [] then [] else AllSymptoms(w[..|w| - 1]) + w[|w| - 1].symptoms
  }

  lemma {:induction false} AllSymptomsLength(w: seq<Entry>)
    ensures |AllSymptoms(w)| == SymptomCount(w)
    decreases |w|
  {
    if w != [] { AllSymptomsLength(w[..|w| - 1]); }
  }

  /** `symptomFrequencyMap`: the `reduce` that walks every entry and, through `CountTags`, every tag in it. It
      leaves the counting table of the window's tags taken in order. */
  method SymptomFrequencyMap(w: seq<Entry>) returns (acc: Counts)
    ensures acc == Frequencies(AllSymptoms(w))
  {
    acc := [];
    for i := 0 to |w|
      invariant acc == Frequencies(AllSymptoms(w[..i]))
    {
      acc := CountTags(acc, AllSymptoms(w[..i]), w[i].symptoms);
      assert w[..i + 1][..i] == w[..i];
    }
    assert w[..|w|] == w;
  }

  /** `d.symptoms.forEach(s => acc.set(s, (acc.get(s) || 0) + 1))` on a table that counts `seen`: afterwards it
      counts `seen + tags`. */
  method CountTags(acc0: Counts, ghost seen: seq<string>, tags: seq<string>) returns (acc: Counts)
    requires acc0 == Frequencies(seen)
    ensures acc == Frequencies(seen + tags)
  {
    acc := acc0;
    assert seen + tags[..0] == seen;
    for j := 0 to |tags|
      invariant acc == Frequencies(seen + tags[..j])
    {
      FrequenciesSnoc(seen + tags[..j], tags[j]);
      assert seen + tags[..j + 1] == (seen + tags[..j]) + [tags[j]];
      acc := MapSet(acc, tags[j], CountOf(acc, tags[j]) + 1);
    }
    assert tags[..|tags|] == tags;
  }

  /** What the table holds: one row per distinct tag of the window, in order of first appearance, each counting the
      tag's occurrences (a tag repeated inside one entry counts each time), the counts summing to `symptomCount`. */
  lemma SymptomFrequenciesCorrect(w: seq<Entry>)
    ensures UniqueKeys(Frequencies(AllSymptoms(w)))
    ensures forall k :: k in Keys(Frequencies(AllSymptoms(w))) <==> k in AllSymptoms(w)
    ensures forall k :: CountOf(Frequencies(AllSymptoms(w)), k) == multiset(AllSymptoms(w))[k]
    ensures SumCounts(Frequencies(AllSymptoms(w))) == AggregatedStats(w).symptomCount
    ensures forall i, j :: 0 <= i < j < |Frequencies(AllSymptoms(w))| ==>
      FirstIndex(AllSymptoms(w), Frequencies(AllSymptoms(w))[i].0)
        < FirstIndex(AllSymptoms(w), Frequencies(AllSymptoms(w))[j].0)
  {
    FrequenciesCorrect(AllSymptoms(w));
    AllSymptomsLength(w);
  }

  /** `symptomFrequencyData`: the table sorted by descending count (stably) and cut to its first five rows. */
  function SymptomFrequencyData(table: Counts): Counts {
    Top(SortByCountDesc(table), 5)
  }

  /** At most five rows (exactly five when the table has that many), counts non-increasing, every row taken from the
      table, no row left out with a larger count than one shown, the rows being the first ones of the stable sort,
      and, for each count, the rows shown with that count being the first such rows of the table (first-seen order)
      in table order. */
  lemma SymptomFrequencyDataCorrect(table: Counts)
    ensures |SymptomFrequencyData(table)| <= 5
    ensures |table| >= 5 ==> |SymptomFrequencyData(table)| == 5
    ensures NonIncreasing(SymptomFrequencyData(table))
    ensures multiset(SymptomFrequencyData(table)) <= multiset(table)
    ensures forall i, j :: 0 <= i < |SymptomFrequencyData(table)| <= j < |SortByCountDesc(table)| ==>
      SymptomFrequencyData(table)[i].1 >= SortByCountDesc(table)[j].1
    ensures forall c :: Filter(HasCount(c), SortByCountDesc(table)) == Filter(HasCount(c), table)
    ensures SymptomFrequencyData(table) <= SortByCountDesc(table)
    ensures forall c :: Filter(HasCount(c), SymptomFrequencyData(table)) <= Filter(HasCount(c), table)
  {
    TopDominates(table, 5);
    TopTiesFirstSeen(table, 5);
    SortByCountDescCorrect(table);
    TopSubMultiset(SortByCountDesc(table), 5);
  }

  lemma TopSubMultiset(s: Counts, n: nat)
    ensures multiset(Top(s, n)) <= multiset(s)
  {
    if |s| > n {
      assert s == s[..n] + s[n..];
      assert multiset(s) == multiset(s[..n]) + multiset(s[n..]);
    }
  }

  /** When every symptom has the same count, the chart shows the first five symptoms of the table, in table order. */
  lemma AllTiedShowsFirstFive(table: Counts, c: nat)
    requires forall e :: e in table ==> e.1 == c
    ensures SymptomFrequencyData(table) == table[..if |table| <= 5 then |table| else 5]
  {
    SortAllTied(table, c);
  }

  // ---------------------------------------------------------------- report types

  /** The truthy report types of the window, in order. */
  function ReportTypes(w: seq<Entry>): seq<string>
    decreases |w|
  {
    if w == [] then []
    else ReportTypes(w[..|w| - 1]) + (if HasReportType(w[|w| - 1]) then [w[|w| - 1].reportType.value] else [])
  }

  /** `reportTypeDistributionMap`: the `reduce` that bumps the count of each entry's report type when it has one. */
  method ReportTypeDistributionMap(w: seq<Entry>) returns (acc: Counts)
    ensures acc == Frequencies(ReportTypes(w))
  {
    acc := [];
    for i := 0 to |w|
      invariant acc == Frequencies(ReportTypes(w[..i]))
    {
      assert w[..i + 1][..i] == w[..i];
      if Truthy(w[i].reportType) {
        var t := w[i].reportType.value;
        FrequenciesSnoc(ReportTypes(w[..i]), t);
        assert ReportTypes(w[..i + 1]) == ReportTypes(w[..i]) + [t];
        assert MapSet(acc, t, CountOf(acc, t) + 1) == Bump(acc, t);
        acc := MapSet(acc, t, CountOf(acc, t) + 1);
      } else {
        assert ReportTypes(w[..i + 1]) == ReportTypes(w[..i]) + [];
        assert ReportTypes(w[..i]) + [] == ReportTypes(w[..i]);
      }
    }
    assert w[..|w|] == w;
  }

  lemma {:induction false} ReportTypesCount(w: seq<Entry>)
    ensures |ReportTypes(w)| == |Filter(HasReportType, w)|
    decreases |w|
  {
    if w != [] {
      var v := w[..|w| - 1];
      ReportTypesCount(v);
      assert w == v + [w[|w| - 1]];
      FilterConcat(HasReportType, v, [w[|w| - 1]]);
    }
  }

  /** The histogram has one row per distinct truthy report type, in first-seen order, and its values add up to
      `totalReports`. */
  lemma ReportTypeDistributionCorrect(w: seq<Entry>)
    ensures UniqueKeys(Frequencies(ReportTypes(w)))
    ensures forall k :: CountOf(Frequencies(ReportTypes(w)), k) == multiset(ReportTypes(w))[k]
    ensures SumCounts(Frequencies(ReportTypes(w))) == AggregatedStats(w).totalReports
    ensures forall i, j :: 0 <= i < j < |Frequencies(ReportTypes(w))| ==>
      FirstIndex(ReportTypes(w), Frequencies(ReportTypes(w))[i].0)
        < FirstIndex(ReportTypes(w), Frequencies(ReportTypes(w))[j].0)
  {
    FrequenciesCorrect(ReportTypes(w));
    ReportTypesCount(w);
  }

  /** `getColorForReportType`. */
  function ColorForReportType(t: string): string {
    if t == "blood_test" then "#ef4444"
    else if t == "biopsy" then "#f59e0b"
    else if t == "imaging" then "#22c55e"
    else if t == "genetic" then "#3b82f6"
    else "#6b7280"
  }

  /** The four known types get four different colours and anything else the grey one. */
  lemma ReportTypeColors(t: string)
    ensures ColorForReportType(t) == "#6b7280" <==> t !in ["blood_test", "biopsy", "imaging", "genetic"]
    ensures t in ["blood_test", "biopsy", "imaging", "genetic"] ==>
      forall u :: u in ["blood_test", "biopsy", "imaging", "genetic"] && u != t ==> ColorForReportType(u) != ColorForReportType(t)
  {
  }

  datatype Slice = Slice(name: string, value: nat, color: string)

  /** `reportTypeDistributionData`: each row of the histogram with its colour, in the table's order. */
  function ReportTypeDistributionData(table: Counts): (d: seq<Slice>)
    ensures |d| == |table|
    ensures forall i :: 0 <= i < |d| ==>
      d[i].name == table[i].0 && d[i].value == table[i].1 && d[i].color == ColorForReportType(table[i].0)
  {
    seq(|table|, i requires 0 <= i < |table| => Slice(table[i].0, table[i].1, ColorForReportType(table[i].0)))
  }
}
