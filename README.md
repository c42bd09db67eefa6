# MarrowAI core logic in Dafny

MarrowAI is a Next.js web application for patients with aplastic anaemia. Patients can:

- score their symptoms;
- upload PDF lab reports, which are parsed, stored and analysed by a language model;
- browse analytics, a timeline, a specialist directory and a help centre.

This project models the deterministic logic that lies under the rendering and the service calls. Each part is stated in Dafny and proved against its own specification:

- the risk-scoring and lab-value rules of the shared utility library;
- the analytics aggregation, with its insertion-ordered frequency tables and the stable top-five sort;
- the symptom-checker state machine, and the endpoint that scores symptoms;
- the searches, filters and six-card pagination of the specialist directory, the timeline and the report lists;
- the upload manager's per-file status machine and its single-upload admission rule;
- the request validation of the upload, PDF-parsing, analysis, prediction and chat endpoints;
- the page-by-page text assembly of the PDF parser, and the code-fence stripping done before `JSON.parse`;
- the sign-in form's validation, the dashboard's alert thresholds and the FAQ accordion.

One module per source file, plus four shared helper modules:

- `Common`: options, file metadata and JavaScript truthiness.
- `Text`: ASCII case mapping, substring search, JavaScript `trim`, `split`/`join`, and number formatting.
- `Seqs`: `Array.prototype.filter` and its subsequence lemmas.
- `Tally`: the insertion-ordered `Map` counting behind the analytics tables.

How the source is brought into Dafny:

- Strings are `seq<char>`.
- `toLowerCase` and `toUpperCase` are ASCII case mappings.
- `includes` is substring search.
- Laboratory values are `real`, because they are only compared.
- Asynchronous handlers become sequential methods. The outcome of each awaited call is a parameter: a `fetch` and what its JSON body held, a database query or delete, the PDF library, the language model, `JSON.parse`.
- Random ids are parameters, required to be distinct where the source relies on that.
- React state becomes the fields of a class, and every handler states the whole new state.

## Model

| member | source | states |
|---|---|---|
| RiskScoring.SymptomWeight | src/lib/utils.ts:67-78 | a tag in the high list is worth 25, else one in the medium list 15, and anything else 5 |
| RiskScoring.CalculateRiskScore | src/lib/utils.ts:63-97 | the loop that accumulates the score returns the specified score, capped at 100, always in [0, 100] |
| RiskScoring.SymptomPointsConcat | src/lib/utils.ts:71-78 | the symptom points of a concatenation are the sum of the two parts' points |
| RiskScoring.SymptomPointsCons | src/lib/utils.ts:71-78 | a leading tag adds exactly its own weight |
| RiskScoring.SymptomPointsByClass | src/lib/utils.ts:67-78 | the points are 25·#high + 15·#medium + 5·#other, and every element falls in exactly one class |
| RiskScoring.ScoreWithoutBloodCount | src/lib/utils.ts:63-97 | without a lab draw the score is min(100, 25·#high + 15·#medium + 5·#other) |
| RiskScoring.ScoreBounds | src/lib/utils.ts:96 | the score lies in [0, 100] for every tag list and lab draw |
| RiskScoring.SymptomPointsPermutation | src/lib/utils.ts:71-78 | two tag lists with the same multiset of elements earn the same points |
| RiskScoring.ScoreIgnoresOrder | src/lib/utils.ts:63-97 | reordering the tags never changes the score |
| RiskScoring.UnknownTagAddsFive | src/lib/utils.ts:75-77 | a tag in neither list is not rejected and adds exactly 5 points |
| RiskScoring.BloodPenaltyAntitone | src/lib/utils.ts:91-94 | lower lab values never lower the penalty |
| RiskScoring.BloodPenaltyThresholds | src/lib/utils.ts:91-94 | the thresholds are strict, so values exactly at them add nothing; the penalty is 0 exactly when all four values are at or above their thresholds, and never more than 95 |
| RiskScoring.CommonSymptomWeights | src/lib/mockData.ts:299-384 | of the fourteen ids the checker offers, only two are weighted 25 and three 15; the other nine, fatigue and easy_bruising among them, are in neither list and score 5 |
| RiskScoring.CommonSymptomsTotal | src/lib/mockData.ts:299-384 | selecting every offered symptom gives 140 points, which the cap turns into 100 |
| RiskScoring.SymptomPointsSnoc | src/lib/utils.ts:71-78 | each step of the loop adds the weight of the next tag |
| RiskScoring.GetRiskLevel | src/lib/utils.ts:100-104 | up to 30 is low, 31 to 60 medium, above 60 high, each as an if-and-only-if |
| RiskScoring.RiskLevelMonotone | src/lib/utils.ts:100-104 | a higher score never gives a lower level |
| RiskScoring.RiskColorsDistinguishLevels | src/lib/utils.ts:29-53 | the three levels get three different text styles and badge styles, never the grey fallback |
| RiskScoring.IsBloodCountAbnormal | src/lib/utils.ts:106-122 | true exactly when some analyte lies strictly outside its range; boundary values are normal |
| RiskScoring.PenaltyImpliesAbnormal | src/lib/utils.ts:91-94 | a lab draw that earns a score penalty is also flagged abnormal |
| RiskScoring.TruncateText | src/lib/utils.ts:128-131 | text that fits is returned unchanged; longer text becomes its first maxLength characters followed by "..." |
| RiskScoring.TruncateBounds | src/lib/utils.ts:128-131 | the result is at most three characters longer than the limit and always begins with a prefix of the text |
| RiskScoring.ExtensionLabel | src/lib/utils.ts:146-161 | the label is one of six fixed labels, and "Unknown" exactly for extensions outside the seven known ones |
| RiskScoring.FileTypeByLastExtension | src/lib/utils.ts:145 | only the part after the last dot decides the file type |
| RiskScoring.FileTypeIgnoresCase | src/lib/utils.ts:145 | the extension is compared case-insensitively |
| RiskScoring.LowerLastSegment | src/lib/utils.ts:145 | lower-casing commutes with taking the last dot-separated segment |
| RiskScoring.LastSegmentAfterDot | src/lib/utils.ts:145 | a leading dot adds one segment and does not change the last one |
| RiskScoring.LastSegmentAfterOther | src/lib/utils.ts:145 | a leading non-dot character extends the first segment only |
| RiskScoring.FileTypeWithoutDot | src/lib/utils.ts:145 | a name without a dot is read as its own extension |
| RiskScoring.IndexOf | src/lib/utils.ts:165 | the position of the first occurrence of a character, or -1 when it does not occur |
| RiskScoring.ValidateEmail | src/lib/utils.ts:164-167 | true exactly when the anchored pattern matches: no whitespace, a single '@' with text before it, and after it a '.' that is neither first nor last |
| RiskScoring.EmailShapeIff | src/lib/utils.ts:164-167 | the scan around the first '@' decides the anchored pattern in both directions |
| RiskScoring.EmailShapeAccepted | src/lib/utils.ts:164-167 | every matching address passes each of the checks the scan makes |
| Tally.KeyIndex | src/app/analytics/page.tsx:89-94 | the position of a key among the map's entries, or -1, and no earlier entry has that key |
| Tally.MapSet | src/app/analytics/page.tsx:91 | `Map.set` appends a new key at the end, and a present key keeps its place and takes the new value |
| Tally.BumpFacts | src/app/analytics/page.tsx:91 | one `set(k, get(k) + 1)` raises k's count by one and no other count, and keeps the keys unique |
| Tally.FrequenciesCorrect | src/app/analytics/page.tsx:89-94 | the table has one row per distinct tag, in first-seen order; each row counts the occurrences of its tag, and the counts sum to the number of tags |
| Tally.SortByCountDescCorrect | src/app/analytics/page.tsx:97 | the sort is non-increasing and a permutation, and entries with equal counts keep their order (stability) |
| Tally.SortAllTied | src/app/analytics/page.tsx:97 | a table whose rows all share one count comes out of the stable sort unchanged |
| Tally.Top | src/app/analytics/page.tsx:98 | `slice(0, n)` yields the first n rows, in order, or the whole table when it is shorter |
| Tally.TopDominates | src/app/analytics/page.tsx:95-98 | the top rows are non-increasing, no row left out has a larger count, and there are n of them when the table has n |
| Tally.TopTiesFirstSeen | src/app/analytics/page.tsx:95-98 | for each count, the top rows with that count are the first rows of the table with that count, in table order |
| Analytics.FilteredData | src/app/analytics/page.tsx:35-47 | the window is an order-preserving subsequence holding exactly the entries dated at or after the epoch |
| Analytics.WindowIgnoresPeriod | src/app/analytics/page.tsx:37-45 | every period choice gives the same window |
| Analytics.WindowKeepsDatedEntries | src/app/analytics/page.tsx:46 | when every date is valid and at or after the epoch, the window is the whole list |
| Analytics.AggregatedStats | src/app/analytics/page.tsx:50-75 | an empty window gives zeros and no blood counts; otherwise the counts are bounded by the window length and the blood counts come from the last entry |
| Analytics.AggregatedStatsSnoc | src/app/analytics/page.tsx:61-72 | one more entry adds one high-risk day exactly when it scores 70 or more, one report exactly when it has a report type, its tags to the symptom count and its score to the averaged sum, and supplies the latest blood counts |
| Analytics.HighRiskDaysInclusive | src/app/analytics/page.tsx:62 | a score of exactly 70 counts as a high-risk day and 69 does not |
| Analytics.TotalScoreBounds | src/app/analytics/page.tsx:61 | the total lies between n times the minimum score and n times the maximum |
| Analytics.RoundDivBetween | src/app/analytics/page.tsx:68 | a rounded mean of values in [lo, hi] stays in [lo, hi] |
| Analytics.AverageWithinRange | src/app/analytics/page.tsx:61-68 | the average of a non-empty window lies between its lowest and its highest score |
| Analytics.AverageOfEqualScores | src/app/analytics/page.tsx:61-68 | when every score is s, the average is exactly s |
| Analytics.MinMaxAttained | src/app/analytics/page.tsx:61 | the minimum and the maximum score are each some entry's score |
| Analytics.AllSymptomsLength | src/app/analytics/page.tsx:64 | the tags of the window number exactly symptomCount |
| Analytics.SymptomFrequencyMap | src/app/analytics/page.tsx:89-94 | the nested loop builds exactly the frequency table of all the window's tags |
| Analytics.CountTags | src/app/analytics/page.tsx:90-92 | the inner loop over one entry's tags extends the table by those tags |
| Analytics.SymptomFrequenciesCorrect | src/app/analytics/page.tsx:64-94 | one row per distinct tag, in first-seen order; each row counts its tag's occurrences, repeats within one entry included, and the counts sum to symptomCount |
| Analytics.SymptomFrequencyDataCorrect | src/app/analytics/page.tsx:95-98 | at most five rows with non-increasing counts, drawn from the table; they are the first five rows of the stable sort; nothing left out has a larger count; for each count, the rows shown are the first-seen rows of that count, in first-seen order |
| Analytics.AllTiedShowsFirstFive | src/app/analytics/page.tsx:95-98 | when every symptom has the same count, the chart shows the first five symptoms of the table, in table order |
| Analytics.ReportTypeDistributionMap | src/app/analytics/page.tsx:100-105 | the loop builds exactly the frequency table of the truthy report types |
| Analytics.ReportTypesCount | src/app/analytics/page.tsx:63 | the truthy report types number exactly as the entries that have one |
| Analytics.ReportTypeDistributionCorrect | src/app/analytics/page.tsx:100-107 | one row per distinct truthy type, in first-seen order, with values summing to totalReports |
| Analytics.ReportTypeColors | src/app/analytics/page.tsx:110-118 | the four known types get four different colours, and grey is used exactly for every other type |
| Analytics.ReportTypeDistributionData | src/app/analytics/page.tsx:106-107 | one chart slice per table row, in order, with the row's name, its count and its type's colour |
| SymptomChecker.Ids | src/app/symptoms/page.tsx:94-96 | the ids of the selection, position by position |
| SymptomChecker.ToggleFlips | src/app/symptoms/page.tsx:98-108 | toggling flips the membership of that id and of no other |
| SymptomChecker.ToggleKeepsUnique | src/app/symptoms/page.tsx:98-108 | the selected ids stay distinct |
| SymptomChecker.SubsequenceKeepsUnique | src/app/symptoms/page.tsx:102 | removing entries keeps the ids distinct |
| SymptomChecker.SubsequenceMember | src/app/symptoms/page.tsx:102 | every entry left after removal was in the list before |
| SymptomChecker.ToggleTwiceRestores | src/app/symptoms/page.tsx:98-108 | toggling an unselected id twice gives back the original list |
| SymptomChecker.UpdateById | src/app/symptoms/page.tsx:110-116 | the length is kept; entries with other ids are unchanged, and the matching entry has the one field replaced |
| SymptomChecker.UpdateChangesOneField | src/app/symptoms/page.tsx:110-116 | the ids and the two other fields of every entry are unchanged |
| SymptomChecker.Recommendations | src/app/symptoms/page.tsx:123-149 | five recommendations; each of the three fixed lists belongs to exactly one level |
| SymptomChecker.AssessmentConsistent | src/app/symptoms/page.tsx:118-152 | the score lies in [0, 100], the level is the score's level, and there are five recommendations |
| SymptomChecker.AssessmentIgnoresDetails | src/app/symptoms/page.tsx:110-121 | editing severity, duration or notes never changes the assessment |
| SymptomChecker.SymptomCheckerPage.constructor | src/app/symptoms/page.tsx:30-32 | the page opens with nothing selected, on step 1, without an assessment |
| SymptomChecker.SymptomCheckerPage.Toggle | src/app/symptoms/page.tsx:98-108 | the selection becomes the toggled one, and the step and assessment are unchanged |
| SymptomChecker.SymptomCheckerPage.UpdateDetails | src/app/symptoms/page.tsx:110-116 | only the matching entry's one field changes |
| SymptomChecker.SymptomCheckerPage.GenerateRiskAssessment | src/app/symptoms/page.tsx:118-153 | the computed score equals the ids' score; the level and advice come from that score; the step becomes 3 |
| SymptomChecker.SymptomCheckerPage.Reset | src/app/symptoms/page.tsx:155-159 | empty selection, no assessment, step 1 |
| SymptomChecker.SymptomCheckerPage.Next | src/app/symptoms/page.tsx:247-249 | on step 1, with a non-empty selection the step becomes 2; with none, nothing changes |
| SymptomChecker.SymptomCheckerPage.Back | src/app/symptoms/page.tsx:335 | step 2 returns to step 1 and keeps the selection |
| SymptomsApi.Urgency | src/app/api/symptoms/route.ts:20-48 | high maps to "urgent", medium to "soon", low to "routine" |
| SymptomsApi.UrgencyDistinguishesLevels | src/app/api/symptoms/route.ts:20-48 | two levels share an urgency exactly when they are equal |
| SymptomsApi.RouteListsMatchPage | src/app/api/symptoms/route.ts:22-48 | the endpoint's advice lists are word for word the page's, five items each |
| SymptomsApi.Post | src/app/api/symptoms/route.ts:5-66 | a body that is not JSON gives 500; a missing or non-array symptoms member gives 400 "Invalid symptoms data" |
| SymptomsApi.PostCorrect | src/app/api/symptoms/route.ts:9-60 | assessed exactly for an array of symptoms, the empty one included; the score equals the ids' score without lab values and lies in [0, 100], and the level, urgency and advice follow from it |
| SymptomsApi.PostAgreesWithPage | src/app/api/symptoms/route.ts:16-17 | the endpoint and the page give the same ids the same score, level and advice |
| Connect.FilteredDoctors | src/app/connect/connect-client.tsx:17-27 | an order-preserving subsequence holding exactly the doctors matching both the search and the specialty |
| Connect.EmptySearchListsEveryone | src/app/connect/connect-client.tsx:18-26 | an empty search with "all" selected lists every doctor, in order |
| Connect.SearchIgnoresCase | src/app/connect/connect-client.tsx:18-24 | the search term's letter case never changes the result |
| Connect.MatchesLonger | src/app/connect/connect-client.tsx:18-24 | a doctor matching a longer term also matches every prefix of it |
| Connect.LongerSearchNarrows | src/app/connect/connect-client.tsx:17-27 | typing more of the term lists a subsequence of what was listed before |
| Connect.AllSpecialtiesWidest | src/app/connect/connect-client.tsx:25 | any specialty choice lists a subsequence of what "all" lists |
| Connect.SliceIndex | src/app/connect/connect-client.tsx:31 | `slice` bounds: negative ones count from the end, and all are clamped to [0, n] |
| Connect.TotalPages | src/app/connect/connect-client.tsx:32 | the fewest pages of six that hold n cards, and 0 exactly for n = 0 |
| Connect.PageAtMostSix | src/app/connect/connect-client.tsx:29-31 | no page shows more than six cards |
| Connect.PageContents | src/app/connect/connect-client.tsx:29-32 | pages 1 to the page count are the non-empty stretches of six that they name, and later pages are empty |
| Connect.PagesPrefix | src/app/connect/connect-client.tsx:29-32 | pages 1 to k together are the first 6k doctors |
| Connect.PagesCoverList | src/app/connect/connect-client.tsx:29-32 | reading every page in order shows each filtered doctor exactly once, in list order |
| Connect.CardsShownUnlessNoMatch | src/app/connect/connect-client.tsx:29-32 | on a reachable page the grid is empty only when nothing matches |
| Connect.DoctorDirectory.constructor | src/app/connect/connect-client.tsx:8-11 | the directory opens with an empty search, all specialties and page 1, listing every doctor |
| Connect.DoctorDirectory.SetSearch | src/app/connect/connect-client.tsx:58-61 | the term is stored and the page resets to 1 |
| Connect.DoctorDirectory.SetSpecialty | src/app/connect/connect-client.tsx:69-72 | the specialty is stored and the page resets to 1 |
| Connect.DoctorDirectory.ClearAll | src/app/connect/connect-client.tsx:170-174 | back to "", "all" and page 1, where every doctor is listed |
| Connect.DoctorDirectory.PreviousPage | src/app/connect/connect-client.tsx:128-133 | one page back, only when the controls are shown and the page is not the first |
| Connect.DoctorDirectory.NextPage | src/app/connect/connect-client.tsx:152-155 | one page on, only when the controls are shown and the page is not the last |
| Connect.DoctorDirectory.GoToPage | src/app/connect/connect-client.tsx:139-142 | a numbered button from 1 to the page count sets that page |
| UploadManager.Apply | src/app/upload/hooks/useMedicalReportManager.ts:89-149 | each update rewrites only its own fields; the id, the file and the form values always survive |
| UploadManager.MapById | src/app/upload/hooks/useMedicalReportManager.ts:89-149 | only the entries with the matching id change, each by the update; the length is kept |
| UploadManager.StatusStepAbsorbed | src/app/upload/hooks/useMedicalReportManager.ts:89-149 | an intermediate status is fully overwritten by the next update of the same entry |
| UploadManager.WithoutId | src/app/upload/hooks/useMedicalReportManager.ts:194-196 | an order-preserving subsequence holding exactly the entries with another id |
| UploadManager.WithoutIdFacts | src/app/upload/hooks/useMedicalReportManager.ts:194-196 | no entry with the id is left, and an id that is not present changes nothing |
| UploadManager.TypeChecked | src/app/upload/hooks/useMedicalReportManager.ts:172-188 | a PDF stays as it was; anything else is failed with the message naming its type; identity and form values are kept |
| UploadManager.NewEntries | src/app/upload/hooks/useMedicalReportManager.ts:162-169 | one pending entry per dropped file, carrying the manager's report type and notes |
| UploadManager.ProcessedAreExactlyPdfs | src/app/upload/hooks/useMedicalReportManager.ts:172-188 | the entries handed on for processing are exactly the PDF ones of the drop, all pending |
| UploadManager.CheckNext | src/app/upload/hooks/useMedicalReportManager.ts:175-186 | failing the next entry by its id touches only that entry, because the ids are distinct |
| UploadManager.TypeCheckDrop | src/app/upload/hooks/useMedicalReportManager.ts:172-188 | after the loop every entry is type-checked in place, and the PDFs, in order, are the ones processed |
| UploadManager.FormFields | src/app/upload/hooks/useMedicalReportManager.ts:93-99 | the file's own report type wins over the default; notes are sent only when non-empty |
| UploadManager.CaughtMessage | src/app/upload/hooks/useMedicalReportManager.ts:144 | the error message is never empty and keeps a non-empty thrown message |
| UploadManager.NonOkMessage | src/app/upload/hooks/useMedicalReportManager.ts:117-148 | a non-OK response fails the entry with the server's error text, or with "HTTP error! status: N" when there is none |
| UploadManager.TrailFacts | src/app/upload/hooks/useMedicalReportManager.ts:75-149 | processing always ends in completed or error; the states before the last one follow uploading, then processing, possibly cut short (a failed request goes from uploading straight to error, a signed-out call shows only error); it completes exactly when a user is signed in and the response is OK with a readable body |
| UploadManager.FileTypeTagFacts | src/app/upload/hooks/useMedicalReportManager.ts:252 | only the text after the last dot names the type, upper-cased; a name without a dot is its own type; "" stays "" |
| UploadManager.ReportManager.constructor | src/app/upload/hooks/useMedicalReportManager.ts:33-39 | the manager starts with no files, no saved reports, the "general" report type and empty notes |
| UploadManager.ReportManager.SetReportType | src/app/upload/hooks/useMedicalReportManager.ts:36 | only the report type changes |
| UploadManager.ReportManager.SetNotes | src/app/upload/hooks/useMedicalReportManager.ts:37 | only the notes change |
| UploadManager.ReportManager.SetSearchTerm | src/app/upload/hooks/useMedicalReportManager.ts:38 | only the search term changes |
| UploadManager.ReportManager.LoadSavedReports | src/app/upload/hooks/useMedicalReportManager.ts:51-73 | nothing happens without a user; otherwise the list becomes what was fetched, or empty on failure, and loading ends |
| UploadManager.ReportManager.UserChanged | src/app/upload/hooks/useMedicalReportManager.ts:41-49 | signing out clears the saved reports, and signing in loads that user's reports |
| UploadManager.ReportManager.OnDrop | src/app/upload/hooks/useMedicalReportManager.ts:152-190 | a drop is admitted exactly when nothing is saved or uploaded yet; a refused drop changes nothing; an admitted one appends the type-checked entries and processes exactly the PDFs |
| UploadManager.ReportManager.ProcessFile | src/app/upload/hooks/useMedicalReportManager.ts:75-150 | signed out, the entry fails with "Please log in to upload files", nothing is sent and nothing else changes; signed in, it gets the form it was sent with and the outcome's final update, and completion reloads the reports and clears the notes |
| UploadManager.ReportManager.RemoveFile | src/app/upload/hooks/useMedicalReportManager.ts:194-196 | exactly the entries with that id are removed, and nothing else changes |
| UploadManager.ReportManager.DeleteReport | src/app/upload/hooks/useMedicalReportManager.ts:198-208 | a successful delete reloads the list; a failure leaves it |
| UploadManager.ReportManager.SearchReports | src/app/upload/hooks/useMedicalReportManager.ts:210-228 | a blank term reloads; otherwise the results replace the list, and a failed search keeps it |
| ParsePdf.ItemTexts | src/app/api/parse-pdf/route.ts:56 | each item gives its string, and an item without one gives "" |
| ParsePdf.RawTextSnoc | src/app/api/parse-pdf/route.ts:57 | appending a page appends its text and a line feed |
| ParsePdf.ExtractText | src/app/api/parse-pdf/route.ts:50-58 | the loop over pages 1 to numPages builds the specified raw text |
| ParsePdf.JoinAvoids | src/app/api/parse-pdf/route.ts:56 | joining parts that lack a character, with another separator, gives text without that character |
| ParsePdf.PageTextOneLine | src/app/api/parse-pdf/route.ts:56 | a page whose items hold no line feed has a one-line text |
| ParsePdf.PageTexts | src/app/api/parse-pdf/route.ts:56 | the text of each page, in page order |
| ParsePdf.OneLineTail | src/app/api/parse-pdf/route.ts:53-58 | the one-line condition holds for the first page and for the rest |
| ParsePdf.SplitFirstLine | src/app/api/parse-pdf/route.ts:57 | splitting at line feeds separates a first line from the rest |
| ParsePdf.RawTextSplitsIntoPages | src/app/api/parse-pdf/route.ts:53-58 | when no item holds a line feed, splitting the raw text at line feeds gives back the page texts in order, followed by "" |
| ParsePdf.Validate | src/app/api/parse-pdf/route.ts:31-39 | a missing file or user id fails first; a non-PDF fails next; the form is valid exactly when neither applies |
| ParsePdf.Post | src/app/api/parse-pdf/route.ts:18-107 | the route, with its text-assembly loop, answers and writes the specified response and record |
| ParsePdf.RespondOutcomes | src/app/api/parse-pdf/route.ts:31-106 | success exactly when the form is valid and both the library and the save succeed; a bad form gives 400 with its message; any other failure gives 500 "Failed to process request." with the thrown message as details |
| ParsePdf.WrittenRecordFacts | src/app/api/parse-pdf/route.ts:65-74 | the saved record holds the trimmed text and its exact length, the page count with version "", the report type or "general", notes only when non-empty, and is not yet analysed |
| AnalyzePdf.RemoveFences | src/app/api/analyze-pdf/route.ts:39 | removing the fences never lengthens the text |
| AnalyzePdf.KeepsPlainChar | src/app/api/analyze-pdf/route.ts:39 | a character that is not a backtick starts no match and is kept |
| AnalyzePdf.RemoveFencesNoBacktick | src/app/api/analyze-pdf/route.ts:39 | text without a backtick passes through whole |
| AnalyzePdf.RemoveFencesPlainPrefix | src/app/api/analyze-pdf/route.ts:39 | a backtick-free prefix is kept as it is |
| AnalyzePdf.DropsJsonFence | src/app/api/analyze-pdf/route.ts:39 | an opening json fence is removed whole, and not as a plain fence followed by "json" |
| AnalyzePdf.ClosingFenceRemoved | src/app/api/analyze-pdf/route.ts:39 | a closing fence is removed |
| AnalyzePdf.UnfencedPassesThrough | src/app/api/analyze-pdf/route.ts:37-38 | an answer not both opened by a json fence and closed by a fence reaches the parser exactly as trimmed |
| AnalyzePdf.FencedBodyRecovered | src/app/api/analyze-pdf/route.ts:37-40 | a json-fenced body without backticks reaches the parser as the trimmed body |
| AnalyzePdf.PostOutcomes | src/app/api/analyze-pdf/route.ts:10-48 | a missing or empty text gives 400 whatever the model would do; otherwise the data is exactly what the parser made of the cleaned answer; any model or parse failure gives 500 "Failed to analyze text" |
| UploadApi.PostOutcomes | src/app/api/upload/route.ts:8-48 | acknowledged exactly for a present file of a whitelisted type and at most 52428800 bytes, echoing its name; a missing file is refused with "No file provided"; a wrong type is reported before the size |
| UploadApi.SizeLimitInclusive | src/app/api/upload/route.ts:33-38 | exactly 50 MB is accepted, and one byte more is refused |
| UploadApi.WhitelistDistinct | src/app/api/upload/route.ts:17-24 | the whitelist names six distinct types |
| Predictions.SelectPrediction | src/app/api/predictions/route.ts:53 | "biopsy" selects the biopsy prediction, and every other type the CBC one |
| Predictions.PostOutcomes | src/app/api/predictions/route.ts:8-85 | no file id gives 400; otherwise the response echoes the id, copies every field of the selected prediction, and carries the two fixed five-item lists |
| Predictions.InheritedNameLosesPrediction | src/app/api/predictions/route.ts:53 | as written, the type "constructor" yields a response without diagnosis or confidence, where the CBC fallback was intended |
| Predictions.AsWrittenAgreesElsewhere | src/app/api/predictions/route.ts:53 | away from the inherited property names, the lookup as written and the corrected one agree |
| Predictions.GetOutcomes | src/app/api/predictions/route.ts:100-119 | no id gives 400 "Prediction ID required"; any other id is reported completed, with the CBC diagnosis |
| Chat.ResponseIgnoresCase | src/app/api/chat/route.ts:16 | the reply to a message equals the reply to its lower-cased form |
| Chat.ResponseRules | src/app/api/chat/route.ts:15-35 | the reply is one of five fixed texts; each rule answers exactly when it matches and no earlier rule does; the help text answers exactly when no keyword occurs |
| Chat.RepliesDistinct | src/app/api/chat/route.ts:19-34 | the five replies are pairwise different |
| Chat.PostOutcomes | src/app/api/chat/route.ts:3-53 | a missing or empty message gives 400; a text message gets its keyword reply, with the context echoed or {} in its place |
| Auth.Set | src/components/auth/AuthPage.tsx:84 | the named field takes the value, and every other field keeps its own |
| Auth.PatternUnanchored | src/components/auth/AuthPage.tsx:30 | the unanchored e-mail pattern still matches whatever text surrounds a match |
| Auth.SharedValidatorIsStricter | src/components/auth/AuthPage.tsx:30 | every address the shared anchored validator accepts, the form accepts too |
| Auth.FormAcceptsPaddedAddress | src/components/auth/AuthPage.tsx:30 | "x a@b.c" passes the form's check but not the shared validator |
| Auth.FormErrorsByRule | src/components/auth/AuthPage.tsx:25-47 | the error map is what applying the four field rules in turn to an empty map leaves |
| Auth.FieldRules | src/components/auth/AuthPage.tsx:28-47 | an e-mail error exactly for an empty or unmatched address, reporting emptiness first; a password error exactly below six characters, reporting emptiness first; in signup mode, a name error exactly for an empty name and a confirmation error exactly for a mismatch |
| Auth.LoginIgnoresSignupFields | src/components/auth/AuthPage.tsx:40-47 | signing in never reports the name or the confirmation, whatever they hold |
| Auth.AuthForm.constructor | src/components/auth/AuthPage.tsx:12-22 | the form opens in sign-in mode with empty fields, no errors and not loading |
| Auth.AuthForm.SetMode | src/components/auth/AuthPage.tsx:206-214 | the tabs switch the mode and nothing else |
| Auth.AuthForm.ValidateForm | src/components/auth/AuthPage.tsx:25-51 | the error map is replaced wholesale by the rules' map, and the result is true exactly when that map is empty |
| Auth.AuthForm.HandleSubmit | src/components/auth/AuthPage.tsx:53-69 | no call while any rule fails; otherwise login or signup with the form's values, by mode; loading ends cleared |
| Auth.AuthForm.HandleInputChange | src/components/auth/AuthPage.tsx:82-88 | only the named field changes; only its error is blanked, and only when it had one |
| Auth.InputChangeIsLocal | src/components/auth/AuthPage.tsx:82-88 | every other field keeps its value and its error |
| History.FilteredEvents | src/app/history/page.tsx:16-21 | an order-preserving subsequence holding exactly the events of the chosen type whose title or description holds the term |
| History.EverythingInitially | src/app/history/page.tsx:13-21 | all types with an empty search show the whole timeline |
| History.OneTypeWithinAll | src/app/history/page.tsx:17 | one type shows a subsequence of what all types show |
| History.MatchesLonger | src/app/history/page.tsx:18-19 | an event matching a longer term also matches every prefix of it |
| History.LongerSearchNarrows | src/app/history/page.tsx:18-19 | a longer term shows a subsequence of what its prefix showed |
| History.EventIcon | src/app/history/page.tsx:31-44 | visits, reports and symptoms get their own icons, and tests and every other type get the activity icon |
| ReportsManager.FilteredReports | src/app/reports/hooks/useReportsManager.ts:56-62 | an order-preserving subsequence holding exactly the reports whose file name, or present notes or text, contain the term case-insensitively |
| ReportsManager.EmptySearchKeepsAll | src/app/reports/hooks/useReportsManager.ts:56-62 | an empty term keeps every report, in order |
| ReportsManager.MatchesLonger | src/app/reports/hooks/useReportsManager.ts:58-60 | a report matching a longer term matches its prefix |
| ReportsManager.LongerSearchNarrows | src/app/reports/hooks/useReportsManager.ts:56-62 | a longer term lists a subsequence of what its prefix lists |
| ReportsManager.WithoutReport | src/app/reports/hooks/useReportsManager.ts:48 | an order-preserving subsequence holding exactly the reports with another id; a report without an id is never removed |
| ReportsManager.WithoutReportFacts | src/app/reports/hooks/useReportsManager.ts:48 | an absent id changes nothing, and removing an id twice is removing it once |
| ReportsManager.Manager.constructor | src/app/reports/hooks/useReportsManager.ts:8-11 | the hook starts with no reports, an empty search and not loading |
| ReportsManager.Manager.SetUser | src/app/reports/hooks/useReportsManager.ts:8 | only the user changes |
| ReportsManager.Manager.SetSearchTerm | src/app/reports/hooks/useReportsManager.ts:10 | only the term changes |
| ReportsManager.Manager.LoadReports | src/app/reports/hooks/useReportsManager.ts:13-40 | signed out, the list is emptied and no query is made; signed in, the user's query result replaces it, or [] on failure, and loading ends false |
| ReportsManager.Manager.DeleteReport | src/app/reports/hooks/useReportsManager.ts:42-54 | signed out, nothing happens; otherwise a success removes exactly the reports with that id, a failure keeps the list, and loading ends false either way |
| ReportsPage.AnalyzedReports | src/app/reports/page.tsx:53 | an order-preserving subsequence holding exactly the AI-analysed reports |
| ReportsPage.ListedReports | src/app/reports/page.tsx:53-82 | the page lists exactly the stored reports that are analysed and match the search, in stored order |
| ReportsPage.ReportIcon | src/app/reports/page.tsx:23-34 | CBC, biopsy and imaging get their own icons, and every other or missing type gets the document icon |
| ReportsPage.DeleteDialog.constructor | src/app/reports/page.tsx:21-22 | the dialog starts closed with no report recorded |
| ReportsPage.DeleteDialog.ClickDelete | src/app/reports/page.tsx:39-42 | a report with an id is recorded and the dialog opens; the button does nothing for a report without an id |
| ReportsPage.DeleteDialog.Close | src/app/reports/page.tsx:152 | dismissing closes the dialog and keeps the recorded id |
| ReportsPage.DeleteDialog.ConfirmDelete | src/app/reports/page.tsx:44-50 | deletes only when an id is recorded; the dialog always closes and the id is forgotten; when a delete was requested the reports' loading flag ends cleared, otherwise it is untouched; an open dialog always has an id |
| ReportsPage.ConfirmedReportGone | src/app/reports/page.tsx:44-53 | after a successful delete, the confirmed report no longer appears on the page |
| Dashboard.GetAlertLevel | src/app/dashboard/page.tsx:43-47 | three or more is danger/Critical, one or two warning/Attention, and below one success/Normal, each as an if-and-only-if |
| Dashboard.AlertLevelMonotone | src/app/dashboard/page.tsx:43-47 | more findings never lower the level |
| Dashboard.BannerMatchesLevel | src/app/dashboard/page.tsx:49-72 | the critical banner shows exactly when the level is not Normal |
| Dashboard.ShortNameFirstTwoWords | src/app/dashboard/page.tsx:38 | a factor of three or more words is shortened to its first two, with the space between them |
| Dashboard.ShortLabelKept | src/app/dashboard/page.tsx:38 | a factor of at most two words is kept whole |
| Help.Toggled | src/app/help/page.tsx:44-46 | clicking the open question closes it; clicking any other opens that one |
| Help.ToggleTwice | src/app/help/page.tsx:44-46 | two clicks restore the accordion when no other answer was open; when another one was, they close everything |
| Help.ToggleOpensOnlyClicked | src/app/help/page.tsx:44-78 | after a click only the clicked question can be open, and none is exactly when it had been open |
| Help.Accordion.constructor | src/app/help/page.tsx:42 | every answer starts closed |
| Help.Accordion.ToggleFaq | src/app/help/page.tsx:42-78 | afterwards exactly the clicked question is open, unless it was open before; at most one answer is ever shown |

## Left out

- Firebase and Firestore plumbing, the Gemini and pdfjs calls, `fetch`, `JSON.parse` and `request.json()` are not modelled. Each appears only as its outcome, passed in as a parameter.
- Random ids (`Math.random`, `generateId`) and timestamps (`Date.now`, `new Date().toISOString()`) are parameters or are dropped from the response values.
- Console logging and `alert` pop-ups have no observable state and are not modelled.
- The upload manager's `viewExtractedText` is not modelled: it opens a browser window.
- `formatFileSize` in the upload manager and in the utility library is not modelled. It is floating-point and locale formatting.
- `formatDate` and the other locale formatting are not modelled.
- The analyse endpoint reads `request.json()` and logs `text.substring(0, 100)` outside its `try`. A body that is not JSON, or a truthy `text` that is not a string (which has no `substring`), throws there. That is an uncaught rejection of the framework, not a response of the route, and is not modelled.
- `Predictions.GetOutcomes`: the 500 branch of the GET handler is not modelled. It can only be reached if URL parsing throws, which a well-formed request URL never does.
- JSON values that are not strings are collapsed where the route only tests truthiness. For example, a numeric `fileId` is treated like any present value.
- React's batching of state updates and the concurrency of asynchronous handlers are not modelled. Each handler runs to completion, in sequence.
- `Auth.FieldRules` counts password length in characters. JavaScript's `length` counts UTF-16 code units, so the two differ for characters outside the basic plane.
- `RiskScoring.TruncateText` measures and cuts the text in characters. JavaScript's `length` and `substr` count UTF-16 code units, so for characters outside the basic plane the source can keep fewer characters or split a surrogate pair, where the model keeps whole characters.
- `ParsePdf.WrittenRecordFacts` states `textLength` as the number of characters of the extracted text. The route stores `text.length`, the number of UTF-16 code units, which is larger for text with characters outside the basic plane.
- `Text.Lower` and `Text.Upper` map ASCII letters only. JavaScript's `toLowerCase` and `toUpperCase` also map other Unicode letters.
- The Google sign-in button of the sign-in page is not modelled: it is a bare provider call.
- The upload manager reads a `text` member from the PDF parser's reply. The parser never sends one, so a completed entry keeps whatever that member held. The model passes the reply's body in as given and does not join the two.

## Findings

| source | as written | input that shows it | evidently intended | confidence | as-written member | corrected member |
|---|---|---|---|---|---|---|
| src/app/api/predictions/route.ts:53 | `mockPredictions[reportType] \|\| mockPredictions.cbc` looks the type up on a plain object, so inherited members such as `constructor` are found and are truthy | a POST with `fileId: "f1"` and `reportType: "constructor"` | any type other than `biopsy` falls back to the CBC prediction; here the response instead lacks confidence, diagnosis, severity and key findings | not executed | Predictions.PostAsWritten, Predictions.InheritedNameLosesPrediction | Predictions.Post, Predictions.SelectPrediction |
