/** The scoring rule and the small lab-value, text and file-name helpers of the shared utility library. */
module RiskScoring {
  import opened Common
  import opened Text

  datatype RiskLevel = Low | Medium | High {
    /** The level's string value, as stored and compared by the pages. */
    function Name(): string {
      match this
      case Low => "low"
      case Medium => "medium"
      case High => "high"
    }

    /** Position in the order low < medium < high. */
    function Rank(): nat {
      match this
      case Low => 0
      case Medium => 1
      case High => 2
    }
  }

  /** One lab draw. Measurements are `real`: the rules below only compare them with constants. */
  datatype BloodCount = BloodCount(
    id: string, date: string,
    wbc: real, rbc: real, hemoglobin: real, hematocrit: real, platelets: real,
    neutrophils: real, lymphocytes: real, monocytes: real, eosinophils: real, basophils: real)

  // ---------------------------------------------------------------- symptom weights

  const HighRiskSymptoms: seq<string> :=
    ["severe_fatigue", "unexplained_bruising", "frequent_infections", "shortness_of_breath"]
  const MediumRiskSymptoms: seq<string> :=
    ["mild_fatigue", "nosebleeds", "pale_skin", "dizziness"]

  /** The points one symptom tag adds: 25 for a high-risk tag, 15 for a medium-risk tag, 5 for anything else. */
  function SymptomWeight(tag: string): (w: nat)
    ensures tag in HighRiskSymptoms ==> w == 25
    ensures tag !in HighRiskSymptoms && tag in MediumRiskSymptoms ==> w == 15
    ensures tag !in HighRiskSymptoms && tag !in MediumRiskSymptoms ==> w == 5
  {
    if tag in HighRiskSymptoms then 25 else if tag in MediumRiskSymptoms then 15 else 5
  }

  /** The sum of the weights of every element of the list, repeats included, walked left to right. */
  function SymptomPoints(tags: seq<string>): nat
    decreases |tags|
  {
    if tags == [] then 0 else SymptomPoints(tags[..|tags| - 1]) + SymptomWeight(tags[|tags| - 1])
  }

  // ---------------------------------------------------------------- lab penalties

  /** The points a lab draw adds: each of four values below its lower bound adds its own penalty. */
  function BloodPenalty(bc: BloodCount): nat {
    (if bc.wbc < 4.0 then 20 else 0)
    + (if bc.rbc < 4.2 then 20 else 0)
    + (if bc.hemoglobin < 12.0 then 25 else 0)
    + (if bc.platelets < 150.0 then 30 else 0)
  }

  function Min(a: int, b: int): int {
    if a <= b then a else b
  }

  /** The score `calculateRiskScore` returns. */
  function RiskScore(tags: seq<string>, bloodCount: Option<BloodCount>): int {
    var labs := if bloodCount.Some? then BloodPenalty(bloodCount.value) else 0;
    Min(SymptomPoints(tags) + labs, 100)
  }

  /** `calculateRiskScore`: accumulate the symptom weights and lab penalties into a running score, then cap it at 100. */
  method CalculateRiskScore(tags: seq<string>, bloodCount: Option<BloodCount>) returns (score: int)
    ensures score == RiskScore(tags, bloodCount)
    ensures 0 <= score <= 100
  {
    score := 0;
    for i := 0 to |tags|
      invariant score == SymptomPoints(tags[..i])
    {
      assert tags[..i + 1][..i] == tags[..i];
      if tags[i] in HighRiskSymptoms {
        score := score + 25;
      } else if tags[i] in MediumRiskSymptoms {
        score := score + 15;
      } else {
        score := score + 5;
      }
    }
    assert tags[..|tags|] == tags;
    if bloodCount.Some? {
      var bc := bloodCount.value;
      if bc.wbc < 4.0 { score := score + 20; }
      if bc.rbc < 4.2 { score := score + 20; }
      if bc.hemoglobin < 12.0 { score := score + 25; }
      if bc.platelets < 150.0 { score := score + 30; }
    }
    score := Min(score, 100);
  }

  /** Number of elements of `tags` in each weight class. */
  function CountHigh(tags: seq<string>): nat
    decreases |tags|
  {
    if tags == [] then 0 else CountHigh(tags[1..]) + (if tags[0] in HighRiskSymptoms then 1 else 0)
  }

  function CountMedium(tags: seq<string>): nat
    decreases |tags|
  {
    if tags == [] then 0
    else CountMedium(tags[1..]) + (if tags[0] !in HighRiskSymptoms && tags[0] in MediumRiskSymptoms then 1 else 0)
  }

  function CountOther(tags: seq<string>): nat
    decreases |tags|
  {
    if tags == [] then 0
    else CountOther(tags[1..]) + (if tags[0] !in HighRiskSymptoms && tags[0] !in MediumRiskSymptoms then 1 else 0)
  }

  lemma {:induction false} SymptomPointsConcat(a: seq<string>, b: seq<string>)
    ensures SymptomPoints(a + b) == SymptomPoints(a) + SymptomPoints(b)
    decreases |b|
  {
    if b == [] {
      assert a + b == a;
    } else {
      var b' := b[..|b| - 1];
      assert (a + b)[..|a + b| - 1] == a + b';
      SymptomPointsConcat(a, b');
    }
  }

  lemma SymptomPointsCons(t: string, rest: seq<string>)
    ensures SymptomPoints([t] + rest) == SymptomWeight(t) + SymptomPoints(rest)
  {
    SymptomPointsConcat([t], rest);
    assert [t][..0] == [];
  }

  /** Score over the weight classes: every element counts, so the total is 25, 15 or 5 points per element. */
  lemma {:induction false} SymptomPointsByClass(tags: seq<string>)
    ensures SymptomPoints(tags) == 25 * CountHigh(tags) + 15 * CountMedium(tags) + 5 * CountOther(tags)
    ensures CountHigh(tags) + CountMedium(tags) + CountOther(tags) == |tags|
    decreases |tags|
  {
    if tags != [] {
      SymptomPointsByClass(tags[1..]);
      SymptomPointsCons(tags[0], tags[1..]);
      assert [tags[0]] + tags[1..] == tags;
    }
  }

  /** Without a lab draw the score is min(100, 25 high + 15 medium + 5 other). */
  lemma ScoreWithoutBloodCount(tags: seq<string>)
    ensures RiskScore(tags, None) == Min(100, 25 * CountHigh(tags) + 15 * CountMedium(tags) + 5 * CountOther(tags))
  {
    SymptomPointsByClass(tags);
  }

  /** The score is always between 0 and 100. */
  lemma ScoreBounds(tags: seq<string>, bloodCount: Option<BloodCount>)
    ensures 0 <= RiskScore(tags, bloodCount) <= 100
  {
  }

  /** The order of the tags does not matter: two lists with the same elements, counted with repeats, score alike. */
  lemma {:induction false} SymptomPointsPermutation(a: seq<string>, b: seq<string>)
    requires multiset(a) == multiset(b)
    ensures SymptomPoints(a) == SymptomPoints(b)
    decreases |a|
  {
    if a == [] {
      assert |b| == |multiset(b)| == 0;
    } else {
      var t := a[0];
      assert t in multiset(b);
      var k :| 0 <= k < |b| && b[k] == t;
      var b' := b[..k] + b[k + 1..];
      assert b == b[..k] + [t] + b[k + 1..];
      assert a == [t] + a[1..];
      assert multiset(a) == multiset([t]) + multiset(a[1..]);
      assert multiset(b) == multiset(b[..k]) + multiset([t]) + multiset(b[k + 1..]);
      assert multiset(b') == multiset(b[..k]) + multiset(b[k + 1..]);
      assert multiset(a[1..]) == multiset(a) - multiset{t};
      assert multiset(b') == multiset(b) - multiset{t};
      SymptomPointsPermutation(a[1..], b');
      SymptomPointsCons(t, a[1..]);
      SymptomPointsConcat(b[..k] + [t], b[k + 1..]);
      SymptomPointsConcat(b[..k], [t]);
      SymptomPointsConcat(b[..k], b[k + 1..]);
      assert SymptomPoints([t]) == SymptomWeight(t) by { assert [t][..0] == []; }
    }
  }

  lemma ScoreIgnoresOrder(a: seq<string>, b: seq<string>, bloodCount: Option<BloodCount>)
    requires multiset(a) == multiset(b)
    ensures RiskScore(a, bloodCount) == RiskScore(b, bloodCount)
  {
    SymptomPointsPermutation(a, b);
  }

  /** An unrecognised tag is not rejected: appending it adds exactly 5 points before the cap. */
  lemma UnknownTagAddsFive(tags: seq<string>, tag: string)
    requires tag !in HighRiskSymptoms && tag !in MediumRiskSymptoms
    ensures SymptomPoints(tags + [tag]) == SymptomPoints(tags) + 5
  {
    assert (tags + [tag])[..|tags|] == tags;
  }

  /** Lower lab values can only raise the penalty. */
  lemma BloodPenaltyAntitone(lo: BloodCount, hi: BloodCount)
    requires lo.wbc <= hi.wbc && lo.rbc <= hi.rbc && lo.hemoglobin <= hi.hemoglobin && lo.platelets <= hi.platelets
    ensures BloodPenalty(lo) >= BloodPenalty(hi)
  {
  }

  /** The thresholds are strict: values exactly at the lower bounds add nothing, and the penalty never exceeds 95. */
  lemma BloodPenaltyThresholds(bc: BloodCount)
    ensures bc.wbc == 4.0 && bc.rbc == 4.2 && bc.hemoglobin == 12.0 && bc.platelets == 150.0 ==> BloodPenalty(bc) == 0
    ensures BloodPenalty(bc) <= 95
    ensures BloodPenalty(bc) == 0 <==> bc.wbc >= 4.0 && bc.rbc >= 4.2 && bc.hemoglobin >= 12.0 && bc.platelets >= 150.0
  {
  }

  /** The symptom ids the checker page offers, in its order. */
  const CommonSymptomIds: seq<string> :=
    ["fatigue", "shortness_of_breath", "pale_skin", "easy_bruising", "nosebleeds", "bleeding_gums",
     "petechiae", "frequent_infections", "prolonged_fever", "slow_healing", "dizziness", "headaches",
     "rapid_heartbeat", "chest_pain"]

  /** Of the fourteen offered ids only two are in the high list and three in the medium list; "fatigue" and
      "easy_bruising" match neither (the lists say "severe_fatigue", "mild_fatigue" and "unexplained_bruising"),
      so they and seven more score 5 each. */
  lemma CommonSymptomWeights()
    ensures SymptomWeight("fatigue") == 5 && SymptomWeight("easy_bruising") == 5
    ensures forall k :: 0 <= k < |CommonSymptomIds| ==>
      SymptomWeight(CommonSymptomIds[k]) == (if k in {1, 7} then 25 else if k in {2, 4, 10} then 15 else 5)
  {
    var ids := CommonSymptomIds;
    assert forall k :: 0 <= k < |ids| && k !in {1, 2, 4, 7, 10} ==> SymptomWeight(ids[k]) == 5;
    assert SymptomWeight(ids[1]) == 25 && SymptomWeight(ids[7]) == 25;
    assert SymptomWeight(ids[2]) == 15 && SymptomWeight(ids[4]) == 15 && SymptomWeight(ids[10]) == 15;
  }

  /** The first seven offered ids are worth 75 points. */
  lemma CommonSymptomsFirstSeven()
    ensures SymptomPoints(CommonSymptomIds[..7]) == 75
  {
    CommonSymptomWeights();
    var ids := CommonSymptomIds;
    assert ids[..0] == [];
    SymptomPointsSnoc(ids, 0); assert SymptomPoints(ids[..1]) == 5;
    SymptomPointsSnoc(ids, 1); assert SymptomPoints(ids[..2]) == 30;
    SymptomPointsSnoc(ids, 2); assert SymptomPoints(ids[..3]) == 45;
    SymptomPointsSnoc(ids, 3); assert SymptomPoints(ids[..4]) == 50;
    SymptomPointsSnoc(ids, 4); assert SymptomPoints(ids[..5]) == 65;
    SymptomPointsSnoc(ids, 5); assert SymptomPoints(ids[..6]) == 70;
    SymptomPointsSnoc(ids, 6);
  }

  /** Selecting every offered symptom gives 2 * 25 + 3 * 15 + 9 * 5 = 140 points, which the cap turns into 100. */
  lemma CommonSymptomsTotal()
    ensures SymptomPoints(CommonSymptomIds) == 140
    ensures RiskScore(CommonSymptomIds, None) == 100
  {
    CommonSymptomWeights();
    CommonSymptomsFirstSeven();
    var ids := CommonSymptomIds;
    SymptomPointsSnoc(ids, 7); assert SymptomPoints(ids[..8]) == 100;
    SymptomPointsSnoc(ids, 8); assert SymptomPoints(ids[..9]) == 105;
    SymptomPointsSnoc(ids, 9); assert SymptomPoints(ids[..10]) == 110;
    SymptomPointsSnoc(ids, 10); assert SymptomPoints(ids[..11]) == 125;
    SymptomPointsSnoc(ids, 11); assert SymptomPoints(ids[..12]) == 130;
    SymptomPointsSnoc(ids, 12); assert SymptomPoints(ids[..13]) == 135;
    SymptomPointsSnoc(ids, 13); assert SymptomPoints(ids[..14]) == 140;
    assert ids[..14] == ids;
  }

  lemma SymptomPointsSnoc(tags: seq<string>, k: int)
    requires 0 <= k < |tags|
    ensures SymptomPoints(tags[..k + 1]) == SymptomPoints(tags[..k]) + SymptomWeight(tags[k])
  {
    assert tags[..k + 1][..k] == tags[..k];
  }

  // ---------------------------------------------------------------- levels

  /** `getRiskLevel`: up to 30 is low, 31 to 60 medium, above 60 high. */
  function GetRiskLevel(score: int): (level: RiskLevel)
    ensures level == Low <==> score <= 30
    ensures level == Medium <==> 30 < score <= 60
    ensures level == High <==> score > 60
  {
    if score <= 30 then Low else if score <= 60 then Medium else High
  }

  /** A higher score never gives a lower level. */
  lemma RiskLevelMonotone(s1: int, s2: int)
    requires s1 <= s2
    ensures GetRiskLevel(s1).Rank() <= GetRiskLevel(s2).Rank()
  {
  }

  /** `getRiskColor` on a level's string value; any other string gets the grey style. */
  function GetRiskColor(risk: string): string {
    if risk == "low" then "text-success-600 bg-success-50"
    else if risk == "medium" then "text-warning-600 bg-warning-50"
    else if risk == "high" then "text-danger-600 bg-danger-50"
    else "text-gray-600 bg-gray-50"
  }

  /** `getRiskBadgeColor` on a level's string value; any other string gets the grey style. */
  function GetRiskBadgeColor(risk: string): string {
    if risk == "low" then "bg-success-100 text-success-800 border-success-200"
    else if risk == "medium" then "bg-warning-100 text-warning-800 border-warning-200"
    else if risk == "high" then "bg-danger-100 text-danger-800 border-danger-200"
    else "bg-gray-100 text-gray-800 border-gray-200"
  }

  /** Each level has its own text and badge style, never the grey fallback, and the three levels look different. */
  lemma RiskColorsDistinguishLevels(l1: RiskLevel, l2: RiskLevel)
    ensures GetRiskColor(l1.Name()) != "text-gray-600 bg-gray-50"
    ensures GetRiskBadgeColor(l1.Name()) != "bg-gray-100 text-gray-800 border-gray-200"
    ensures l1 != l2 ==> GetRiskColor(l1.Name()) != GetRiskColor(l2.Name())
    ensures l1 != l2 ==> GetRiskBadgeColor(l1.Name()) != GetRiskBadgeColor(l2.Name())
  {
    LevelStyles(l1);
    LevelStyles(l2);
    StylesDiffer(l1, l2);
  }

  /** The styles each level's string value selects, one table per helper. */
  function TextStyle(l: RiskLevel): string {
    match l
    case Low => "text-success-600 bg-success-50"
    case Medium => "text-warning-600 bg-warning-50"
    case High => "text-danger-600 bg-danger-50"
  }

  function BadgeStyle(l: RiskLevel): string {
    match l
    case Low => "bg-success-100 text-success-800 border-success-200"
    case Medium => "bg-warning-100 text-warning-800 border-warning-200"
    case High => "bg-danger-100 text-danger-800 border-danger-200"
  }

  lemma LevelStyles(l: RiskLevel)
    ensures GetRiskColor(l.Name()) == TextStyle(l) && GetRiskBadgeColor(l.Name()) == BadgeStyle(l)
  {
    match l
    case Low =>
    case Medium =>
    case High =>
  }

  lemma StylesDiffer(l1: RiskLevel, l2: RiskLevel)
    ensures TextStyle(l1) != "text-gray-600 bg-gray-50"
    ensures BadgeStyle(l1) != "bg-gray-100 text-gray-800 border-gray-200"
    ensures l1 != l2 ==> TextStyle(l1) != TextStyle(l2) && BadgeStyle(l1) != BadgeStyle(l2)
  {
    match l1
    case Low =>
    case Medium =>
    case High =>
  }

  // ---------------------------------------------------------------- lab ranges

  datatype Analyte = Wbc | Rbc | Hemoglobin | Hematocrit | Platelets

  function Measured(bc: BloodCount, a: Analyte): real {
    match a
    case Wbc => bc.wbc
    case Rbc => bc.rbc
    case Hemoglobin => bc.hemoglobin
    case Hematocrit => bc.hematocrit
    case Platelets => bc.platelets
  }

  function NormalMin(a: Analyte): real {
    match a
    case Wbc => 4.0
    case Rbc => 4.2
    case Hemoglobin => 12.0
    case Hematocrit => 36.0
    case Platelets => 150.0
  }

  function NormalMax(a: Analyte): real {
    match a
    case Wbc => 11.0
    case Rbc => 5.4
    case Hemoglobin => 16.0
    case Hematocrit => 48.0
    case Platelets => 450.0
  }

  predicate OutOfRange(bc: BloodCount, a: Analyte) {
    Measured(bc, a) < NormalMin(a) || Measured(bc, a) > NormalMax(a)
  }

  /** `isBloodCountAbnormal`: some one of the five analytes lies strictly outside its normal range. */
  function IsBloodCountAbnormal(bc: BloodCount): (abnormal: bool)
    ensures abnormal <==> exists a :: OutOfRange(bc, a)
  {
    var r := bc.wbc < 4.0 || bc.wbc > 11.0
      || bc.rbc < 4.2 || bc.rbc > 5.4
      || bc.hemoglobin < 12.0 || bc.hemoglobin > 16.0
      || bc.hematocrit < 36.0 || bc.hematocrit > 48.0
      || bc.platelets < 150.0 || bc.platelets > 450.0;
    assert r ==> OutOfRange(bc, Wbc) || OutOfRange(bc, Rbc) || OutOfRange(bc, Hemoglobin)
                 || OutOfRange(bc, Hematocrit) || OutOfRange(bc, Platelets);
    r
  }

  /** A draw that earns any score penalty is also flagged abnormal: the penalty thresholds are the lower bounds of the ranges. */
  lemma PenaltyImpliesAbnormal(bc: BloodCount)
    requires BloodPenalty(bc) > 0
    ensures IsBloodCountAbnormal(bc)
  {
    if bc.wbc < 4.0 { assert OutOfRange(bc, Wbc); }
    else if bc.rbc < 4.2 { assert OutOfRange(bc, Rbc); }
    else if bc.hemoglobin < 12.0 { assert OutOfRange(bc, Hemoglobin); }
    else { assert OutOfRange(bc, Platelets); }
  }

  // ---------------------------------------------------------------- text helpers

  function Max0(n: int): nat {
    if n < 0 then 0 else n
  }

  /** `truncateText`: the text itself when it fits, else its first `maxLength` characters and an ellipsis.
      `substr(0, n)` with a negative `n` takes nothing. */
  function TruncateText(text: string, maxLength: int): (r: string)
    ensures |text| <= maxLength ==> r == text
    ensures |text| > maxLength ==> |r| == Max0(maxLength) + 3 && IsPrefix(r[..|r| - 3], text) && IsSuffix("...", r)
  {
    if |text| <= maxLength then text else text[..Max0(maxLength)] + "..."
  }

  /** The result is never longer than the limit plus the three-character ellipsis, and always begins with
      a prefix of the text. */
  lemma TruncateBounds(text: string, maxLength: int)
    ensures |TruncateText(text, maxLength)| <= Max0(maxLength) + 3
    ensures exists k :: 0 <= k <= |text| && IsPrefix(text[..k], TruncateText(text, maxLength))
  {
    var r := TruncateText(text, maxLength);
    if |text| <= maxLength {
      assert IsPrefix(text[..|text|], r);
    } else {
      assert IsPrefix(text[..Max0(maxLength)], r);
    }
  }

  /** The label `getFileType` shows for a lower-cased extension. */
  function ExtensionLabel(extension: string): (kind: string)
    ensures kind in {"PDF Document", "JPEG Image", "PNG Image", "DICOM Image", "Word Document", "Unknown"}
    ensures kind == "Unknown" <==> extension !in {"pdf", "jpg", "jpeg", "png", "dcm", "doc", "docx"}
  {
    if extension == "pdf" then "PDF Document"
    else if extension == "jpg" || extension == "jpeg" then "JPEG Image"
    else if extension == "png" then "PNG Image"
    else if extension == "dcm" then "DICOM Image"
    else if extension == "doc" || extension == "docx" then "Word Document"
    else "Unknown"
  }

  /** `getFileType`: the part after the last dot (the whole name when there is none), lower-cased, mapped to a label. */
  function GetFileType(fileName: string): string {
    ExtensionLabel(Lower(LastSegment(fileName, '.')))
  }

  /** Only the final extension decides the label; a leading base name and earlier dots play no part. */
  lemma FileTypeByLastExtension(base: string, ext: string)
    ensures GetFileType(base + "." + ext) == GetFileType(ext)
  {
    LastSegmentAfterSep(base, '.', ext);
    assert base + "." + ext == base + ['.'] + ext;
  }

  /** The extension is compared case-insensitively (for ASCII letters). */
  lemma FileTypeIgnoresCase(fileName: string)
    ensures GetFileType(Lower(fileName)) == GetFileType(fileName)
  {
    LowerLastSegment(fileName);
    LowerIdempotent(LastSegment(fileName, '.'));
    assert Lower(LastSegment(Lower(fileName), '.')) == Lower(LastSegment(fileName, '.'));
  }

  /** Lowering commutes with taking the last dot-separated segment. */
  lemma {:induction false} LowerLastSegment(s: string)
    ensures |Split(Lower(s), '.')| == |Split(s, '.')|
    ensures LastSegment(Lower(s), '.') == Lower(LastSegment(s, '.'))
    decreases |s|
  {
    if |s| > 0 {
      assert s == [s[0]] + s[1..];
      LowerLastSegment(s[1..]);
      LowerLastSegmentStep(s[0], s[1..]);
    }
  }

  /** One character put in front keeps lowering and taking the last segment commuting. */
  lemma LowerLastSegmentStep(c: char, t: string)
    requires |Split(Lower(t), '.')| == |Split(t, '.')|
    requires LastSegment(Lower(t), '.') == Lower(LastSegment(t, '.'))
    ensures |Split(Lower([c] + t), '.')| == |Split([c] + t, '.')|
    ensures LastSegment(Lower([c] + t), '.') == Lower(LastSegment([c] + t, '.'))
  {
    assert Lower([c] + t) == [LowerChar(c)] + Lower(t);
    if c == '.' {
      LastSegmentAfterDot(t);
      LastSegmentAfterDot(Lower(t));
    } else {
      LastSegmentAfterOther(c, t);
      LastSegmentAfterOther(LowerChar(c), Lower(t));
      if |Split(t, '.')| == 1 {
        LowerConcat([c], LastSegment(t, '.'));
      }
    }
  }

  lemma LastSegmentAfterDot(t: string)
    ensures |Split(['.'] + t, '.')| == |Split(t, '.')| + 1
    ensures LastSegment(['.'] + t, '.') == LastSegment(t, '.')
  {
    assert (['.'] + t)[1..] == t;
  }

  lemma LastSegmentAfterOther(c: char, t: string)
    requires c != '.'
    ensures |Split([c] + t, '.')| == |Split(t, '.')|
    ensures |Split(t, '.')| == 1 ==> LastSegment([c] + t, '.') == [c] + LastSegment(t, '.')
    ensures |Split(t, '.')| > 1 ==> LastSegment([c] + t, '.') == LastSegment(t, '.')
  {
    assert ([c] + t)[1..] == t;
  }

  /** A name without any dot is read as its own extension: a file called "pdf" is a PDF document. */
  lemma FileTypeWithoutDot(fileName: string)
    requires '.' !in fileName
    ensures GetFileType(fileName) == ExtensionLabel(Lower(fileName))
  {
    LastSegmentWithoutSep(fileName, '.');
  }

  // ---------------------------------------------------------------- e-mail

  /** The anchored pattern `^[^\s@]+@[^\s@]+\.[^\s@]+$`: no whitespace anywhere, the only '@' at `at` with
      something before it, and a '.' at `dot` with at least one character between it and the '@' and after it. */
  ghost predicate EmailShapeAt(email: string, at: int, dot: int) {
    0 < at && at + 1 < dot && dot + 1 < |email|
    && email[at] == '@' && email[dot] == '.'
    && forall i :: 0 <= i < |email| ==> !IsWhitespace(email[i]) && (email[i] == '@' ==> i == at)
  }

  function IndexOf(s: string, c: char): (k: int)
    ensures -1 <= k < |s|
    ensures k >= 0 ==> s[k] == c && c !in s[..k]
    ensures k < 0 ==> c !in s
    decreases |s|
  {
    if s == [] then -1
    else if s[0] == c then 0
    else
      var k := IndexOf(s[1..], c);
      assert k >= 0 ==> s[..k + 1] == [s[0]] + s[1..][..k];
      if k < 0 then -1 else k + 1
  }

  /** `validateEmail`: no whitespace, exactly one '@' with something before it, and after it a '.' that is
      neither the first nor the last character of the domain. */
  function ValidateEmail(email: string): (ok: bool)
    ensures ok <==> exists at, dot :: EmailShapeAt(email, at, dot)
  {
    var at := IndexOf(email, '@');
    var ok := NoWhitespace(email) && 0 < at && '@' !in email[at + 1..]
              && at + 3 <= |email| && '.' in email[at + 2..|email| - 1];
    EmailShapeIff(email, at, ok);
    ok
  }

  lemma EmailShapeIff(email: string, at: int, ok: bool)
    requires at == IndexOf(email, '@')
    requires ok == (NoWhitespace(email) && 0 < at && '@' !in email[at + 1..]
                    && at + 3 <= |email| && '.' in email[at + 2..|email| - 1])
    ensures ok <==> exists a, d :: EmailShapeAt(email, a, d)
  {
    if ok {
      var inner := email[at + 2..|email| - 1];
      var j :| 0 <= j < |inner| && inner[j] == '.';
      var dot := at + 2 + j;
      assert email[dot] == '.';
      assert forall i :: 0 <= i < |email| && email[i] == '@' ==> i == at;
      assert EmailShapeAt(email, at, dot);
    }
    if exists a, d :: EmailShapeAt(email, a, d) {
      var a, d :| EmailShapeAt(email, a, d);
      EmailShapeAccepted(email, a, d);
    }
  }

  lemma EmailShapeAccepted(email: string, a: int, d: int)
    requires EmailShapeAt(email, a, d)
    ensures IndexOf(email, '@') == a && NoWhitespace(email) && '@' !in email[a + 1..]
    ensures a + 3 <= |email| && '.' in email[a + 2..|email| - 1]
  {
    var k := IndexOf(email, '@');
    assert email[a] in email;
    assert k == a;
    assert email[a + 2..|email| - 1][d - a - 2] == '.';
  }
}
