/** The dashboard's derived values: the alert level for the number of high-risk findings, the banner that
    announces them, and the two-word labels of the risk-factor chart. */
module Dashboard {
  import opened Text

  datatype Alert = Alert(color: string, levelLabel: string)

  /** `getAlertLevel`: three or more findings are critical, one or two call for attention, none is normal. */
  function GetAlertLevel(count: int): (a: Alert)
    ensures a == Alert("danger", "Critical") <==> count >= 3
    ensures a == Alert("warning", "Attention") <==> 1 <= count < 3
    ensures a == Alert("success", "Normal") <==> count < 1
  {
    if count >= 3 then Alert("danger", "Critical")
    else if count >= 1 then Alert("warning", "Attention")
    else Alert("success", "Normal")
  }

  function Severity(a: Alert): int {
    if a.levelLabel == "Critical" then 2 else if a.levelLabel == "Attention" then 1 else 0
  }

  /** More findings never lower the level. */
  lemma AlertLevelMonotone(count: int, more: int)
    requires count <= more
    ensures Severity(GetAlertLevel(count)) <= Severity(GetAlertLevel(more))
  {
  }

  /** The critical-alerts banner is shown when there is at least one high-risk finding. */
  predicate ShowBanner(highRiskAlerts: int) {
    highRiskAlerts > 0
  }

  /** The banner appears exactly when the level is anything but normal. */
  lemma BannerMatchesLevel(highRiskAlerts: int)
    ensures ShowBanner(highRiskAlerts) <==> GetAlertLevel(highRiskAlerts).levelLabel != "Normal"
  {
  }

  function Min(a: int, b: int): int {
    if a <= b then a else b
  }

  /** `factor.split(' ').slice(0, 2).join(' ')`. */
  function ShortName(factor: string): string {
    var words := Split(factor, ' ');
    Join(words[..Min(2, |words|)], ' ')
  }

  /** Splitting at spaces separates two leading space-free words from the rest. */
  lemma SplitTwoWords(first: string, second: string, rest: string)
    requires ' ' !in first && ' ' !in second
    ensures Split(first + [' '] + (second + [' '] + rest), ' ') == [first, second] + Split(rest, ' ')
  {
    SplitAppend(first, ' ', second + [' '] + rest);
    SplitAppend(second, ' ', rest);
    SplitWithoutSep(first, ' ');
    SplitWithoutSep(second, ' ');
  }

  /** A label of three or more words keeps its first two, with the space between them. */
  lemma ShortNameFirstTwoWords(first: string, second: string, rest: string)
    requires ' ' !in first && ' ' !in second
    ensures ShortName(first + " " + second + " " + rest) == first + " " + second
  {
    var s := first + " " + second + " " + rest;
    assert s == first + [' '] + (second + [' '] + rest);
    SplitTwoWords(first, second, rest);
    var words := Split(s, ' ');
    assert words[..Min(2, |words|)] == [first, second];
    assert Join([first, second], ' ') == first + " " + second by {
      assert [first, second][1..] == [second];
    }
  }

  /** A label of at most two words is kept whole. */
  lemma ShortLabelKept(factor: string)
    requires |Split(factor, ' ')| <= 2
    ensures ShortName(factor) == factor
  {
    var words := Split(factor, ' ');
    assert words[..Min(2, |words|)] == words;
    JoinSplit(factor, ' ');
  }
}
