/** The patient-history timeline: a type filter and a case-insensitive search over title and description. */
module History {
  import opened Text
  import opened Seqs

  datatype TimelineEvent = TimelineEvent(id: string, date: string, eventType: string, title: string, description: string)

  predicate MatchesType(e: TimelineEvent, filterType: string) {
    filterType == "all" || e.eventType == filterType
  }

  predicate MatchesSearch(e: TimelineEvent, term: string) {
    Contains(Lower(e.title), Lower(term)) || Contains(Lower(e.description), Lower(term))
  }

  /** `filteredEvents`: the events, in order, of the chosen type whose title or description holds the term. */
  function FilteredEvents(events: seq<TimelineEvent>, filterType: string, term: string): (r: seq<TimelineEvent>)
    ensures IsSubsequence(r, events)
    ensures forall e :: e in r <==> e in events && MatchesType(e, filterType) && MatchesSearch(e, term)
  {
    FilterIsSubsequence((e: TimelineEvent) => MatchesType(e, filterType) && MatchesSearch(e, term), events);
    Filter((e: TimelineEvent) => MatchesType(e, filterType) && MatchesSearch(e, term), events)
  }

  /** All types and an empty search, the page's initial state, show the whole timeline. */
  lemma EverythingInitially(events: seq<TimelineEvent>)
    ensures FilteredEvents(events, "all", "") == events
  {
    forall e | e in events ensures MatchesType(e, "all") && MatchesSearch(e, "") {
      ContainsEmpty(Lower(e.title));
    }
    FilterAll((e: TimelineEvent) => MatchesType(e, "all") && MatchesSearch(e, ""), events);
  }

  /** Any one type shows a subsequence of what all types show. */
  lemma OneTypeWithinAll(events: seq<TimelineEvent>, filterType: string, term: string)
    ensures IsSubsequence(FilteredEvents(events, filterType, term), FilteredEvents(events, "all", term))
  {
    FilterStronger(
      (e: TimelineEvent) => MatchesType(e, filterType) && MatchesSearch(e, term),
      (e: TimelineEvent) => MatchesType(e, "all") && MatchesSearch(e, term),
      events);
  }

  lemma MatchesLonger(e: TimelineEvent, term: string, more: string)
    requires MatchesSearch(e, term + more)
    ensures MatchesSearch(e, term)
  {
    LowerConcat(term, more);
    if Contains(Lower(e.title), Lower(term) + Lower(more)) {
      ContainsLonger(Lower(e.title), Lower(term), Lower(more));
    } else {
      ContainsLonger(Lower(e.description), Lower(term), Lower(more));
    }
  }

  /** Typing more of the search term can only hide events, never show new ones or reorder them. */
  lemma LongerSearchNarrows(events: seq<TimelineEvent>, filterType: string, term: string, more: string)
    ensures IsSubsequence(FilteredEvents(events, filterType, term + more), FilteredEvents(events, filterType, term))
  {
    forall e | MatchesType(e, filterType) && MatchesSearch(e, term + more)
      ensures MatchesType(e, filterType) && MatchesSearch(e, term)
    {
      MatchesLonger(e, term, more);
    }
    FilterStronger(
      (e: TimelineEvent) => MatchesType(e, filterType) && MatchesSearch(e, term + more),
      (e: TimelineEvent) => MatchesType(e, filterType) && MatchesSearch(e, term),
      events);
  }

  datatype Icon = ActivityIcon | CalendarIcon | FileTextIcon | ClockIcon

  /** `getEventIcon`: visits, reports and symptoms have their own icons; tests and every other type get the
      activity icon. */
  function EventIcon(eventType: string): (icon: Icon)
    ensures icon == CalendarIcon <==> eventType == "visit"
    ensures icon == FileTextIcon <==> eventType == "report"
    ensures icon == ClockIcon <==> eventType == "symptom"
    ensures icon == ActivityIcon <==> eventType !in {"visit", "report", "symptom"}
  {
    match eventType
    case "test" => ActivityIcon
    case "visit" => CalendarIcon
    case "report" => FileTextIcon
    case "symptom" => ClockIcon
    case _ => ActivityIcon
  }
}
