/** The calendar page's search and type filter over the loaded event list. */
module CalendarPage {
  import opened Common
  import CalendarService

  type Event = CalendarService.Event

  /** The title, or the description when there is one, contains the term,
      ignoring case. */
  predicate MatchesTerm(e: Event, term: string) {
    Contains(Lower(e.title), Lower(term)) ||
    (e.description.Some? && Contains(Lower(e.description.value), Lower(term)))
  }

  /** What both filters together ask of an event: an empty term and the
      type "all" ask nothing. */
  predicate Selected(e: Event, searchTerm: string, typeFilter: string) {
    (searchTerm == "" || MatchesTerm(e, searchTerm)) &&
    (typeFilter == "all" || e.kind == typeFilter)
  }

  function TermTest(searchTerm: string): Event -> bool {
    (e: Event) => MatchesTerm(e, searchTerm)
  }

  function TypeTest(typeFilter: string): Event -> bool {
    (e: Event) => e.kind == typeFilter
  }

  /** The search step: only a non-empty term filters. */
  function SearchStep(events: seq<Event>, searchTerm: string): seq<Event> {
    if searchTerm != "" then Filter(events, TermTest(searchTerm)) else events
  }

  /** The type step: only a type other than "all" filters. */
  function TypeStep(events: seq<Event>, typeFilter: string): seq<Event> {
    if typeFilter != "all" then Filter(events, TypeTest(typeFilter)) else events
  }

  /** The two steps in a row keep exactly the events both filters select. */
  lemma StepsAreConjunction(events: seq<Event>, searchTerm: string, typeFilter: string)
    ensures TypeStep(SearchStep(events, searchTerm), typeFilter) ==
            Filter(events, (e: Event) => Selected(e, searchTerm, typeFilter))
  {
    var selected := (e: Event) => Selected(e, searchTerm, typeFilter);
    var byTerm := TermTest(searchTerm);
    var byType := TypeTest(typeFilter);
    if searchTerm != "" && typeFilter != "all" {
      FilterAnd(events, byTerm, byType, selected);
    } else if searchTerm != "" {
      FilterSame(events, byTerm, selected);
    } else if typeFilter != "all" {
      FilterSame(events, byType, selected);
    } else {
      FilterAll(events, selected);
    }
  }

  /** The filtered list: the events both filters select, in their original
      order; with an empty term and "all" it is the list itself. */
  function Filtered(events: seq<Event>, searchTerm: string, typeFilter: string): (r: seq<Event>)
    ensures IsSubsequence(r, events)
    ensures forall e :: e in r <==> e in events && Selected(e, searchTerm, typeFilter)
    ensures searchTerm == "" && typeFilter == "all" ==> r == events
  {
    StepsAreConjunction(events, searchTerm, typeFilter);
    FilterIsSubsequence(events, (e: Event) => Selected(e, searchTerm, typeFilter));
    TypeStep(SearchStep(events, searchTerm), typeFilter)
  }

  /** The page state `applyFilters` reads and writes. */
  class CalendarView {
    var events: seq<Event>
    var searchTerm: string
    var eventTypeFilter: string
    var filteredEvents: seq<Event>

    /** A fresh page: nothing loaded, no search, every type. */
    constructor ()
      ensures events == [] && searchTerm == "" && eventTypeFilter == "all" && filteredEvents == []
    {
      events := [];
      searchTerm := "";
      eventTypeFilter := "all";
      filteredEvents := [];
    }

    /** `applyFilters`: narrows the loaded events by the term, then by the
        type, and shows the result. */
    method ApplyFilters()
      modifies this
      ensures filteredEvents == Filtered(events, searchTerm, eventTypeFilter)
      ensures events == old(events) && searchTerm == old(searchTerm) &&
              eventTypeFilter == old(eventTypeFilter)
    {
      var filtered := events;
      if searchTerm != "" {
        filtered := Filter(filtered, TermTest(searchTerm));
      }
      if eventTypeFilter != "all" {
        filtered := Filter(filtered, TypeTest(eventTypeFilter));
      }
      filteredEvents := filtered;
    }
  }
}
