/** The event list page: the filter effect over the fetched events, the
    "upcoming" badge, and the fallback list. */
module EventsPage {
  import opened Seqs
  import opened Text

  /** The fields of a listed event the page uses; `category` is
      `category?.name`. */
  datatype EventCard = EventCard(id: nat, title: string, description: string, location: string,
                                 category: Option<string>, startDatetime: int)

  predicate MatchesSearch(e: EventCard, term: string)
  {
    IContains(e.title, term) || IContains(e.description, term) || IContains(e.location, term)
  }

  function Searched(term: string): EventCard -> bool
  {
    (e: EventCard) => MatchesSearch(e, term)
  }

  function InCategory(category: string): EventCard -> bool
  {
    (e: EventCard) => e.category == Some(category)
  }

  /** The filter effect: each non-empty criterion narrows the list in turn. */
  method ApplyFilters(events: seq<EventCard>, term: string, category: string) returns (filtered: seq<EventCard>)
    ensures IsSubsequence(filtered, events)
    ensures forall e :: e in filtered <==> (e in events && (term == "" || MatchesSearch(e, term))
                                            && (category == "" || e.category == Some(category)))
    ensures term == "" && category == "" ==> filtered == events
  {
    filtered := events;
    SubsequenceRefl(events);
    if term != "" {
      FilterIsSubsequence(filtered, Searched(term));
      filtered := Filter(filtered, Searched(term));
    }
    assert forall e :: e in filtered <==> e in events && (term == "" || MatchesSearch(e, term));
    if category != "" {
      var before := filtered;
      FilterIsSubsequence(before, InCategory(category));
      filtered := Filter(before, InCategory(category));
      SubsequenceTrans(filtered, before, events);
    }
  }

  /** An uncategorised event never survives a selected category. */
  lemma UncategorisedDropped(e: EventCard, category: string)
    requires e.category.None? && category != ""
    ensures !InCategory(category)(e)
  {
  }

  /** `isUpcoming`: the start lies strictly after now. */
  predicate IsUpcoming(startDatetime: int, now: int)
  {
    startDatetime > now
  }

  /** Epoch seconds of the fallback events' starts (all in January 2024, UTC). */
  const FallbackEvents: seq<EventCard> := [
    EventCard(1, "Sunday Worship Service",
              "Join us for our weekly worship service with inspiring messages and fellowship.",
              "Main Sanctuary", Some("Worship"), 1705827600),
    EventCard(2, "REACTS Ministerial Training",
              "Comprehensive training program for aspiring ministers and church leaders.",
              "REACTS Divine Ministerial College", Some("Training"), 1706205600),
    EventCard(3, "Community Resilience Workshop",
              "Building resilience in communities through trauma healing and support.",
              "Community Center", Some("Workshop"), 1706450400),
    EventCard(4, "Youth Prayer Meeting",
              "Special prayer session for young people seeking spiritual growth.",
              "Youth Hall", Some("Prayer"), 1706641200)
  ]

  /** The fallback events are all past once February 2024 has begun. */
  lemma FallbackEventsPast(now: int)
    requires now >= 1706745600
    ensures forall e :: e in FallbackEvents ==> !IsUpcoming(e.startDatetime, now)
  {
  }

  /** The outcome of `fetch('/api/events/')`. */
  datatype ListResponse = ListOk(items: seq<EventCard>) | ListNotOk | ListThrew

  class EventList {
    var events: seq<EventCard>

    constructor()
      ensures events == []
    {
      events := [];
    }

    /** `fetchEvents`: an ok response's list; a non-ok response or a thrown
        error both give the fallback events. */
    method FetchEvents(response: ListResponse)
      modifies this
      ensures events == if response.ListOk? then response.items else FallbackEvents
    {
      if response.ListOk? {
        events := response.items;
      } else {
        events := FallbackEvents;
      }
    }
  }
}

/** The event detail page: the registration handler and the sidebar it
    drives. */
module EventDetailPage {
  import opened Seqs
  import opened Text

  datatype EventView = EventView(id: Option<nat>, title: string, requiresRegistration: bool,
                                 isRegistrationOpen: bool, registrationCount: int)

  /** What the sidebar shows. */
  datatype Sidebar = Confirmed | RegistrationForm | NoRegistrationNeeded | RegistrationClosed

  function SidebarFor(registered: bool, e: EventView): (s: Sidebar)
    ensures s == RegistrationForm <==> !registered && e.requiresRegistration && e.isRegistrationOpen
    ensures s == Confirmed <==> registered
    ensures s == NoRegistrationNeeded <==> !registered && !e.requiresRegistration
  {
    if registered then Confirmed
    else if e.requiresRegistration && e.isRegistrationOpen then RegistrationForm
    else if !e.requiresRegistration then NoRegistrationNeeded
    else RegistrationClosed
  }

  /** The event shown when the detail response is not ok, numbered by
      `parseInt` of the route id. */
  function FallbackEvent(routeId: string): (e: EventView)
    ensures e.id == ParseInt(routeId)
    ensures SidebarFor(false, e) == RegistrationForm
  {
    EventView(ParseInt(routeId), "Community Resilience Workshop", true, true, 18)
  }

  const LoadError := "Failed to load event details"

  datatype DetailResponse = DetailOk(data: EventView) | DetailNotOk | DetailThrew

  datatype RegistrationResponse = RegistrationOk | RegistrationNotOk | RegistrationThrew

  class EventDetailView {
    var event: Option<EventView>
    var loading: bool
    var error: Option<string>
    var registering: bool
    var registered: bool
    var attendees: nat

    constructor()
      ensures event.None? && loading && error.None? && !registering && !registered && attendees == 1
    {
      event := None;
      loading := true;
      error := None;
      registering := false;
      registered := false;
      attendees := 1;
    }

    /** `fetchEventDetail`. */
    method FetchEventDetail(routeId: string, response: DetailResponse)
      modifies this
      ensures response.DetailOk? ==> event == Some(response.data) && error == old(error)
      ensures response.DetailNotOk? ==> event == Some(FallbackEvent(routeId)) && error == old(error)
      ensures response.DetailThrew? ==> event == old(event) && error == Some(LoadError)
      ensures !loading
      ensures registering == old(registering) && registered == old(registered) && attendees == old(attendees)
    {
      loading := true;
      match response {
        case DetailOk(data) => event := Some(data);
        case DetailNotOk => event := Some(FallbackEvent(routeId));
        case DetailThrew => error := Some(LoadError);
      }
      loading := false;
    }

    /** `handleRegistration`, reachable only from the form, which renders
        only once the event is loaded. The count grows by the number of
        attendees, not by one registration, unless the request throws. */
    method HandleRegistration(response: RegistrationResponse)
      requires event.Some?
      modifies this
      ensures registered && !registering
      ensures response != RegistrationThrew ==>
        event == Some(old(event.value).(registrationCount := old(event.value.registrationCount) + old(attendees)))
      ensures response == RegistrationThrew ==> event == old(event)
      ensures SidebarFor(registered, event.value) == Confirmed
      ensures loading == old(loading) && error == old(error) && attendees == old(attendees)
    {
      registering := true;
      registered := true;
      if response != RegistrationThrew {
        event := Some(event.value.(registrationCount := event.value.registrationCount + attendees));
      }
      registering := false;
    }

    /** The attendee select offers 1 to 5 and stores `parseInt` of the chosen value. */
    method SelectAttendees(choice: nat)
      requires 1 <= choice <= 5
      modifies this
      ensures attendees == choice
      ensures event == old(event) && registered == old(registered) && registering == old(registering)
      ensures loading == old(loading) && error == old(error)
    {
      ParseIntOfNumeral(choice);
      attendees := ParseInt(NatToString(choice)).value;
    }
  }
}
