/**
 * The events grid of `components/events-grid.tsx`: the search-and-filter
 * effect that derives `filteredEvents`, and `handleRegistration`, which
 * registers or unregisters through `/api/events/register` and keeps the
 * list of the user's registrations up to date.
 */
module EventsGrid {
  import opened Common
  import opened ClientCommon

  /** The fields of an event the grid reads; `id` is `event._id?.toString() || ""`. */
  datatype EventItem = EventItem(id: string, title: string, description: string)

  predicate Matches(event: EventItem, term: string)
  {
    MatchesSearch(event.title, event.description, term)
  }

  function SearchFilter(events: seq<EventItem>, term: string): seq<EventItem>
  {
    Filter((event: EventItem) => Matches(event, term), events)
  }

  /** The filter effect: the search, then the "registered" or "available" restriction. */
  function Filtered(events: seq<EventItem>, term: string, filterBy: string, registrations: seq<string>): (r: seq<EventItem>)
    ensures forall i :: 0 <= i < |r| ==> r[i] in events && Matches(r[i], term)
    ensures filterBy == "registered" ==> forall i :: 0 <= i < |r| ==> r[i].id in registrations
    ensures filterBy == "available" ==> forall i :: 0 <= i < |r| ==> r[i].id !in registrations
  {
    var found := SearchFilter(events, term);
    if filterBy == "registered" then Filter((event: EventItem) => event.id in registrations, found)
    else if filterBy == "available" then Filter((event: EventItem) => event.id !in registrations, found)
    else found
  }

  /** An event of the search results is listed under exactly one of "registered" and "available". */
  lemma RegisteredAvailablePartition(events: seq<EventItem>, term: string, registrations: seq<string>)
    ensures multiset(Filtered(events, term, "registered", registrations))
          + multiset(Filtered(events, term, "available", registrations))
         == multiset(Filtered(events, term, "all", registrations))
    ensures forall e :: e in Filtered(events, term, "registered", registrations) ==>
      e !in Filtered(events, term, "available", registrations)
  {
    FilterSplit((event: EventItem) => event.id in registrations, (event: EventItem) => event.id !in registrations,
                SearchFilter(events, term));
  }

  /** Every matching event is shown under "all", and an empty term shows every event. */
  lemma AllShowsEveryMatch(events: seq<EventItem>, term: string, registrations: seq<string>)
    ensures forall i :: 0 <= i < |events| && Matches(events[i], term) ==>
      events[i] in Filtered(events, term, "all", registrations)
    ensures Filtered(events, "", "all", registrations) == events
  {
    forall i | 0 <= i < |events| ensures Matches(events[i], "") {
      EmptyTermMatches(events[i].title, events[i].description);
    }
    FilterKeepsAll((event: EventItem) => Matches(event, ""), events);
  }

  // ---------------------------------------------------------------------------
  // handleRegistration
  // ---------------------------------------------------------------------------

  datatype HttpMethod = Post | Delete

  /** What `handleRegistration` does besides updating state. */
  datatype RegistrationAction = NavigateToSignIn | Sent(httpMethod: HttpMethod, eventId: string)

  /** The handler-updated part of the component's state. */
  datatype EventsState = EventsState(events: seq<EventItem>, userRegistrations: seq<string>,
                                     registering: Option<string>, message: Option<Message>)

  /**
   * `handleRegistration(eventId, isRegistered)`. The outcome of the request is
   * a parameter, and so is the result of the `fetchEvents` refresh that
   * follows a success (`None` when that fetch fails, which it reports only
   * to the console).
   */
  function HandleRegistrationSpec(st: EventsState, hasSession: bool, eventId: string, isRegistered: bool,
                                  outcome: FetchOutcome, refreshed: Option<seq<EventItem>>)
    : (RegistrationAction, EventsState)
  {
    if !hasSession then (NavigateToSignIn, st)
    else
      var action := Sent(if isRegistered then Delete else Post, eventId);
      match outcome
      case Ok =>
        var events := if refreshed.Some? then refreshed.value else st.events;
        if isRegistered then
          (action, EventsState(events, RemoveAll(st.userRegistrations, eventId), None,
                               Some(Message(Success, "Successfully unregistered from event!"))))
        else
          (action, EventsState(events, st.userRegistrations + [eventId], None,
                               Some(Message(Success, "Successfully registered for event!"))))
      case NotOk(error) =>
        (action, st.(registering := None, message := Some(Message(Error, ErrorText(error, "Registration failed")))))
      case Threw =>
        (action, st.(registering := None, message := Some(Message(Error, GenericError))))
  }

  /** Without a session the handler navigates to sign-in and changes nothing. */
  lemma NoSessionNoRequest(st: EventsState, eventId: string, isRegistered: bool,
                           outcome: FetchOutcome, refreshed: Option<seq<EventItem>>)
    ensures HandleRegistrationSpec(st, false, eventId, isRegistered, outcome, refreshed) == (NavigateToSignIn, st)
  {
  }

  /**
   * A successful unregister removes every copy of the event id and keeps
   * every other id as often as before; it is a DELETE.
   */
  lemma UnregisterRemovesEveryCopy(st: EventsState, eventId: string, other: string, refreshed: Option<seq<EventItem>>)
    requires other != eventId
    ensures var (action, st') := HandleRegistrationSpec(st, true, eventId, true, Ok, refreshed);
      action == Sent(Delete, eventId)
      && eventId !in st'.userRegistrations
      && multiset(st'.userRegistrations)[other] == multiset(st.userRegistrations)[other]
      && st'.registering == None
  {
    RemoveAllCounts(st.userRegistrations, eventId, other);
  }

  /** A successful register appends the id and leaves the rest of the list as it was; it is a POST. */
  lemma RegisterAppends(st: EventsState, eventId: string, refreshed: Option<seq<EventItem>>)
    ensures var (action, st') := HandleRegistrationSpec(st, true, eventId, false, Ok, refreshed);
      action == Sent(Post, eventId)
      && |st'.userRegistrations| == |st.userRegistrations| + 1
      && st'.userRegistrations[..|st.userRegistrations|] == st.userRegistrations
      && st'.userRegistrations[|st.userRegistrations|] == eventId
      && st'.registering == None
  {
  }

  /**
   * Registering and then unregistering an event the user was not registered
   * for gives back the list it started from.
   */
  lemma RegisterThenUnregister(st: EventsState, eventId: string, r1: Option<seq<EventItem>>, r2: Option<seq<EventItem>>)
    requires eventId !in st.userRegistrations
    ensures var st1 := HandleRegistrationSpec(st, true, eventId, false, Ok, r1).1;
      HandleRegistrationSpec(st1, true, eventId, true, Ok, r2).1.userRegistrations == st.userRegistrations
  {
    RemoveAllAppend(st.userRegistrations, [eventId], eventId);
    RemoveAllAbsent(st.userRegistrations, eventId);
    assert RemoveAll([eventId], eventId) == [];
  }

  /** A refused or failed request leaves the registrations and the events as they were and shows an error. */
  lemma FailureKeepsRegistrations(st: EventsState, eventId: string, isRegistered: bool,
                                  outcome: FetchOutcome, refreshed: Option<seq<EventItem>>)
    requires !outcome.Ok?
    ensures var st' := HandleRegistrationSpec(st, true, eventId, isRegistered, outcome, refreshed).1;
      st'.userRegistrations == st.userRegistrations && st'.events == st.events
      && st'.registering == None && st'.message.Some? && st'.message.value.kind == Error
  {
  }

  /** The component's state. */
  class Grid {
    var events: seq<EventItem>
    var filteredEvents: seq<EventItem>
    var userRegistrations: seq<string>
    var registering: Option<string>
    var message: Option<Message>
    var searchTerm: string
    var filterBy: string

    function State(): EventsState
      reads this
    {
      EventsState(events, userRegistrations, registering, message)
    }

    constructor ()
      ensures State() == EventsState([], [], None, None) && filteredEvents == []
      ensures searchTerm == "" && filterBy == "all"
    {
      events := [];
      filteredEvents := [];
      userRegistrations := [];
      registering := None;
      message := None;
      searchTerm := "";
      filterBy := "all";
    }

    /** The effect on `[events, searchTerm, filterBy, userRegistrations]`. */
    method ApplyFilters()
      modifies this`filteredEvents
      ensures filteredEvents == Filtered(events, searchTerm, filterBy, userRegistrations)
    {
      var registrations := userRegistrations;
      var filtered := SearchFilter(events, searchTerm);
      if filterBy == "registered" {
        filtered := Filter((event: EventItem) => event.id in registrations, filtered);
      } else if filterBy == "available" {
        filtered := Filter((event: EventItem) => event.id !in registrations, filtered);
      }
      filteredEvents := filtered;
    }

    method HandleRegistration(hasSession: bool, eventId: string, isRegistered: bool,
                              outcome: FetchOutcome, refreshed: Option<seq<EventItem>>)
      returns (action: RegistrationAction)
      modifies this
      ensures (action, State()) == HandleRegistrationSpec(old(State()), hasSession, eventId, isRegistered, outcome, refreshed)
      ensures searchTerm == old(searchTerm) && filterBy == old(filterBy)
    {
      if !hasSession {
        return NavigateToSignIn;
      }
      registering := Some(eventId);
      message := None;
      action := Sent(if isRegistered then Delete else Post, eventId);
      match outcome {
        case Ok =>
          if isRegistered {
            userRegistrations := RemoveAll(userRegistrations, eventId);
            message := Some(Message(Success, "Successfully unregistered from event!"));
          } else {
            userRegistrations := userRegistrations + [eventId];
            message := Some(Message(Success, "Successfully registered for event!"));
          }
          if refreshed.Some? {
            events := refreshed.value;
          }
        case NotOk(error) =>
          message := Some(Message(Error, ErrorText(error, "Registration failed")));
        case Threw =>
          message := Some(Message(Error, GenericError));
      }
      registering := None;
    }
  }
}
