/** The events app: events with a time window and optional registration,
    registrations (guest or linked to a user), the public list querysets,
    the registration endpoint and the calendar feed. Datetimes are integer
    timestamps and `now` is passed in. */
module EventModels {
  import opened Seqs
  import Text
  import opened Users

  datatype EventCategory = EventCategory(name: string, color: string, isActive: bool)

  /** `Event`. The category is optional here because the calendar feed guards
      against its absence, although the foreign key itself is not nullable. */
  datatype Event = Event(
    id: nat, title: string, description: string, category: Option<EventCategory>,
    start: int, end: int, allDay: bool, location: string,
    requiresRegistration: bool, maxAttendees: Option<nat>, registrationDeadline: Option<int>,
    isPublished: bool, isFeatured: bool)

  datatype PaymentStatus = Pending | Paid | Failed | Refunded

  datatype EventRegistration = EventRegistration(
    eventId: nat, user: Option<User>, firstName: string, lastName: string, email: string,
    phone: string, numberOfAttendees: nat, specialRequirements: string,
    isConfirmed: bool, paymentStatus: PaymentStatus)

  predicate IsUpcoming(e: Event, now: int) { e.start > now }

  predicate IsOngoing(e: Event, now: int) { e.start <= now <= e.end }

  predicate IsPast(e: Event, now: int) { e.end < now }

  datatype Phase = Upcoming | Ongoing | Past

  /** Where `now` falls relative to an event whose start is not after its end:
      exactly one of upcoming, ongoing and past holds. */
  function PhaseAt(e: Event, now: int): (p: Phase)
    requires e.start <= e.end
    ensures IsUpcoming(e, now) <==> p == Upcoming
    ensures IsOngoing(e, now) <==> p == Ongoing
    ensures IsPast(e, now) <==> p == Past
  {
    if now < e.start then Upcoming else if now <= e.end then Ongoing else Past
  }

  predicate ConfirmedFor(r: EventRegistration, eventId: nat)
  {
    r.eventId == eventId && r.isConfirmed
  }

  function ConfirmedOf(eventId: nat): EventRegistration -> bool
  {
    r => ConfirmedFor(r, eventId)
  }

  /** `Event.registration_count`: how many confirmed registrations the event
      has (a registration counts once whatever its number of attendees). */
  function RegistrationCount(regs: seq<EventRegistration>, eventId: nat): (n: nat)
    ensures n <= |regs|
    ensures n == |Filter(regs, ConfirmedOf(eventId))|
    ensures n == 0 <==> forall r :: r in regs ==> !ConfirmedFor(r, eventId)
  {
    CountIsFilterLength(regs, ConfirmedOf(eventId));
    Count(regs, ConfirmedOf(eventId))
  }

  /** Appending a registration adds one to the count exactly when it is a
      confirmed registration of that event, whatever its number of attendees. */
  lemma RegistrationCountAppend(regs: seq<EventRegistration>, r: EventRegistration, eventId: nat)
    ensures RegistrationCount(regs + [r], eventId)
         == RegistrationCount(regs, eventId) + (if ConfirmedFor(r, eventId) then 1 else 0)
  {
    CountAppend(regs, [r], ConfirmedOf(eventId));
    assert [r][1..] == [];
  }

  /** `Event.is_registration_open`, with the event's registrations taken from `regs`. */
  function IsRegistrationOpen(e: Event, regs: seq<EventRegistration>, now: int): (open: bool)
    ensures open ==> e.requiresRegistration && IsUpcoming(e, now)
    ensures e.registrationDeadline.Some? && now > e.registrationDeadline.value ==> !open
    ensures (e.maxAttendees.Some? && e.maxAttendees.value > 0
             && RegistrationCount(regs, e.id) >= e.maxAttendees.value) ==> !open
    ensures (e.requiresRegistration && IsUpcoming(e, now)
             && (e.registrationDeadline.None? || now <= e.registrationDeadline.value)
             && (e.maxAttendees.None? || e.maxAttendees.value == 0
                 || RegistrationCount(regs, e.id) < e.maxAttendees.value)) ==> open
  {
    if !e.requiresRegistration then false
    else if e.registrationDeadline.Some? && now > e.registrationDeadline.value then false
    else if e.maxAttendees.Some? && e.maxAttendees.value != 0
         && RegistrationCount(regs, e.id) >= e.maxAttendees.value then false
    else IsUpcoming(e, now)
  }

  /** A missing or zero attendee limit never depends on how many have registered. */
  lemma NoCapIgnoresCount(e: Event, regs1: seq<EventRegistration>, regs2: seq<EventRegistration>, now: int)
    requires e.maxAttendees.None? || e.maxAttendees.value == 0
    ensures IsRegistrationOpen(e, regs1, now) == IsRegistrationOpen(e, regs2, now)
  {
  }

  /** `EventRegistration.full_name`: the linked user's name (falling back to the
      username), otherwise the guest's "first last" without surrounding blanks. */
  function RegistrationFullName(r: EventRegistration): (name: string)
    ensures r.user.Some? ==> name == FullNameOrUsername(r.user.value)
    ensures r.user.None? ==> |name| <= |r.firstName| + 1 + |r.lastName|
    ensures r.user.None? && name != [] ==> !Text.IsSpace(name[0]) && !Text.IsSpace(name[|name| - 1])
    ensures r.user.None? && r.firstName != [] && r.lastName != []
         && Text.NoSpace(r.firstName) && Text.NoSpace(r.lastName)
         ==> name == r.firstName + " " + r.lastName
    ensures r.user.None? && r.firstName == [] && r.lastName == [] ==> name == []
  {
    match r.user
    case Some(u) => FullNameOrUsername(u)
    case None => Text.JoinName(r.firstName, r.lastName)
  }
}

/** The registration serializers: what a client may write and the duplicate
    e-mail check. */
module EventSerializers {
  import opened Seqs
  import opened Users
  import opened EventModels

  /** The fields of the create serializer. The event, the user, the
      confirmation flag and the payment status are not among them. */
  datatype RegistrationPayload = RegistrationPayload(
    firstName: string, lastName: string, email: string, phone: string,
    numberOfAttendees: Option<nat>, specialRequirements: string)

  /** `EventRegistrationCreateSerializer.validate_email`: the address is
      refused when any registration of the same event already uses it. */
  function ValidateEmail(regs: seq<EventRegistration>, eventId: nat, email: string): (r: Result<string>)
    ensures r.Ok? <==> forall x :: x in regs ==> !(x.eventId == eventId && x.email == email)
    ensures r.Ok? ==> r.value == email
  {
    if exists x :: x in regs && x.eventId == eventId && x.email == email
    then Err("You have already registered for this event.")
    else Ok(email)
  }

  /** The row `serializer.save(event=event, user=user)` inserts: the payload's
      fields, the event and user from the server, and the model defaults. */
  function NewRegistration(eventId: nat, user: Option<User>, p: RegistrationPayload): (r: EventRegistration)
    ensures r.eventId == eventId && r.user == user && r.email == p.email
    ensures r.isConfirmed && r.paymentStatus == Pending
    ensures r.numberOfAttendees == (if p.numberOfAttendees.Some? then p.numberOfAttendees.value else 1)
  {
    EventRegistration(eventId, user, p.firstName, p.lastName, p.email, p.phone,
      match p.numberOfAttendees case Some(n) => n case None => 1,
      p.specialRequirements, true, Pending)
  }

  /** The writable fields of `EventRegistrationSerializer` applied to a row:
      `is_confirmed` and `payment_status` are read-only and keep their values. */
  function UpdateRegistration(r: EventRegistration, eventId: nat, p: RegistrationPayload): (u: EventRegistration)
    ensures u.isConfirmed == r.isConfirmed && u.paymentStatus == r.paymentStatus && u.user == r.user
    ensures u.eventId == eventId && u.email == p.email && u.firstName == p.firstName && u.lastName == p.lastName
    ensures u.phone == p.phone && u.specialRequirements == p.specialRequirements
    ensures p.numberOfAttendees.Some? ==> u.numberOfAttendees == p.numberOfAttendees.value
    ensures p.numberOfAttendees.None? ==> u.numberOfAttendees == r.numberOfAttendees
  {
    r.(eventId := eventId, firstName := p.firstName, lastName := p.lastName, email := p.email,
       phone := p.phone, specialRequirements := p.specialRequirements,
       numberOfAttendees := match p.numberOfAttendees case Some(n) => n case None => r.numberOfAttendees)
  }

  /** Writing the same payload twice is writing it once. */
  lemma UpdateIdempotent(r: EventRegistration, eventId: nat, p: RegistrationPayload)
    ensures UpdateRegistration(UpdateRegistration(r, eventId, p), eventId, p) == UpdateRegistration(r, eventId, p)
  {
  }

  /** An update that leaves a registration on its event changes no event's
      registration count: confirmation is read-only. */
  lemma {:induction false} UpdateKeepsCounts(regs: seq<EventRegistration>, i: nat, p: RegistrationPayload, e: nat)
    requires i < |regs|
    ensures RegistrationCount(regs[i := UpdateRegistration(regs[i], regs[i].eventId, p)], e) == RegistrationCount(regs, e)
  {
    var u := UpdateRegistration(regs[i], regs[i].eventId, p);
    assert ConfirmedFor(u, e) == ConfirmedFor(regs[i], e);
    CountUpdate(regs, i, u, ConfirmedOf(e));
  }
}

/** The public querysets, the registration endpoint and the calendar feed. */
module EventViews {
  import opened Seqs
  import Text
  import opened Users
  import opened EventModels
  import opened EventSerializers

  /** Date-range query parameters; `None` stands for an absent or empty parameter. */
  predicate InDateRange(e: Event, startDate: Option<int>, endDate: Option<int>)
  {
    (startDate.Some? ==> e.start >= startDate.value) && (endDate.Some? ==> e.end <= endDate.value)
  }

  function ListedBy(startDate: Option<int>, endDate: Option<int>): Event -> bool
  {
    (e: Event) => e.isPublished && InDateRange(e, startDate, endDate)
  }

  /** `EventListView.get_queryset` (also the queryset of `event_calendar`). */
  function EventList(events: seq<Event>, startDate: Option<int>, endDate: Option<int>): (r: seq<Event>)
    ensures IsSubsequence(r, events)
    ensures forall e :: e in r <==> e in events && e.isPublished && InDateRange(e, startDate, endDate)
  {
    FilterIsSubsequence(events, ListedBy(startDate, endDate));
    Filter(events, ListedBy(startDate, endDate))
  }

  function UpcomingOf(now: int): Event -> bool
  {
    (e: Event) => e.isPublished && e.start > now
  }

  function FeaturedOf(now: int): Event -> bool
  {
    (e: Event) => e.isPublished && e.isFeatured && e.start > now
  }

  /** The table's `ordering = ['start_datetime']`. */
  function StartsNoLater(): (Event, Event) -> bool
  {
    (a: Event, b: Event) => a.start <= b.start
  }

  /** `UpcomingEventsView.get_queryset`: the first ten published events that
      start after `now`, in table order; on the table in its `start_datetime`
      order, no upcoming event left out starts before one that is listed. */
  function UpcomingEvents(events: seq<Event>, now: int): (r: seq<Event>)
    ensures IsSubsequence(r, events)
    ensures forall e :: e in r ==> e in events && e.isPublished && e.start > now
    ensures |r| == if Count(events, UpcomingOf(now)) < 10 then Count(events, UpcomingOf(now)) else 10
    ensures |r| <= |Filter(events, UpcomingOf(now))| && r == Filter(events, UpcomingOf(now))[..|r|]
    ensures SortedBy(events, StartsNoLater()) ==>
      forall e, f :: e in r && f in events && f.isPublished && f.start > now && f !in r ==> e.start <= f.start
  {
    TakeFilterIsSubsequence(events, UpcomingOf(now), 10);
    CountIsFilterLength(events, UpcomingOf(now));
    var upcoming := Filter(events, UpcomingOf(now));
    var r := Take(upcoming, 10);
    assert forall e :: e in r ==> e in upcoming;
    assert SortedBy(events, StartsNoLater()) ==>
      forall e, f :: e in r && f in events && f.isPublished && f.start > now && f !in r ==> e.start <= f.start by {
      if SortedBy(events, StartsNoLater()) {
        TakeFilterComesFirst(events, UpcomingOf(now), 10, StartsNoLater());
        forall e, f | e in r && f in events && f.isPublished && f.start > now && f !in r
          ensures e.start <= f.start
        {
          assert UpcomingOf(now)(f);
          assert StartsNoLater()(e, f);
        }
      }
    }
    r
  }

  /** `FeaturedEventsView.get_queryset`: the first five featured upcoming
      published events, in table order; on the table in its `start_datetime`
      order, these are the five that start soonest. */
  function FeaturedEvents(events: seq<Event>, now: int): (r: seq<Event>)
    ensures IsSubsequence(r, events)
    ensures forall e :: e in r ==> e in events && e.isPublished && e.isFeatured && e.start > now
    ensures |r| == if Count(events, FeaturedOf(now)) < 5 then Count(events, FeaturedOf(now)) else 5
    ensures |r| <= |Filter(events, FeaturedOf(now))| && r == Filter(events, FeaturedOf(now))[..|r|]
    ensures SortedBy(events, StartsNoLater()) ==>
      forall e, f :: e in r && f in events && f.isPublished && f.isFeatured && f.start > now && f !in r
        ==> e.start <= f.start
  {
    TakeFilterIsSubsequence(events, FeaturedOf(now), 5);
    CountIsFilterLength(events, FeaturedOf(now));
    var featured := Filter(events, FeaturedOf(now));
    var r := Take(featured, 5);
    assert forall e :: e in r ==> e in featured;
    assert SortedBy(events, StartsNoLater()) ==>
      forall e, f :: e in r && f in events && f.isPublished && f.isFeatured && f.start > now && f !in r ==> e.start <= f.start by {
      if SortedBy(events, StartsNoLater()) {
        TakeFilterComesFirst(events, FeaturedOf(now), 5, StartsNoLater());
        forall e, f | e in r && f in events && f.isPublished && f.isFeatured && f.start > now && f !in r
          ensures e.start <= f.start
        {
          assert FeaturedOf(now)(f);
          assert StartsNoLater()(e, f);
        }
      }
    }
    r
  }

  /** Featured events are upcoming events too, so there are never more of them. */
  lemma FeaturedAmongUpcoming(events: seq<Event>, now: int)
    ensures Count(events, FeaturedOf(now)) <= Count(events, UpcomingOf(now))
  {
    CountMonotone(events, FeaturedOf(now), UpcomingOf(now));
  }

  function PublishedWithId(pk: nat): Event -> bool
  {
    (e: Event) => e.id == pk && e.isPublished
  }

  /** An HTTP status and the registration table after the request. */
  datatype Outcome = Outcome(status: nat, registrations: seq<EventRegistration>)

  /** `POST` to the registration endpoint as written: the serializer validates
      first (400 on a duplicate e-mail), then `perform_create` either saves or
      returns a 404/400 `Response` that the generic create view ignores, so the
      client receives 201 in every case that passes validation. */
  function RegisterAsWritten(events: seq<Event>, regs: seq<EventRegistration>, pk: nat,
                             p: RegistrationPayload, user: Option<User>, now: int): (out: Outcome)
    ensures out.status == 400 <==> ValidateEmail(regs, pk, p.email).Err?
    ensures out.status != 400 ==> out.status == 201
  {
    if ValidateEmail(regs, pk, p.email).Err? then Outcome(400, regs)
    else match FindFirst(events, PublishedWithId(pk))
      case None => Outcome(201, regs)
      case Some(e) =>
        if !IsRegistrationOpen(e, regs, now) then Outcome(201, regs)
        else Outcome(201, regs + [NewRegistration(pk, user, p)])
  }

  /** Event ids are primary keys: no two rows of the table share one. */
  predicate IdsUnique(events: seq<Event>)
  {
    forall i, j :: 0 <= i < |events| && 0 <= j < |events| && events[i].id == events[j].id ==> i == j
  }

  lemma SameIdSameEvent(events: seq<Event>, e: Event, f: Event)
    requires IdsUnique(events) && e in events && f in events && e.id == f.id
    ensures e == f
  {
    var i :| 0 <= i < |events| && events[i] == e;
    var j :| 0 <= j < |events| && events[j] == f;
  }

  /** The registration endpoint with the rejections `perform_create` evidently
      means to send: 404 for a missing or unpublished event, 400 when
      registration is closed, and 201 exactly when a row was saved. */
  function Register(events: seq<Event>, regs: seq<EventRegistration>, pk: nat,
                    p: RegistrationPayload, user: Option<User>, now: int): (out: Outcome)
    ensures out.status == 201 || out.status == 400 || out.status == 404
    ensures out.status == 404 <==>
      ValidateEmail(regs, pk, p.email).Ok? && forall e :: e in events ==> !(e.id == pk && e.isPublished)
    ensures out.status == 201 ==>
      (exists e :: e in events && e.id == pk && e.isPublished && IsRegistrationOpen(e, regs, now))
      && out.registrations == regs + [NewRegistration(pk, user, p)]
    ensures IdsUnique(events) && ValidateEmail(regs, pk, p.email).Ok?
      && (exists e :: e in events && e.id == pk && e.isPublished && IsRegistrationOpen(e, regs, now))
      ==> out.status == 201
    ensures IdsUnique(events) ==> (out.status == 400 <==>
      (ValidateEmail(regs, pk, p.email).Err?
       || exists e :: e in events && e.id == pk && e.isPublished && !IsRegistrationOpen(e, regs, now)))
    ensures out.status != 201 ==> out.registrations == regs
  {
    var found := FindFirst(events, PublishedWithId(pk));
    assert IdsUnique(events) && found.Some? ==> forall e :: e in events && e.id == pk ==> e == found.value by {
      if IdsUnique(events) && found.Some? {
        forall e | e in events && e.id == pk ensures e == found.value {
          SameIdSameEvent(events, e, found.value);
        }
      }
    }
    if ValidateEmail(regs, pk, p.email).Err? then Outcome(400, regs)
    else match FindFirst(events, PublishedWithId(pk))
      case None => Outcome(404, regs)
      case Some(e) =>
        if !IsRegistrationOpen(e, regs, now) then Outcome(400, regs)
        else Outcome(201, regs + [NewRegistration(pk, user, p)])
  }

  /** A saved registration raises the event's count by one and makes the same
      e-mail a duplicate for that event from then on. */
  lemma RegisterThenDuplicate(events: seq<Event>, regs: seq<EventRegistration>, pk: nat,
                              p: RegistrationPayload, user: Option<User>, now: int)
    requires Register(events, regs, pk, p, user, now).status == 201
    ensures var after := Register(events, regs, pk, p, user, now).registrations;
      RegistrationCount(after, pk) == RegistrationCount(regs, pk) + 1
      && ValidateEmail(after, pk, p.email).Err?
      && Register(events, after, pk, p, user, now) == Outcome(400, after)
  {
    var r := NewRegistration(pk, user, p);
    RegistrationCountAppend(regs, r, pk);
    assert r in regs + [r];
  }

  /** Wherever the intended endpoint rejects a request that passed validation,
      the code as written answers 201 and saves nothing. */
  lemma AsWrittenHidesRejections(events: seq<Event>, regs: seq<EventRegistration>, pk: nat,
                                 p: RegistrationPayload, user: Option<User>, now: int)
    requires ValidateEmail(regs, pk, p.email).Ok?
    requires Register(events, regs, pk, p, user, now).status != 201
    ensures RegisterAsWritten(events, regs, pk, p, user, now) == Outcome(201, regs)
  {
  }

  /** The smallest such input: registering for an event that does not exist. */
  lemma MissingEventAnswered201()
    ensures var p := RegistrationPayload("Ada", "Lovelace", "ada@example.org", "", None, "");
      RegisterAsWritten([], [], 1, p, None, 0) == Outcome(201, [])
      && Register([], [], 1, p, None, 0) == Outcome(404, [])
  {
  }

  /** The registration table behind the endpoint. */
  class RegistrationTable {
    var rows: seq<EventRegistration>

    constructor ()
      ensures rows == []
    {
      rows := [];
    }

    /** `EventRegistrationView` (`create` followed by `perform_create`), with
        the rejections returned to the client. */
    method Create(events: seq<Event>, pk: nat, p: RegistrationPayload, user: Option<User>, now: int)
      returns (status: nat)
      modifies this
      ensures Outcome(status, rows) == Register(events, old(rows), pk, p, user, now)
    {
      if ValidateEmail(rows, pk, p.email).Err? {
        return 400;
      }
      var found := FindFirst(events, PublishedWithId(pk));
      if found.None? {
        return 404;
      }
      if !IsRegistrationOpen(found.value, rows, now) {
        return 400;
      }
      rows := rows + [NewRegistration(pk, user, p)];
      status := 201;
    }
  }

  datatype CalendarEntry = CalendarEntry(
    id: nat, title: string, start: int, end: int, allDay: bool, color: string,
    url: string, location: string, category: string, requiresRegistration: bool)

  const DefaultColor := "#3B82F6"

  /** One entry of the calendar feed. Its url names the event and reads back to its id. */
  function ToCalendarEntry(e: Event): (c: CalendarEntry)
    ensures c.id == e.id && c.title == e.title && c.start == e.start && c.end == e.end
    ensures c.allDay == e.allDay && c.requiresRegistration == e.requiresRegistration
    ensures e.category.None? ==> c.color == DefaultColor && c.category == ""
    ensures e.category.Some? ==> c.color == e.category.value.color && c.category == e.category.value.name
    ensures c.url == "/events/" + Text.NatToString(e.id)
  {
    CalendarEntry(e.id, e.title, e.start, e.end, e.allDay,
      if e.category.Some? then e.category.value.color else DefaultColor,
      "/events/" + Text.NatToString(e.id), e.location,
      if e.category.Some? then e.category.value.name else "",
      e.requiresRegistration)
  }

  /** The entry's link is the event's detail page, and its id reads back. */
  lemma CalendarUrlNamesEvent(e: Event)
    ensures Text.StartsWith(ToCalendarEntry(e).url, "/events/")
    ensures Text.ParseInt(ToCalendarEntry(e).url[8..]) == Some(e.id)
  {
    Text.ParseIntOfNumeral(e.id);
    var url := ToCalendarEntry(e).url;
    assert url[..8] == "/events/";
    assert url[8..] == Text.NatToString(e.id);
  }

  /** `event_calendar`: one entry per listed event, in queryset order. */
  method EventCalendar(events: seq<Event>, startDate: Option<int>, endDate: Option<int>)
    returns (entries: seq<CalendarEntry>)
    ensures |entries| == |EventList(events, startDate, endDate)|
    ensures forall i :: 0 <= i < |entries| ==>
      entries[i] == ToCalendarEntry(EventList(events, startDate, endDate)[i])
  {
    entries := CalendarEntries(EventList(events, startDate, endDate));
  }

  /** The loop over the queryset that builds the entries. */
  method CalendarEntries(queryset: seq<Event>) returns (entries: seq<CalendarEntry>)
    ensures |entries| == |queryset|
    ensures forall i :: 0 <= i < |entries| ==> entries[i] == ToCalendarEntry(queryset[i])
  {
    entries := [];
    for i := 0 to |queryset|
      invariant |entries| == i
      invariant forall k :: 0 <= k < i ==> entries[k] == ToCalendarEntry(queryset[k])
    {
      entries := entries + [ToCalendarEntry(queryset[i])];
    }
  }
}
