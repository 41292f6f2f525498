/*
 * Events and registrations for them.  Each event keeps a participant
 * counter next to the registrations table; registering checks the guards in
 * a fixed order, adds one row and bumps the counter, and unregistering
 * removes the row and lowers the counter, never below zero.
 */
module EventService {
  import opened Common

  type EventId = int

  datatype EventType = Free | Paid

  /** A row of the events table; dates are instants on one clock. */
  datatype Event = Event(
    id: EventId,
    date: int,
    eventType: EventType,
    price: Option<int>,
    maxParticipants: int,
    currentParticipants: int)

  datatype Registration = Registration(id: string, eventId: EventId, userId: UserId, registeredAt: int)

  /** The events table and the event_registrations table, each in row order. */
  datatype EventsDb = EventsDb(events: seq<Event>, regs: seq<Registration>)

  const ErrEventNotFound := "Мероприятие не найдено"
  const ErrAlreadyRegistered := "Вы уже записаны на это мероприятие"
  const ErrNoSeats := "Нет свободных мест"
  const ErrEventPast := "Мероприятие уже прошло"
  const ErrNotRegistered := "Вы не записаны на это мероприятие"

  function FindEvent(events: seq<Event>, e: EventId): (r: Option<nat>)
    ensures r.Some? ==> r.value < |events| && events[r.value].id == e
    ensures r.Some? ==> forall i :: 0 <= i < r.value ==> events[i].id != e
    ensures r.None? <==> forall i :: 0 <= i < |events| ==> events[i].id != e
  {
    FindIndex(events, (x: Event) => x.id == e)
  }

  predicate IsRegistration(x: Registration, e: EventId, u: UserId) {
    x.eventId == e && x.userId == u
  }

  function FindRegistration(regs: seq<Registration>, e: EventId, u: UserId): (r: Option<nat>)
    ensures r.Some? ==> r.value < |regs| && IsRegistration(regs[r.value], e, u)
    ensures r.Some? ==> forall i :: 0 <= i < r.value ==> !IsRegistration(regs[i], e, u)
    ensures r.None? <==> forall i :: 0 <= i < |regs| ==> !IsRegistration(regs[i], e, u)
  {
    FindIndex(regs, (x: Registration) => IsRegistration(x, e, u))
  }

  /** is_user_registered: a registration row exists for the pair. */
  function IsUserRegistered(db: EventsDb, e: EventId, u: UserId): (r: bool)
    ensures r <==> exists i :: 0 <= i < |db.regs| && db.regs[i].eventId == e && db.regs[i].userId == u
  {
    FindRegistration(db.regs, e, u).Some?
  }

  /** get_event_participants_count: the number of registration rows for the event. */
  function CountFor(regs: seq<Registration>, e: EventId): (n: nat)
    ensures n <= |regs|
    ensures n == 0 <==> forall i :: 0 <= i < |regs| ==> regs[i].eventId != e
  {
    if regs == [] then 0
    else (if regs[0].eventId == e then 1 else 0) + CountFor(regs[1..], e)
  }

  // ---------------------------------------------------------------------------
  // Register and unregister on database values
  // ---------------------------------------------------------------------------

  /** register_for_event: unknown event, duplicate, full, past, in that order; then one new row and the counter up by one. */
  function RegisterSpec(db: EventsDb, e: EventId, u: UserId, now: int, regId: string): (r: Result<EventsDb>)
    ensures FindEvent(db.events, e).None? ==> r == Err(ErrEventNotFound)
    ensures FindEvent(db.events, e).Some? ==>
              var ev := db.events[FindEvent(db.events, e).value];
              && (IsUserRegistered(db, e, u) ==> r == Err(ErrAlreadyRegistered))
              && (!IsUserRegistered(db, e, u) && ev.currentParticipants >= ev.maxParticipants ==> r == Err(ErrNoSeats))
              && (!IsUserRegistered(db, e, u) && ev.currentParticipants < ev.maxParticipants && ev.date < now
                  ==> r == Err(ErrEventPast))
              && (r.Ok? <==> !IsUserRegistered(db, e, u) && ev.currentParticipants < ev.maxParticipants && ev.date >= now)
    ensures r.Ok? ==> FindEvent(db.events, e).Some? && !IsUserRegistered(db, e, u)
  {
    match FindEvent(db.events, e)
    case None => Err(ErrEventNotFound)
    case Some(i) =>
      var ev := db.events[i];
      if FindRegistration(db.regs, e, u).Some? then Err(ErrAlreadyRegistered)
      else if ev.currentParticipants >= ev.maxParticipants then Err(ErrNoSeats)
      else if ev.date < now then Err(ErrEventPast)
      else Ok(EventsDb(db.events[i := ev.(currentParticipants := ev.currentParticipants + 1)],
                       db.regs + [Registration(regId, e, u, now)]))
  }

  /** unregister_from_event: refused without a registration; otherwise the row goes and the counter drops, floored at 0. */
  function UnregisterSpec(db: EventsDb, e: EventId, u: UserId): (r: Result<EventsDb>)
    ensures r.Err? <==> !IsUserRegistered(db, e, u)
    ensures r.Err? ==> r.error == ErrNotRegistered
  {
    match FindRegistration(db.regs, e, u)
    case None => Err(ErrNotRegistered)
    case Some(j) => Ok(EventsDb(DropCounter(db.events, e), RemoveAt(db.regs, j)))
  }

  /** One participant less, floored at zero. */
  function Decrement(ev: Event): Event {
    ev.(currentParticipants := if ev.currentParticipants - 1 < 0 then 0 else ev.currentParticipants - 1)
  }

  /** The events table with the event's counter, if the event exists, decremented. */
  function DropCounter(events: seq<Event>, e: EventId): (r: seq<Event>)
    ensures |r| == |events|
    ensures forall k :: 0 <= k < |events| ==> r[k].id == events[k].id
  {
    match FindEvent(events, e)
    case None => events
    case Some(i) => events[i := Decrement(events[i])]
  }

  // ---------------------------------------------------------------------------
  // The counter invariant
  // ---------------------------------------------------------------------------

  predicate EventIdsDistinct(events: seq<Event>) {
    forall i, j :: 0 <= i < j < |events| ==> events[i].id != events[j].id
  }

  predicate PairsUnique(regs: seq<Registration>) {
    forall i, j :: 0 <= i < j < |regs| ==> !IsRegistration(regs[j], regs[i].eventId, regs[i].userId)
  }

  predicate CountersAgree(events: seq<Event>, regs: seq<Registration>) {
    forall i :: 0 <= i < |events| ==>
      events[i].currentParticipants == CountFor(regs, events[i].id)
      && events[i].currentParticipants <= events[i].maxParticipants
  }

  /** The tables as register and unregister keep them: one row per event id and per (event, user) pair, counters equal to row counts and within capacity. */
  predicate Valid(db: EventsDb) {
    EventIdsDistinct(db.events) && PairsUnique(db.regs) && CountersAgree(db.events, db.regs)
  }

  lemma {:induction false} CountConcat(a: seq<Registration>, b: seq<Registration>, e: EventId)
    ensures CountFor(a + b, e) == CountFor(a, e) + CountFor(b, e)
  {
    if a != [] {
      assert (a + b)[1..] == a[1..] + b;
      CountConcat(a[1..], b, e);
    } else {
      assert a + b == b;
    }
  }

  lemma CountRemove(regs: seq<Registration>, j: nat, e: EventId)
    requires j < |regs|
    ensures CountFor(RemoveAt(regs, j), e) == CountFor(regs, e) - (if regs[j].eventId == e then 1 else 0)
  {
    assert regs == regs[..j] + ([regs[j]] + regs[j + 1..]);
    CountConcat(regs[..j], [regs[j]] + regs[j + 1..], e);
    CountConcat([regs[j]], regs[j + 1..], e);
    CountConcat(regs[..j], regs[j + 1..], e);
  }

  /** Replacing one event's counter keeps every event id. */
  lemma SameIdsDistinct(events: seq<Event>, events': seq<Event>)
    requires EventIdsDistinct(events) && |events'| == |events|
    requires forall k :: 0 <= k < |events| ==> events'[k].id == events[k].id
    ensures EventIdsDistinct(events')
  {
  }

  lemma RegisterCounters(events: seq<Event>, regs: seq<Registration>, i: nat, x: Registration)
    requires EventIdsDistinct(events) && CountersAgree(events, regs)
    requires i < |events| && x.eventId == events[i].id
    requires events[i].currentParticipants < events[i].maxParticipants
    ensures CountersAgree(events[i := events[i].(currentParticipants := events[i].currentParticipants + 1)], regs + [x])
  {
    var events' := events[i := events[i].(currentParticipants := events[i].currentParticipants + 1)];
    forall k | 0 <= k < |events'|
      ensures events'[k].currentParticipants == CountFor(regs + [x], events'[k].id)
    {
      CountConcat(regs, [x], events[k].id);
    }
  }

  /** With one row per event id, dropping a counter touches exactly the rows of that event. */
  lemma DropCounterOnDistinct(events: seq<Event>, e: EventId)
    requires EventIdsDistinct(events)
    ensures forall k :: 0 <= k < |events| ==>
              DropCounter(events, e)[k] == if events[k].id == e then Decrement(events[k]) else events[k]
  {
  }

  lemma UnregisterCounters(events: seq<Event>, regs: seq<Registration>, j: nat)
    requires EventIdsDistinct(events) && CountersAgree(events, regs) && j < |regs|
    ensures CountersAgree(DropCounter(events, regs[j].eventId), RemoveAt(regs, j))
    ensures forall k :: 0 <= k < |events| ==>
              DropCounter(events, regs[j].eventId)[k].currentParticipants
              == events[k].currentParticipants - (if events[k].id == regs[j].eventId then 1 else 0)
  {
    var events' := DropCounter(events, regs[j].eventId);
    DropCounterOnDistinct(events, regs[j].eventId);
    forall k | 0 <= k < |events|
      ensures events'[k].currentParticipants == CountFor(RemoveAt(regs, j), events'[k].id)
      ensures events'[k].currentParticipants == events[k].currentParticipants - (if events[k].id == regs[j].eventId then 1 else 0)
    {
      CountRemove(regs, j, events[k].id);
    }
  }

  lemma AppendPairsUnique(regs: seq<Registration>, x: Registration)
    requires PairsUnique(regs)
    requires forall i :: 0 <= i < |regs| ==> !IsRegistration(regs[i], x.eventId, x.userId)
    ensures PairsUnique(regs + [x])
  {
    var r := regs + [x];
    forall i, j | 0 <= i < j < |r| ensures !IsRegistration(r[j], r[i].eventId, r[i].userId) {
      if j == |regs| {
        assert r[i] == regs[i];
      }
    }
  }

  lemma RemovePairsUnique(regs: seq<Registration>, j: nat)
    requires PairsUnique(regs) && j < |regs|
    ensures PairsUnique(RemoveAt(regs, j))
    ensures forall m :: 0 <= m < |regs| - 1 ==> !IsRegistration(RemoveAt(regs, j)[m], regs[j].eventId, regs[j].userId)
  {
    var r := RemoveAt(regs, j);
    forall m | 0 <= m < |r| ensures !IsRegistration(r[m], regs[j].eventId, regs[j].userId) {
      if m >= j {
        assert r[m] == regs[m + 1];
      }
    }
  }

  /** A successful registration adds exactly the new row, lifts exactly one counter by one, and keeps the tables valid. */
  lemma RegisterOutcome(db: EventsDb, e: EventId, u: UserId, now: int, regId: string)
    requires Valid(db)
    requires RegisterSpec(db, e, u, now, regId).Ok?
    ensures var db' := RegisterSpec(db, e, u, now, regId).value;
            var i := FindEvent(db.events, e).value;
            && db'.regs == db.regs + [Registration(regId, e, u, now)]
            && |db'.events| == |db.events|
            && db'.events[i].currentParticipants == db.events[i].currentParticipants + 1
            && (forall k :: 0 <= k < |db.events| && k != i ==> db'.events[k] == db.events[k])
            && Valid(db')
  {
    var i := FindEvent(db.events, e).value;
    var ev := db.events[i];
    var x := Registration(regId, e, u, now);
    var db' := EventsDb(db.events[i := ev.(currentParticipants := ev.currentParticipants + 1)], db.regs + [x]);
    assert RegisterSpec(db, e, u, now, regId).value == db';
    SameIdsDistinct(db.events, db'.events);
    AppendPairsUnique(db.regs, x);
    RegisterCounters(db.events, db.regs, i, x);
  }

  /** A successful unregistration removes the pair's row, lowers its event's counter by one, and keeps the tables valid. */
  lemma UnregisterOutcome(db: EventsDb, e: EventId, u: UserId)
    requires Valid(db)
    requires UnregisterSpec(db, e, u).Ok?
    ensures var db' := UnregisterSpec(db, e, u).value;
            && |db'.regs| == |db.regs| - 1
            && |db'.events| == |db.events|
            && (forall k :: 0 <= k < |db.events| ==>
                  db'.events[k].currentParticipants
                  == db.events[k].currentParticipants - (if db.events[k].id == e then 1 else 0))
            && Valid(db')
            && !IsUserRegistered(db', e, u)
  {
    var j := FindRegistration(db.regs, e, u).value;
    RemovePairsUnique(db.regs, j);
    UnregisterCounters(db.events, db.regs, j);
  }

  /** Unregistering right after registering restores both tables. */
  lemma RegisterThenUnregister(db: EventsDb, e: EventId, u: UserId, now: int, regId: string)
    requires Valid(db)
    requires RegisterSpec(db, e, u, now, regId).Ok?
    ensures UnregisterSpec(RegisterSpec(db, e, u, now, regId).value, e, u) == Ok(db)
  {
    var i := FindEvent(db.events, e).value;
    assert db.events[i].currentParticipants == CountFor(db.regs, e);
    RegisterThenUnregisterAt(db, e, u, now, regId, i);
  }

  lemma RegisterThenUnregisterAt(db: EventsDb, e: EventId, u: UserId, now: int, regId: string, i: nat)
    requires RegisterSpec(db, e, u, now, regId).Ok?
    requires FindEvent(db.events, e) == Some(i) && db.events[i].currentParticipants >= 0
    ensures UnregisterSpec(RegisterSpec(db, e, u, now, regId).value, e, u) == Ok(db)
  {
    var ev := db.events[i];
    var bumped := ev.(currentParticipants := ev.currentParticipants + 1);
    var x := Registration(regId, e, u, now);
    assert RegisterSpec(db, e, u, now, regId).value == EventsDb(db.events[i := bumped], db.regs + [x]);
    FindRegistrationIs(db.regs + [x], e, u, |db.regs|);
    FindEventIs(db.events[i := bumped], e, i);
    assert RemoveAt(db.regs + [x], |db.regs|) == db.regs;
    assert Decrement(bumped) == ev;
    assert db.events[i := bumped][i := ev] == db.events;
  }

  lemma FindRegistrationIs(regs: seq<Registration>, e: EventId, u: UserId, i: nat)
    requires i < |regs| && IsRegistration(regs[i], e, u)
    requires forall m :: 0 <= m < i ==> !IsRegistration(regs[m], e, u)
    ensures FindRegistration(regs, e, u) == Some(i)
  {
  }

  lemma FindEventIs(events: seq<Event>, e: EventId, i: nat)
    requires i < |events| && events[i].id == e
    requires forall m :: 0 <= m < i ==> events[m].id != e
    ensures FindEvent(events, e) == Some(i)
  {
  }

  /** On valid tables the stored counter is the number of registrations. */
  lemma ParticipantsCountIsCounter(db: EventsDb, i: nat)
    requires Valid(db) && i < |db.events|
    ensures CountFor(db.regs, db.events[i].id) == db.events[i].currentParticipants
  {
  }

  // ---------------------------------------------------------------------------
  // Listing
  // ---------------------------------------------------------------------------

  function EventDate(x: Event): int { x.date }

  /** get_all_events: upcoming ones only when asked, by date ascending, then OFFSET and LIMIT. */
  function AllEvents(db: EventsDb, skip: nat, limit: nat, upcomingOnly: bool, now: int): (r: seq<Event>)
    ensures |r| <= limit
    ensures forall x :: x in r ==> x in db.events && (upcomingOnly ==> x.date >= now)
    ensures SortedBy(r, EventDate)
  {
    var kept := if upcomingOnly then Filter(db.events, (x: Event) => x.date >= now) else db.events;
    var sorted := SortBy(kept, EventDate);
    SameMembers(kept, sorted);
    var r := Page(sorted, skip, limit);
    assert forall i :: 0 <= i < |r| ==> r[i] in sorted;
    PageSorted(sorted, skip, limit, EventDate);
    r
  }

  /** Paging loses and repeats nothing: with no offset and a large enough limit the list holds every event that qualifies. */
  lemma AllEventsComplete(db: EventsDb, upcomingOnly: bool, now: int, x: Event)
    requires x in db.events && (upcomingOnly ==> x.date >= now)
    ensures x in AllEvents(db, 0, |db.events|, upcomingOnly, now)
  {
    var kept := if upcomingOnly then Filter(db.events, (y: Event) => y.date >= now) else db.events;
    var sorted := SortBy(kept, EventDate);
    SameMembers(kept, sorted);
    assert Page(sorted, 0, |db.events|) == sorted;
  }

  // ---------------------------------------------------------------------------
  // The mutable store
  // ---------------------------------------------------------------------------

  class EventStore {
    var events: seq<Event>
    var regs: seq<Registration>

    function State(): EventsDb
      reads this
    {
      EventsDb(events, regs)
    }

    constructor(events: seq<Event>, regs: seq<Registration>)
      ensures State() == EventsDb(events, regs)
    {
      this.events := events;
      this.regs := regs;
    }

    method Register(e: EventId, u: UserId, now: int, regId: string) returns (r: Result<Registration>)
      modifies this
      ensures RegisterSpec(old(State()), e, u, now, regId).Err? ==>
                State() == old(State()) && r == Err(RegisterSpec(old(State()), e, u, now, regId).error)
      ensures RegisterSpec(old(State()), e, u, now, regId).Ok? ==>
                State() == RegisterSpec(old(State()), e, u, now, regId).value && r == Ok(Registration(regId, e, u, now))
    {
      var i := FindEvent(events, e);
      if i.None? {
        return Err(ErrEventNotFound);
      }
      var ev := events[i.value];
      if FindRegistration(regs, e, u).Some? {
        return Err(ErrAlreadyRegistered);
      }
      if ev.currentParticipants >= ev.maxParticipants {
        return Err(ErrNoSeats);
      }
      if ev.date < now {
        return Err(ErrEventPast);
      }
      var reg := Registration(regId, e, u, now);
      regs := regs + [reg];
      events := events[i.value := ev.(currentParticipants := ev.currentParticipants + 1)];
      r := Ok(reg);
    }

    method Unregister(e: EventId, u: UserId) returns (r: Result<bool>)
      modifies this
      ensures UnregisterSpec(old(State()), e, u).Err? ==>
                State() == old(State()) && r == Err(ErrNotRegistered)
      ensures UnregisterSpec(old(State()), e, u).Ok? ==>
                State() == UnregisterSpec(old(State()), e, u).value && r == Ok(true)
    {
      var j := FindRegistration(regs, e, u);
      if j.None? {
        return Err(ErrNotRegistered);
      }
      var i := FindEvent(events, e);
      if i.Some? {
        var ev := events[i.value];
        var n := ev.currentParticipants - 1;
        if n < 0 {
          n := 0;
        }
        events := events[i.value := ev.(currentParticipants := n)];
      }
      regs := RemoveAt(regs, j.value);
      r := Ok(true);
    }
  }
}
