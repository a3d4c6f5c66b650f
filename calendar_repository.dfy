/** The calendar repository (modules/calendar/repository/calendar_repository.go).
    Times are minutes; the Europe/Warsaw conversions change the displayed zone
    but not the instant, so they are identities here. */
module CalendarRepository {
  import opened Common
  import opened CalendarModels
  import opened Database

  const EmptyTitleError: string := "the event name cannot be empty"
  const StartAfterEndError: string := "the start date cannot be after the end date"
  const EventNotFound: string := "event not found"

  /** The first event with that id. */
  function FindEvent(events: seq<Event>, id: Uuid): (r: Option<Event>)
    ensures r.None? <==> forall i :: 0 <= i < |events| ==> events[i].id != id
    ensures r.Some? ==> r.value in events && r.value.id == id
  {
    if |events| == 0 then None
    else if events[0].id == id then Some(events[0])
    else FindEvent(events[1..], id)
  }

  /** db.Save of a loaded event: the row with its id is replaced. */
  function ReplaceEvent(events: seq<Event>, e: Event): (r: seq<Event>)
    ensures |r| == |events|
    ensures forall i :: 0 <= i < |events| ==> r[i] == if events[i].id == e.id then e else events[i]
  {
    seq(|events|, i requires 0 <= i < |events| => if events[i].id == e.id then e else events[i])
  }

  // ---- CreateEvent ----

  /** The validation of CreateEvent: a title is required and the start may
      not come after the end (equal instants are accepted). */
  function ValidateEvent(c: Event): (r: Option<string>)
    ensures r.None? <==> c.title != "" && c.startDate <= c.endDate
    ensures c.title == "" ==> r == Some(EmptyTitleError)
    ensures c.title != "" && c.startDate > c.endDate ==> r == Some(StartAfterEndError)
  {
    if c.title == "" then Some(EmptyTitleError)
    else if c.startDate > c.endDate then Some(StartAfterEndError)
    else None
  }

  /** CreateEvent: validate, give the event a new id (`freshId`, replaced by
      the Calendar hook's `hookId`), store it and return it. */
  method CreateEvent(db: Db, c: Event, freshId: Uuid, hookId: Uuid) returns (r: Result<Event>)
    modifies db`events
    ensures ValidateEvent(c).Some? ==> r == Err(ValidateEvent(c).value) && db.events == old(db.events)
    ensures ValidateEvent(c).None? ==> r == Ok(c.(id := hookId)) && db.events == old(db.events) + [r.value]
  {
    if c.title == "" {
      return Err(EmptyTitleError);
    }
    if c.startDate > c.endDate {
      return Err(StartAfterEndError);
    }
    var created := c.(id := freshId);
    created := created.(id := hookId);
    db.events := db.events + [created];
    r := Ok(created);
  }

  /** A stored event never starts after it ends, and with a non-negative
      offset its reminder is due no later than its start. */
  lemma CreatedEventIsOrdered(c: Event)
    requires ValidateEvent(c).None?
    ensures c.startDate <= c.endDate
    ensures c.reminderOffset >= 0 ==> ReminderTime(c) <= c.startDate
  {
  }

  // ---- GetAllEvents / GetEventById ----

  /** GetAllEvents: the user's events in table order, copied one by one into
      the response; no events gives the empty list. */
  method GetAllEvents(db: Db, userId: Uuid) returns (r: seq<Event>)
    ensures r == Filter(db.events, (e: Event) => e.userId == userId)
  {
    var events := Filter(db.events, (e: Event) => e.userId == userId);
    if |events| == 0 {
      return [];
    }
    r := [];
    var k := 0;
    while k < |events|
      invariant 0 <= k <= |events| && r == events[..k]
    {
      r := r + [events[k]];
      k := k + 1;
    }
    assert events[..k] == events;
  }

  /** Every event of the user is listed, and nothing else. */
  lemma AllEventsOfUser(events: seq<Event>, userId: Uuid, e: Event)
    ensures e in Filter(events, (x: Event) => x.userId == userId) <==> e in events && e.userId == userId
  {
  }

  /** GetEventById: the event, or "event not found". */
  function GetEventById(events: seq<Event>, id: Uuid): (r: Result<Event>)
    ensures r.Ok? <==> exists i :: 0 <= i < |events| && events[i].id == id
    ensures r.Ok? ==> r.value in events && r.value.id == id
    ensures r.Err? ==> r.msg == EventNotFound
  {
    match FindEvent(events, id)
    case None => Err(EventNotFound)
    case Some(e) => Ok(e)
  }

  // ---- CalendarUpdateEvent ----

  /** A time or offset field of the update replaces the stored one unless it
      is zero (the zero time, or no offset). */
  function NonZeroOr(update: int, current: int): int
  {
    if update != ZeroTime then update else current
  }

  /** The event after CalendarUpdateEvent's conditional assignments. */
  function MergeEvent(e: Event, u: EventUpdate): (r: Event)
    ensures r.id == e.id && r.userId == e.userId
    ensures r.sendEmail == e.sendEmail && r.reminderSent == e.reminderSent
  {
    Event(e.id, NonEmptyOr(u.title, e.title), NonEmptyOr(u.description, e.description),
          NonZeroOr(u.startDate, e.startDate), NonZeroOr(u.endDate, e.endDate),
          NonZeroOr(u.reminderOffset, e.reminderOffset), e.allDay || u.allDay, NonEmptyOr(u.color, e.color),
          e.workingDay || u.workingDay, e.sickDay || u.sickDay, e.vacation || u.vacation,
          e.weekend || u.weekend, e.sendEmail, e.reminderSent, e.userId)
  }

  /** The flags can be switched on by an update but never off. */
  lemma MergeEventFlagsOnlyRise(e: Event, u: EventUpdate)
    ensures var r := MergeEvent(e, u);
      && (e.allDay ==> r.allDay) && (e.workingDay ==> r.workingDay) && (e.sickDay ==> r.sickDay)
      && (e.vacation ==> r.vacation) && (e.weekend ==> r.weekend)
      && (r.allDay <==> e.allDay || u.allDay) && (r.weekend <==> e.weekend || u.weekend)
  {
  }

  /** Strings change only with a non-empty value, dates only with a non-zero
      time, the offset only with a non-zero value; the update's SendMail and
      ReminderSent are ignored. */
  lemma MergeEventFields(e: Event, u: EventUpdate)
    ensures var r := MergeEvent(e, u);
      && (u.title == "" ==> r.title == e.title) && (u.title != "" ==> r.title == u.title)
      && (u.description == "" ==> r.description == e.description) && (u.description != "" ==> r.description == u.description)
      && (u.color == "" ==> r.color == e.color) && (u.color != "" ==> r.color == u.color)
      && (u.startDate == ZeroTime ==> r.startDate == e.startDate) && (u.startDate != ZeroTime ==> r.startDate == u.startDate)
      && (u.endDate == ZeroTime ==> r.endDate == e.endDate) && (u.endDate != ZeroTime ==> r.endDate == u.endDate)
      && (u.reminderOffset == 0 ==> r.reminderOffset == e.reminderOffset)
      && (u.reminderOffset != 0 ==> r.reminderOffset == u.reminderOffset)
  {
  }

  /** Updates are idempotent. */
  lemma MergeEventIdempotent(e: Event, u: EventUpdate)
    ensures MergeEvent(MergeEvent(e, u), u) == MergeEvent(e, u)
  {
  }

  /** The update does not repeat CreateEvent's date check: a valid event can
      be given a start after its end. */
  lemma UpdateCanInvertDates()
    ensures var e := Event(1, "t", "", 10, 20, 0, false, "", false, false, false, false, false, false, 1);
      var u := EventUpdate("", "", 30, 0, 0, false, "", false, false, false, false, false, false);
      ValidateEvent(e).None? && MergeEvent(e, u).startDate > MergeEvent(e, u).endDate
  {
  }

  /** CalendarUpdateEvent: load, overwrite field by field, save, answer. */
  method CalendarUpdateEvent(db: Db, eventId: Uuid, u: EventUpdate) returns (r: Result<Event>)
    modifies db`events
    ensures FindEvent(old(db.events), eventId).None? ==> r == Err(EventNotFound) && db.events == old(db.events)
    ensures FindEvent(old(db.events), eventId).Some? ==>
              r == Ok(MergeEvent(FindEvent(old(db.events), eventId).value, u))
              && db.events == ReplaceEvent(old(db.events), r.value)
  {
    var found := FindEvent(db.events, eventId);
    if found.None? {
      return Err(EventNotFound);
    }
    var e := found.value;
    var title, description, color := e.title, e.description, e.color;
    var startDate, endDate, reminderOffset := e.startDate, e.endDate, e.reminderOffset;
    var allDay, workingDay, sickDay, vacation, weekend := e.allDay, e.workingDay, e.sickDay, e.vacation, e.weekend;
    if u.title != "" { title := u.title; }
    if u.description != "" { description := u.description; }
    if u.startDate != ZeroTime { startDate := u.startDate; }
    if u.endDate != ZeroTime { endDate := u.endDate; }
    if u.reminderOffset != 0 { reminderOffset := u.reminderOffset; }
    if u.allDay { allDay := u.allDay; }
    if u.color != "" { color := u.color; }
    if u.workingDay { workingDay := u.workingDay; }
    if u.sickDay { sickDay := u.sickDay; }
    if u.vacation { vacation := u.vacation; }
    if u.weekend { weekend := u.weekend; }
    var saved := Event(e.id, title, description, startDate, endDate, reminderOffset, allDay, color,
                       workingDay, sickDay, vacation, weekend, e.sendEmail, e.reminderSent, e.userId);
    db.events := ReplaceEvent(db.events, saved);
    r := Ok(saved);
  }

  // ---- DeleteEventById ----

  /** DeleteEventById: removes the event. The generic delete never reports a
      missing row, so "event not found" is never returned from here. */
  method DeleteEventById(db: Db, eventId: Uuid) returns (err: Option<string>)
    modifies db`events
    ensures err == None
    ensures db.events == Filter(old(db.events), (e: Event) => e.id != eventId)
  {
    db.events := Filter(db.events, (e: Event) => e.id != eventId);
    err := None;
  }
}
