/** The calendar HTTP handlers
    (backend/modules/calendar/handlers/calendar_handler.go). Unlike the item
    and blog handlers these check the owner BEFORE changing anything. */
module CalendarHandler {
  import opened Common
  import opened CalendarModels
  import opened Database
  import opened CalendarRepository
  import opened RequestUser

  const EventIdRequired: string := "Event ID is required"
  const InvalidEventId: string := "Invalid Event ID format"
  const EventNotFoundReply: string := "Event not found"
  const NotAllowedToUpdate: string := "You are not authorized to update this event"
  const NotAllowedToDelete: string := "Unauthorized to delete this event"

  /** A refused request: the status and the error message. */
  datatype Refusal = Refusal(status: int, error: string)

  /** CreateEventHandler: 401 without a requester id, 400 for a body that
      does not bind, 500 when validation fails, else 201 with the requester
      as the event's user. */
  method CreateEventHandler(db: Db, authId: Option<Uuid>, body: Option<Event>, freshId: Uuid, hookId: Uuid)
    returns (status: int)
    modifies db`events
    ensures authId.None? ==> status == StatusUnauthorized && db.events == old(db.events)
    ensures authId.Some? && body.None? ==> status == StatusBadRequest && db.events == old(db.events)
    ensures authId.Some? && body.Some? && ValidateEvent(body.value).Some? ==>
              status == StatusInternalServerError && db.events == old(db.events)
    ensures authId.Some? && body.Some? && ValidateEvent(body.value).None? ==>
              status == StatusCreated
              && db.events == old(db.events) + [body.value.(userId := authId.value, id := hookId)]
  {
    if authId.None? {
      return StatusUnauthorized;
    }
    if body.None? {
      return StatusBadRequest;
    }
    var event := body.value.(userId := authId.value);
    var r := CreateEvent(db, event, freshId, hookId);
    if r.Err? {
      return StatusInternalServerError;
    }
    status := StatusCreated;
  }

  /** The id, requester and ownership checks shared by update and delete;
      `notOwner` is the refusal a non-owner gets. */
  function EventGate(events: seq<Event>, authId: Option<Uuid>, param: PathId, notOwner: Refusal): (r: Option<Refusal>)
    ensures authId.None? ==> r == Some(Refusal(StatusUnauthorized, UserIdMissing))
    ensures authId.Some? && param.EmptyId? ==> r == Some(Refusal(StatusBadRequest, EventIdRequired))
    ensures authId.Some? && param.InvalidId? ==> r == Some(Refusal(StatusBadRequest, InvalidEventId))
    ensures authId.Some? && param.ValidId? && GetEventById(events, param.id).Err? ==>
              r == Some(Refusal(StatusNotFound, EventNotFoundReply))
    ensures r.None? <==>
              authId.Some? && param.ValidId? && GetEventById(events, param.id).Ok?
              && GetEventById(events, param.id).value.userId == authId.value
  {
    match CurrentUserId(authId)
    case Err(e) => Some(Refusal(StatusUnauthorized, e))
    case Ok(userId) =>
      match param
      case EmptyId => Some(Refusal(StatusBadRequest, EventIdRequired))
      case InvalidId => Some(Refusal(StatusBadRequest, InvalidEventId))
      case ValidId(id) =>
        match GetEventById(events, id)
        case Err(_) => Some(Refusal(StatusNotFound, EventNotFoundReply))
        case Ok(e) => if e.userId != userId then Some(notOwner) else None
  }

  /** UpdateCalendarEventHandler's refusals. The body is bound after the id
      checks and before the event is read, so a body that does not bind
      (`Err` with the binder's message) is a 400 even for a missing event. */
  function UpdateEventGate(events: seq<Event>, authId: Option<Uuid>, param: PathId,
                           update: Result<EventUpdate>): (r: Option<Refusal>)
    ensures r.None? <==> update.Ok? && EventGate(events, authId, param, Refusal(StatusForbidden, NotAllowedToUpdate)).None?
    ensures authId.Some? && param.ValidId? && update.Err? ==> r == Some(Refusal(StatusBadRequest, update.msg))
  {
    if authId.Some? && param.ValidId? && update.Err?
    then Some(Refusal(StatusBadRequest, update.msg))
    else EventGate(events, authId, param, Refusal(StatusForbidden, NotAllowedToUpdate))
  }

  method UpdateCalendarEventHandler(db: Db, authId: Option<Uuid>, param: PathId, update: Result<EventUpdate>)
    returns (status: int)
    modifies db`events
    ensures var gate := UpdateEventGate(old(db.events), authId, param, update);
      gate.Some? ==> status == gate.value.status && db.events == old(db.events)
    ensures var gate := UpdateEventGate(old(db.events), authId, param, update);
      gate.None? ==>
        status == StatusOK
        && db.events == ReplaceEvent(old(db.events), MergeEvent(GetEventById(old(db.events), param.id).value, update.value))
  {
    if authId.None? {
      return StatusUnauthorized;
    }
    if param.EmptyId? || param.InvalidId? {
      return StatusBadRequest;
    }
    if update.Err? {
      return StatusBadRequest;
    }
    var event := GetEventById(db.events, param.id);
    if event.Err? {
      return StatusNotFound;
    }
    if event.value.userId != authId.value {
      return StatusForbidden;
    }
    var updated := CalendarUpdateEvent(db, param.id, update.value);
    if updated.Err? {
      return StatusInternalServerError;
    }
    status := StatusOK;
  }

  /** GetAllEventsHandler: the requester's events. */
  method GetAllEventsHandler(db: Db, authId: Option<Uuid>) returns (status: int, events: seq<Event>)
    ensures authId.None? ==> status == StatusUnauthorized && events == []
    ensures authId.Some? ==> status == StatusOK && forall e :: e in events <==> e in db.events && e.userId == authId.value
  {
    if authId.None? {
      return StatusUnauthorized, [];
    }
    events := GetAllEvents(db, authId.value);
    status := StatusOK;
  }

  method DeleteCalendarEventHandler(db: Db, authId: Option<Uuid>, param: PathId) returns (status: int)
    modifies db`events
    ensures var gate := EventGate(old(db.events), authId, param, Refusal(StatusUnauthorized, NotAllowedToDelete));
      gate.Some? ==> status == gate.value.status && db.events == old(db.events)
    ensures var gate := EventGate(old(db.events), authId, param, Refusal(StatusUnauthorized, NotAllowedToDelete));
      gate.None? ==> status == StatusOK && db.events == Filter(old(db.events), (e: Event) => e.id != param.id)
  {
    if authId.None? {
      return StatusUnauthorized;
    }
    if param.EmptyId? || param.InvalidId? {
      return StatusBadRequest;
    }
    var event := GetEventById(db.events, param.id);
    if event.Err? {
      return StatusNotFound;
    }
    if event.value.userId != authId.value {
      return StatusUnauthorized;
    }
    var err := DeleteEventById(db, param.id);
    assert err == None;
    status := StatusOK;
  }

  /** Someone else's event is refused before anything changes: 403 on update
      and 401 on delete. */
  lemma NonOwnerRefused(events: seq<Event>, e: Event, requester: Uuid, u: EventUpdate)
    requires FindEvent(events, e.id) == Some(e) && e.userId != requester
    ensures UpdateEventGate(events, Some(requester), ValidId(e.id), Ok(u)) ==
            Some(Refusal(StatusForbidden, NotAllowedToUpdate))
    ensures EventGate(events, Some(requester), ValidId(e.id), Refusal(StatusUnauthorized, NotAllowedToDelete)) ==
            Some(Refusal(StatusUnauthorized, NotAllowedToDelete))
  {
  }
}
