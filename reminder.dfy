/** The reminder queries (modules/calendar/service/reminder.go): which events
    are due for an e-mail reminder at `now`, and retiring one once sent. The
    clock reading `now` is a parameter. */
module Reminder {
  import opened Common
  import opened CalendarModels
  import opened Database

  /** The WHERE clause: the reminder instant has passed, no reminder was sent
      yet, and the event asks for e-mail. */
  predicate IsDue(e: Event, now: int)
  {
    ReminderTime(e) <= now && !e.reminderSent && e.sendEmail
  }

  /** GetUpcomingReminders: the due events, in table order. */
  function GetUpcomingReminders(events: seq<Event>, now: int): (r: seq<Event>)
    ensures forall e :: e in r <==> e in events && IsDue(e, now)
  {
    Filter(events, (e: Event) => IsDue(e, now))
  }

  /** An event already reminded, or one without e-mail, is never returned. */
  lemma RemindedOrSilentNeverReturned(events: seq<Event>, now: int, e: Event)
    requires e.reminderSent || !e.sendEmail
    ensures e !in GetUpcomingReminders(events, now)
  {
  }

  /** Once an event is due it stays due at every later instant (until it is
      marked). */
  lemma {:induction false} DueStaysDue(events: seq<Event>, now: int, later: int, e: Event)
    requires now <= later
    requires e in GetUpcomingReminders(events, now)
    ensures e in GetUpcomingReminders(events, later)
  {
  }

  /** The table after MarkReminderSent(id): ReminderSent set on that event. */
  function MarkedSent(events: seq<Event>, id: Uuid): (r: seq<Event>)
    ensures |r| == |events|
    ensures forall i :: 0 <= i < |events| ==>
      r[i] == if events[i].id == id then events[i].(reminderSent := true) else events[i]
  {
    seq(|events|, i requires 0 <= i < |events| =>
      if events[i].id == id then events[i].(reminderSent := true) else events[i])
  }

  /** MarkReminderSent: `UPDATE ... SET reminder_sent = true WHERE id = ?`. */
  method MarkReminderSent(db: Db, eventId: Uuid) returns (err: Option<string>)
    modifies db`events
    ensures err == None
    ensures db.events == MarkedSent(old(db.events), eventId)
  {
    db.events := MarkedSent(db.events, eventId);
    err := None;
  }

  /** After marking, the event is no longer returned at any instant, and every
      other event is due exactly as before. */
  lemma {:induction false} MarkedEventNotReturned(events: seq<Event>, id: Uuid, now: int)
    ensures forall e :: e in GetUpcomingReminders(MarkedSent(events, id), now) ==> e.id != id
    ensures forall e :: e in events && e.id != id ==>
              (e in GetUpcomingReminders(MarkedSent(events, id), now) <==> e in GetUpcomingReminders(events, now))
  {
    var m := MarkedSent(events, id);
    forall e | e in events && e.id != id
      ensures e in m
    {
      var i :| 0 <= i < |events| && events[i] == e;
      assert m[i] == e;
    }
    forall e | e in m ensures e.id == id ==> e.reminderSent {
      var i :| 0 <= i < |m| && m[i] == e;
    }
    forall e | e in m && e.id != id ensures e in events {
      var i :| 0 <= i < |m| && m[i] == e;
    }
  }
}
