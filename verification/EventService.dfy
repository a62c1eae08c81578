/** The event service: an update reads the event, overwrites its fields and stores it with the version it read. */
module EventServices {
  import opened Domain
  import opened Postgres

  /** A name, at least one seat, and an end not before the start. */
  predicate Valid(fields: EventRow) { fields.name != "" && fields.totalSeats > 0 && fields.startAt <= fields.endAt }

  class EventService {
    const store: Store

    constructor (store: Store)
      ensures this.store == store
    {
      this.store := store;
    }

    /** `others` is the events table as other clients leave it between the read and the write.  The update goes in
        exactly when none of them updated or deleted the event, and then every column but the version is the
        caller's; otherwise it fails and what the others stored stays. */
    method UpdateEvent(id: Id, fields: EventRow, others: map<Id, EventRow>) returns (e: Event?, err: Option<Error>)
      modifies store`events
      ensures err.Some? <==> e == null
      ensures id !in old(store.events) ==> err == Some(EventNotFound) && store.events == old(store.events)
      ensures id in old(store.events) && !Valid(fields) ==>
                && store.events == old(store.events)
                && err == Some(if fields.name == "" then EventNameRequired
                               else if fields.totalSeats <= 0 then InvalidTotalSeats
                               else InvalidEventTime)
      ensures id in old(store.events) && Valid(fields) ==>
                var version := old(store.events)[id].version;
                if id in others && others[id].version == version then
                  && err.None? && e.id == id && e.Row() == fields.(version := version + 1)
                  && store.events == others[id := e.Row()]
                else err == Some(EventNotFound) && store.events == others
    {
      e, err := store.GetEvent(id);
      if err.Some? { return; }
      e.name := fields.name;
      e.description := fields.description;
      e.venue := fields.venue;
      e.startAt := fields.startAt;
      e.endAt := fields.endAt;
      e.totalSeats := fields.totalSeats;
      err := e.Row().Validate();
      if err.Some? { return null, err; }
      store.events := others;
      err := store.UpdateEvent(e);
      if err.Some? { e := null; }
    }
  }
}
