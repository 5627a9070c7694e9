/** The event controller (event.controller.ts): the event store, the
    registration engine (register, unregister) and the event lifecycle
    (create, update, delete, get one). Each operation loads a document,
    checks its preconditions in a fixed order, changes the loaded copy and
    saves it back; the pure `...Outcome` functions state what each one
    decides, and the lemmas state what those decisions preserve. */
module EventController {
  import opened Common
  import opened JsText
  import opened EventModel
  import opened Validation

  /** The `:id` route parameter after the store's id cast: a well-formed id,
      or text that is not an id at all. */
  datatype IdParam = ObjectId(id: EventId) | NotObjectId

  const EventNotFound := AppError(NotFoundError, "Event not found")
  const NotActive := AppError(ValidationError, "This event is not active")
  const PastEvent := AppError(ValidationError, "Cannot register for past events")
  const AlreadyRegistered := AppError(ConflictError, "You are already registered for this event")
  const EventFull := AppError(ValidationError, "Event is full")
  const NotRegistered := AppError(ValidationError, "You are not registered for this event")
  const NotOwnerUpdate := AppError(AuthorizationError, "You are not authorized to update this event")
  const NotOwnerDelete := AppError(AuthorizationError, "You are not authorized to delete this event")

  // ---------------------------------------------------------------------
  // Lookups.

  /** `findById` followed by the not-found check. */
  function Find(events: map<EventId, Event>, p: IdParam): (r: Result<Event>)
    ensures p.NotObjectId? ==> r == Err(InvalidObjectId)
    ensures p.ObjectId? && p.id !in events ==> r == Err(App(EventNotFound))
    ensures p.ObjectId? && p.id in events ==> r == Ok(events[p.id])
  {
    match p
    case NotObjectId => Err(InvalidObjectId)
    case ObjectId(id) => if id in events then Ok(events[id]) else Err(App(EventNotFound))
  }

  /** `participants.some(p => p.userId == uid)`. */
  predicate IsRegistered(ps: seq<Participant>, uid: UserId)
  {
    exists i | 0 <= i < |ps| :: ps[i].userId == uid
  }

  /** `participants.findIndex(p => p.userId == uid)`: the first entry of
      `uid`, or -1 when there is none. */
  function FindIndex(ps: seq<Participant>, uid: UserId): (k: int)
    ensures -1 <= k < |ps|
    ensures k == -1 <==> !IsRegistered(ps, uid)
    ensures k >= 0 ==> ps[k].userId == uid && forall i :: 0 <= i < k ==> ps[i].userId != uid
  {
    if ps == [] then -1
    else if ps[0].userId == uid then 0
    else
      var k := FindIndex(ps[1..], uid);
      if k == -1 then -1 else k + 1
  }

  /** `splice(k, 1)`: the roster without its k-th entry. */
  function RemoveAt(ps: seq<Participant>, k: nat): (r: seq<Participant>)
    requires k < |ps|
    ensures |r| == |ps| - 1
    ensures forall i :: 0 <= i < k ==> r[i] == ps[i]
    ensures forall i :: k <= i < |r| ==> r[i] == ps[i + 1]
  {
    ps[..k] + ps[k + 1..]
  }

  /** How many entries of the roster belong to `uid`. */
  function Occurrences(ps: seq<Participant>, uid: UserId): nat
  {
    if ps == [] then 0 else (if ps[0].userId == uid then 1 else 0) + Occurrences(ps[1..], uid)
  }

  // ---------------------------------------------------------------------
  // The registration engine.

  /** The capacity check: a truthy `maxParticipants` that the roster has reached. */
  predicate IsFull(e: Event)
  {
    Capped(e) && |e.participants| >= e.maxParticipants.value
  }

  /** The checks register makes on a loaded event, failing at the first one
      violated: not active, then already past (the event's date against the
      current instant), then already registered, then full. */
  function RegisterCheck(e: Event, caller: UserId, now: int): Option<AppError>
  {
    if !e.isActive then Some(NotActive)
    else if e.date < now then Some(PastEvent)
    else if IsRegistered(e.participants, caller) then Some(AlreadyRegistered)
    else if IsFull(e) then Some(EventFull)
    else None
  }

  /** The saved document after a successful register: one entry for the
      caller, stamped with the current instant, appended to the roster. */
  function Enroll(e: Event, caller: UserId, now: int): Event
  {
    e.(participants := e.participants + [Participant(caller, now)], updatedAt := now)
  }

  /** The saved document after a successful unregister. */
  function Withdraw(e: Event, k: nat, now: int): Event
    requires k < |e.participants|
  {
    e.(participants := RemoveAt(e.participants, k), updatedAt := now)
  }

  function RegisterOutcome(events: map<EventId, Event>, caller: UserId, p: IdParam, now: int): Result<Event>
  {
    match Find(events, p)
    case Err(f) => Err(f)
    case Ok(e) =>
      var check := RegisterCheck(e, caller, now);
      if check.Some? then Err(App(check.value)) else Ok(Enroll(e, caller, now))
  }

  function UnregisterOutcome(events: map<EventId, Event>, caller: UserId, p: IdParam, now: int): Result<Event>
  {
    match Find(events, p)
    case Err(f) => Err(f)
    case Ok(e) =>
      var k := FindIndex(e.participants, caller);
      if k == -1 then Err(App(NotRegistered)) else Ok(Withdraw(e, k, now))
  }

  // ---------------------------------------------------------------------
  // The lifecycle.

  /** A text field after a patch: the trimmed new value when the body carries one. */
  function PatchText(v: Option<string>, current: string): string
  {
    if v.Some? then Trim(v.value) else current
  }

  /** The document an update body produces: the body is applied as it is,
      field by field, including `organizerId` and `participants` when it
      carries them; text fields are stored trimmed. */
  function ApplyPatch(e: Event, b: EventBody, now: int): (r: Event)
    requires b.date.Some? ==> b.date.value.Iso?
    requires b.maxParticipants.Some? ==> b.maxParticipants.value.Whole?
    requires b.isActive.Some? ==> b.isActive.value.Flag?
    ensures r.id == e.id && r.createdAt == e.createdAt && r.updatedAt == now
    ensures r.title == if b.title.Some? then Trim(b.title.value) else e.title
    ensures r.description == if b.description.Some? then Trim(b.description.value) else e.description
    ensures r.date == if b.date.Some? then b.date.value.ms else e.date
    ensures r.time == if b.time.Some? then Trim(b.time.value) else e.time
    ensures r.location == if b.location.Some? then Trim(b.location.value) else e.location
    ensures r.organizerId == if b.organizerId.Some? then b.organizerId.value else e.organizerId
    ensures r.participants ==
              if b.participants.Some? then ToParticipants(b.participants.value, now) else e.participants
    ensures r.maxParticipants == if b.maxParticipants.Some? then Some(b.maxParticipants.value.n) else e.maxParticipants
    ensures r.isActive == if b.isActive.Some? then b.isActive.value.b else e.isActive
  {
    Event(e.id, PatchText(b.title, e.title), PatchText(b.description, e.description),
          if b.date.Some? then b.date.value.ms else e.date,
          PatchText(b.time, e.time), PatchText(b.location, e.location),
          if b.organizerId.Some? then b.organizerId.value else e.organizerId,
          if b.participants.Some? then ToParticipants(b.participants.value, now) else e.participants,
          if b.maxParticipants.Some? then Some(b.maxParticipants.value.n) else e.maxParticipants,
          if b.isActive.Some? then b.isActive.value.b else e.isActive,
          e.createdAt, now)
  }

  /** Roster entries sent in a body, with the `registeredAt` default applied. */
  function ToParticipants(ins: seq<ParticipantInput>, now: int): (ps: seq<Participant>)
    ensures |ps| == |ins|
    ensures forall i :: 0 <= i < |ins| ==> ps[i] == NewParticipant(ins[i].userId, ins[i].registeredAt, now)
  {
    if ins == [] then []
    else [NewParticipant(ins[0].userId, ins[0].registeredAt, now)] + ToParticipants(ins[1..], now)
  }

  /** A body whose `date`, `maxParticipants` and `isActive`, when present,
      are of the form the schema casts: what the update chain lets through. */
  predicate Castable(b: EventBody)
  {
    && (b.date.Some? ==> b.date.value.Iso?)
    && (b.maxParticipants.Some? ==> b.maxParticipants.value.Whole?)
    && (b.isActive.Some? ==> b.isActive.value.Flag?)
  }

  /** A body carrying every field a new document needs, in castable form:
      what the create chain lets through. */
  predicate Complete(b: EventBody)
  {
    && b.title.Some? && b.description.Some? && b.date.Some? && b.date.value.Iso?
    && b.time.Some? && b.location.Some?
    && (b.maxParticipants.Some? ==> b.maxParticipants.value.Whole?)
  }

  /** The document `Event.create` builds from a complete body for
      `organizer`: the sanitized (trimmed) title, description and location
      go through the schema's trim setter once more, the trimmed time is
      kept as it is, and `isActive`, `participants` and the timestamps take
      their defaults. A create body's `isActive`, `organizerId` and
      `participants` are not used. */
  function Created(id: EventId, b: EventBody, organizer: UserId, now: int): (e: Event)
    requires Complete(b)
    ensures e.id == id && e.organizerId == organizer
    ensures e.participants == [] && e.isActive && e.createdAt == now && e.updatedAt == now
    ensures e.title == Trim(b.title.value) && e.description == Trim(b.description.value)
    ensures e.time == Trim(b.time.value) && e.location == Trim(b.location.value)
    ensures e.date == b.date.value.ms
    ensures e.maxParticipants == if b.maxParticipants.Some? then Some(b.maxParticipants.value.n) else None
    ensures Trimmed(e.title) && Trimmed(e.description) && Trimmed(e.location)
  {
    TrimIdempotent(b.title.value);
    TrimIdempotent(b.description.value);
    TrimIdempotent(b.location.value);
    NewEvent(id, Trim(b.title.value), Trim(b.description.value), b.date.value.ms, Trim(b.time.value),
             Trim(b.location.value),
             if b.maxParticipants.Some? then Some(b.maxParticipants.value.n) else None,
             organizer, now)
  }

  /** Create: the create chain's first message; otherwise the schema's
      verdict on the new document with id `id`. */
  function CreateOutcome(id: EventId, caller: UserId, b: EventBody, startOfToday: int, now: int): Result<Event>
  {
    var v := CreateEventErrors(b, startOfToday);
    if v.Some? then Err(App(AppError(ValidationError, v.value)))
    else
      CreateChainCompletes(b, startOfToday);
      var e := Created(id, b, caller, now);
      var errs := SchemaErrors(e);
      if errs != [] then Err(SchemaInvalid(errs)) else Ok(e)
  }

  /** The schema validators an update runs (`runValidators`): those of the
      paths the body sets, in the schema's order, on the updated values. */
  function PatchErrors(b: EventBody, e: Event): seq<string>
  {
    (if b.title.Some? then TitleErrors(e.title) else [])
      + (if b.description.Some? then DescriptionErrors(e.description) else [])
      + (if b.time.Some? then TimeErrors(e.time) else [])
      + (if b.location.Some? then LocationErrors(e.location) else [])
      + (if b.maxParticipants.Some? then MaxParticipantsErrors(e.maxParticipants) else [])
  }

  /** Update: validation first, then existence, then ownership, then the
      update validators on the patched document. */
  function UpdateOutcome(events: map<EventId, Event>, caller: UserId, p: IdParam, b: EventBody,
                         startOfToday: int, now: int): Result<Event>
  {
    var v := UpdateEventErrors(b, startOfToday);
    if v.Some? then Err(App(AppError(ValidationError, v.value)))
    else match Find(events, p)
      case Err(f) => Err(f)
      case Ok(e) =>
        if e.organizerId != caller then Err(App(NotOwnerUpdate))
        else
          UpdateChainCastable(b, startOfToday);
          var patched := ApplyPatch(e, b, now);
          var errs := PatchErrors(b, patched);
          if errs != [] then Err(SchemaInvalid(errs)) else Ok(patched)
  }

  /** Delete: existence, then ownership; the result is the removed id. */
  function DeleteOutcome(events: map<EventId, Event>, caller: UserId, p: IdParam): Result<EventId>
  {
    match Find(events, p)
    case Err(f) => Err(f)
    case Ok(e) => if e.organizerId != caller then Err(App(NotOwnerDelete)) else Ok(e.id)
  }

  lemma CreateChainCompletes(b: EventBody, startOfToday: int)
    requires CreateEventErrors(b, startOfToday).None?
    ensures Complete(b)
  {
  }

  lemma UpdateChainCastable(b: EventBody, startOfToday: int)
    requires UpdateEventErrors(b, startOfToday).None?
    ensures Castable(b)
  {
  }

  // ---------------------------------------------------------------------
  // The store.

  class EventStore {
    /** The events collection, by id. */
    var events: map<EventId, Event>
    /** The next id the store hands out; ids only grow. */
    var nextId: EventId

    /** Every document is stored under its own id, below the next id, and
        meets the schema. */
    ghost predicate Valid()
      reads this
    {
      forall id :: id in events ==> events[id].id == id && id < nextId && SchemaValid(events[id])
    }

    constructor ()
      ensures Valid() && events == map[]
    {
      events := map[];
      nextId := 0;
    }

    /** Stores a new document under the next id. */
    method Insert(e: Event)
      requires Valid() && e.id == nextId && SchemaValid(e)
      modifies this
      ensures Valid()
      ensures e.id !in old(events)
      ensures events == old(events)[e.id := e] && nextId == old(nextId) + 1
    {
      events := events[e.id := e];
      nextId := nextId + 1;
    }

    /** Saves a changed copy of a stored document. */
    method Put(e: Event)
      requires Valid() && e.id in events && SchemaValid(e)
      modifies this
      ensures Valid()
      ensures events == old(events)[e.id := e] && nextId == old(nextId)
    {
      events := events[e.id := e];
    }

    /** getEventById. */
    method GetEventById(p: IdParam) returns (r: Result<Event>)
      requires Valid()
      ensures r == Find(events, p)
      ensures r.Ok? ==> r.value.id == p.id && SchemaValid(r.value)
    {
      if p.NotObjectId? {
        return Err(InvalidObjectId);
      }
      if p.id !in events {
        return Err(App(EventNotFound));
      }
      r := Ok(events[p.id]);
    }

    /** createEvent: the validation result, then `Event.create` with the
        caller as organizer. */
    method CreateEvent(caller: Principal, b: EventBody, startOfToday: int, now: int) returns (r: Result<Event>)
      requires Valid()
      modifies this
      ensures Valid()
      ensures r == CreateOutcome(old(nextId), caller.id, b, startOfToday, now)
      ensures r.Ok? ==> r.value.id !in old(events) && nextId == old(nextId) + 1
      ensures r.Err? ==> nextId == old(nextId)
      ensures events == if r.Ok? then old(events)[r.value.id := r.value] else old(events)
    {
      var v := CreateEventErrors(b, startOfToday);
      if v.Some? {
        return Err(App(AppError(ValidationError, v.value)));
      }
      CreateChainCompletes(b, startOfToday);
      var event := Created(nextId, b, caller.id, now);
      var errs := SchemaErrors(event);
      if errs != [] {
        return Err(SchemaInvalid(errs));
      }
      Insert(event);
      r := Ok(event);
    }

    /** updateEvent. */
    method UpdateEvent(caller: Principal, p: IdParam, b: EventBody, startOfToday: int, now: int)
      returns (r: Result<Event>)
      requires Valid()
      modifies this
      ensures Valid() && nextId == old(nextId)
      ensures r == UpdateOutcome(old(events), caller.id, p, b, startOfToday, now)
      ensures events == if r.Ok? then old(events)[r.value.id := r.value] else old(events)
    {
      var v := UpdateEventErrors(b, startOfToday);
      if v.Some? {
        return Err(App(AppError(ValidationError, v.value)));
      }
      var found := Find(events, p);
      if found.Err? {
        return Err(found.failure);
      }
      var event := found.value;
      if event.organizerId != caller.id {
        return Err(App(NotOwnerUpdate));
      }
      UpdateChainCastable(b, startOfToday);
      var updated := ApplyPatch(event, b, now);
      var errs := PatchErrors(b, updated);
      if errs != [] {
        return Err(SchemaInvalid(errs));
      }
      PatchKeepsSchemaValid(event, b, now);
      Put(updated);
      r := Ok(updated);
    }

    /** deleteEvent. */
    method DeleteEvent(caller: Principal, p: IdParam) returns (r: Result<EventId>)
      requires Valid()
      modifies this
      ensures Valid() && nextId == old(nextId)
      ensures r == DeleteOutcome(old(events), caller.id, p)
      ensures events == if r.Ok? then old(events) - {r.value} else old(events)
    {
      var found := Find(events, p);
      if found.Err? {
        return Err(found.failure);
      }
      if found.value.organizerId != caller.id {
        return Err(App(NotOwnerDelete));
      }
      events := events - {found.value.id};
      r := Ok(found.value.id);
    }

    /** registerForEvent. */
    method Register(caller: UserId, p: IdParam, now: int) returns (r: Result<Event>)
      requires Valid()
      modifies this
      ensures Valid() && nextId == old(nextId)
      ensures r == RegisterOutcome(old(events), caller, p, now)
      ensures events == if r.Ok? then old(events)[r.value.id := r.value] else old(events)
    {
      var found := Find(events, p);
      if found.Err? {
        return Err(found.failure);
      }
      var event := found.value;
      if !event.isActive {
        return Err(App(NotActive));
      }
      if event.date < now {
        return Err(App(PastEvent));
      }
      var isAlreadyRegistered := IsRegistered(event.participants, caller);
      if isAlreadyRegistered {
        return Err(App(AlreadyRegistered));
      }
      if event.maxParticipants.Some? && event.maxParticipants.value != 0
         && |event.participants| >= event.maxParticipants.value {
        return Err(App(EventFull));
      }
      var roster := event.participants + [Participant(caller, now)];
      event := event.(participants := roster, updatedAt := now);
      Put(event);
      r := Ok(event);
    }

    /** unregisterFromEvent. */
    method Unregister(caller: UserId, p: IdParam, now: int) returns (r: Result<Event>)
      requires Valid()
      modifies this
      ensures Valid() && nextId == old(nextId)
      ensures r == UnregisterOutcome(old(events), caller, p, now)
      ensures events == if r.Ok? then old(events)[r.value.id := r.value] else old(events)
    {
      var found := Find(events, p);
      if found.Err? {
        return Err(found.failure);
      }
      var event := found.value;
      var participantIndex := FindIndex(event.participants, caller);
      if participantIndex == -1 {
        return Err(App(NotRegistered));
      }
      var roster := event.participants[..participantIndex] + event.participants[participantIndex + 1..];
      event := event.(participants := roster, updatedAt := now);
      Put(event);
      r := Ok(event);
    }

    /** getAllEvents, without the search and date filters: the query is
        built from the parameters, then the matching documents are listed
        in date order. */
    method GetAllEvents(isActive: Option<string>) returns (r: seq<Event>)
      requires Valid()
      ensures SortedByDate(r)
      ensures forall e :: e in r <==> e in events.Values && Matches(ActiveCriterion(isActive), e)
      ensures |r| == |set id | id in events && Matches(ActiveCriterion(isActive), events[id])|
      ensures isActive.None? ==> |r| == |events|
    {
      var query := Everything;
      if isActive.Some? {
        query := ActiveIs(isActive.value == "true");
      }
      r := View(events, nextId, query);
    }

    /** getMyRegistrations: the events whose roster holds the caller. */
    method GetMyRegistrations(caller: UserId) returns (r: seq<Event>)
      requires Valid()
      ensures SortedByDate(r)
      ensures forall e :: e in r <==> e in events.Values && IsRegistered(e.participants, caller)
      ensures |r| == |set id | id in events && IsRegistered(events[id].participants, caller)|
    {
      r := View(events, nextId, RegisteredUser(caller));
      assert (set id | id in events && Matches(RegisteredUser(caller), events[id]))
          == (set id | id in events && IsRegistered(events[id].participants, caller));
    }

    /** getMyEvents: the events the caller organizes. */
    method GetMyEvents(caller: UserId) returns (r: seq<Event>)
      requires Valid()
      ensures SortedByDate(r)
      ensures forall e :: e in r <==> e in events.Values && e.organizerId == caller
      ensures |r| == |set id | id in events && events[id].organizerId == caller|
    {
      r := View(events, nextId, OrganizedBy(caller));
      assert (set id | id in events && Matches(OrganizedBy(caller), events[id]))
          == (set id | id in events && events[id].organizerId == caller);
    }
  }

  // ---------------------------------------------------------------------
  // What the lifecycle guarantees.

  /** The update validators accept what the patch leaves on the touched
      paths, and the other paths are those of a document that met the
      schema: the updated document meets it too. */
  lemma PatchKeepsSchemaValid(e: Event, b: EventBody, now: int)
    requires SchemaValid(e) && Castable(b)
    requires PatchErrors(b, ApplyPatch(e, b, now)) == []
    ensures SchemaValid(ApplyPatch(e, b, now))
  {
    if b.title.Some? { TrimIsSlice(b.title.value); }
    if b.description.Some? { TrimIsSlice(b.description.value); }
    if b.location.Some? { TrimIsSlice(b.location.value); }
  }

  /** A complete body whose trimmed fields are within the schema's bounds
      (lengths in UTF-16 code units) yields a document the schema accepts. */
  lemma CreatedMeetsSchema(id: EventId, b: EventBody, organizer: UserId, now: int)
    requires Complete(b)
    requires 3 <= JsLength(Trim(b.title.value)) <= 100 && 10 <= JsLength(Trim(b.description.value)) <= 1000
    requires Trim(b.time.value) != [] && Trim(b.location.value) != []
    requires b.maxParticipants.Some? ==> b.maxParticipants.value.n >= 1
    ensures SchemaValid(Created(id, b, organizer, now))
  {
  }

  /** A body the create chain accepts is stored exactly when its trimmed
      title and description also fit the schema's maximum lengths, which
      count UTF-16 code units where the chain counts characters; otherwise
      the schema refuses it. The chain's minimum lengths already imply the
      schema's. */
  lemma ValidatedCreateSucceeds(id: EventId, caller: UserId, b: EventBody, startOfToday: int, now: int)
    requires CreateEventErrors(b, startOfToday).None?
    ensures Complete(b)
    ensures CreateOutcome(id, caller, b, startOfToday, now).Ok? <==>
              JsLength(Trim(b.title.value)) <= 100 && JsLength(Trim(b.description.value)) <= 1000
    ensures CreateOutcome(id, caller, b, startOfToday, now).Ok? ==>
              CreateOutcome(id, caller, b, startOfToday, now) == Ok(Created(id, b, caller, now))
              && SchemaValid(Created(id, b, caller, now))
    ensures CreateOutcome(id, caller, b, startOfToday, now).Err? ==>
              CreateOutcome(id, caller, b, startOfToday, now).failure.SchemaInvalid?
  {
    CreateChainCompletes(b, startOfToday);
    if JsLength(Trim(b.title.value)) <= 100 && JsLength(Trim(b.description.value)) <= 1000 {
      CreatedMeetsSchema(id, b, caller, now);
    }
  }

  /** An update by the event's organizer with a body the update chain
      accepts succeeds exactly when the trimmed title and description it
      carries fit the schema's maximum lengths in UTF-16 code units; the
      result is then the patched document. */
  lemma ValidatedUpdateSucceeds(events: map<EventId, Event>, caller: UserId, id: EventId,
                                b: EventBody, startOfToday: int, now: int)
    requires id in events && events[id].organizerId == caller && SchemaValid(events[id])
    requires UpdateEventErrors(b, startOfToday).None?
    ensures Castable(b)
    ensures UpdateOutcome(events, caller, ObjectId(id), b, startOfToday, now).Ok? <==>
              (b.title.Some? ==> JsLength(Trim(b.title.value)) <= 100)
              && (b.description.Some? ==> JsLength(Trim(b.description.value)) <= 1000)
    ensures UpdateOutcome(events, caller, ObjectId(id), b, startOfToday, now).Ok? ==>
              UpdateOutcome(events, caller, ObjectId(id), b, startOfToday, now) == Ok(ApplyPatch(events[id], b, now))
  {
    UpdateChainCastable(b, startOfToday);
    var r := ApplyPatch(events[id], b, now);
    if (b.title.Some? ==> JsLength(Trim(b.title.value)) <= 100)
       && (b.description.Some? ==> JsLength(Trim(b.description.value)) <= 1000) {
      assert PatchErrors(b, r) == [];
    } else if b.title.Some? && JsLength(Trim(b.title.value)) > 100 {
      assert TitleErrors(r.title) != [];
      assert PatchErrors(b, r) != [];
    } else {
      assert DescriptionErrors(r.description) != [];
      assert PatchErrors(b, r) != [];
    }
  }

  /** The create chain and the schema measure length differently: a title
      of 51 astral characters is 51 characters long for the chain but 102
      UTF-16 code units for the schema, which refuses it. */
  lemma AstralTitleRefusedBySchema()
    ensures var t := seq(51, _ => '\U{1F600}');
            && CreateTitleError(Some(t)).None?
            && TitleErrors(Trim(t)) == ["Title cannot exceed 100 characters"]
  {
    var t := seq(51, _ => '\U{1F600}');
    assert forall i :: 0 <= i < |t| ==> IsAstral(t[i]) && !IsVariationSelector(t[i]);
    assert VisibleLength(t) == 51 && JsLength(t) == 102;
    TrimmedFixed(t);
  }

  /** An update that sets neither the roster nor the cap keeps both roster
      invariants. */
  lemma UpdateKeepsRosterInvariant(e: Event, b: EventBody, now: int)
    requires Castable(b) && RosterInvariant(e)
    requires b.participants.None? && b.maxParticipants.None?
    ensures RosterInvariant(ApplyPatch(e, b, now))
  {
  }

  /** The update body is applied as it is: an organizer can hand the event
      to another user by sending `organizerId`, after which the first
      organizer can no longer update it. */
  lemma UpdateCanTransferOwnership(events: map<EventId, Event>, id: EventId, owner: UserId,
                                                      other: UserId, startOfToday: int, now: int)
    requires id in events && events[id].organizerId == owner && SchemaValid(events[id]) && other != owner
    ensures var r := UpdateOutcome(events, owner, ObjectId(id), EmptyBody.(organizerId := Some(other)), startOfToday, now);
            && r.Ok? && r.value.organizerId == other
            && UpdateOutcome(events[id := r.value], owner, ObjectId(id), EmptyBody, startOfToday, now)
                 == Err(App(NotOwnerUpdate))
  {
    var b := EmptyBody.(organizerId := Some(other));
    EmptyUpdatePasses(startOfToday, Some(other), None);
    EmptyUpdatePasses(startOfToday, None, None);
    ValidatedUpdateSucceeds(events, owner, id, b, startOfToday, now);
  }

  /** The update path does not check the roster against a new cap: an update
      can lower `maxParticipants` below the number already registered. */
  lemma UpdateCanOverfill()
    ensures var e := Event(0, "Meetup", "Monthly meetup", 0, "10:00", "Hall", 1,
                           [Participant(2, 0), Participant(3, 0)], None, true, 0, 0);
            var b := EmptyBody.(maxParticipants := Some(Whole(1)));
            var r := UpdateOutcome(map[0 := e], 1, ObjectId(0), b, 0, 0);
            && RosterInvariant(e) && r.Ok? && !WithinCapacity(r.value)
  {
    var e := Event(0, "Meetup", "Monthly meetup", 0, "10:00", "Hall", 1,
                   [Participant(2, 0), Participant(3, 0)], None, true, 0, 0);
    var b := EmptyBody.(maxParticipants := Some(Whole(1)));
    assert UpdateEventErrors(b, 0).None?;
    assert ApplyPatch(e, b, 0).maxParticipants == Some(1);
  }

  /** Update and delete check in a fixed order: a body the update chain
      refuses is reported before any lookup, then a missing event, then a
      caller who is not its organizer. */
  lemma UpdateDeleteOrder(events: map<EventId, Event>, caller: UserId, p: IdParam, b: EventBody,
                          startOfToday: int, now: int)
    ensures UpdateEventErrors(b, startOfToday).Some? ==>
              UpdateOutcome(events, caller, p, b, startOfToday, now)
                == Err(App(AppError(ValidationError, UpdateEventErrors(b, startOfToday).value)))
    ensures UpdateEventErrors(b, startOfToday).None? && p.ObjectId? && p.id !in events ==>
              UpdateOutcome(events, caller, p, b, startOfToday, now) == Err(App(EventNotFound))
    ensures UpdateEventErrors(b, startOfToday).None? && p.ObjectId? && p.id in events
              && events[p.id].organizerId != caller ==>
              UpdateOutcome(events, caller, p, b, startOfToday, now) == Err(App(NotOwnerUpdate))
    ensures p.ObjectId? && p.id !in events ==> DeleteOutcome(events, caller, p) == Err(App(EventNotFound))
    ensures p.ObjectId? && p.id in events ==>
              (DeleteOutcome(events, caller, p).Ok? <==> events[p.id].organizerId == caller)
    ensures p.ObjectId? && p.id in events && events[p.id].organizerId != caller ==>
              DeleteOutcome(events, caller, p) == Err(App(NotOwnerDelete))
  {
  }

  /** After a delete the id is not found, and every other event is untouched. */
  lemma DeleteRemovesOnlyTarget(events: map<EventId, Event>, caller: UserId, p: IdParam)
    requires DeleteOutcome(events, caller, p).Ok?
    ensures var id := DeleteOutcome(events, caller, p).value;
            && Find(events - {id}, ObjectId(id)) == Err(App(EventNotFound))
            && forall k :: k in events && k != id ==> k in events - {id} && (events - {id})[k] == events[k]
  {
  }

  // ---------------------------------------------------------------------
  // What the registration engine guarantees.

  lemma {:induction false} OccurrencesPositiveIff(ps: seq<Participant>, uid: UserId)
    ensures Occurrences(ps, uid) > 0 <==> IsRegistered(ps, uid)
  {
    if ps != [] {
      OccurrencesPositiveIff(ps[1..], uid);
      if IsRegistered(ps[1..], uid) {
        var i :| 0 <= i < |ps[1..]| && ps[1..][i].userId == uid;
        assert ps[i + 1].userId == uid;
      }
      if IsRegistered(ps, uid) && ps[0].userId != uid {
        var i :| 0 <= i < |ps| && ps[i].userId == uid;
        assert ps[1..][i - 1].userId == uid;
      }
    }
  }

  lemma {:induction false} OccurrencesAppend(ps: seq<Participant>, qs: seq<Participant>, uid: UserId)
    ensures Occurrences(ps + qs, uid) == Occurrences(ps, uid) + Occurrences(qs, uid)
  {
    if ps != [] {
      assert (ps + qs)[1..] == ps[1..] + qs;
      OccurrencesAppend(ps[1..], qs, uid);
    } else {
      assert ps + qs == qs;
    }
  }

  /** A successful register adds exactly one entry, the caller's, at the end
      of the roster, and keeps both roster invariants: no user twice, and no
      more entries than a truthy cap allows. */
  lemma RegisterKeepsRosterInvariant(e: Event, caller: UserId, now: int)
    requires RosterInvariant(e) && RegisterCheck(e, caller, now).None?
    ensures Enroll(e, caller, now).participants == e.participants + [Participant(caller, now)]
    ensures RosterInvariant(Enroll(e, caller, now))
  {
    var ps := e.participants + [Participant(caller, now)];
    forall i, j | 0 <= i < j < |ps|
      ensures ps[i].userId != ps[j].userId
    {
      if j == |ps| - 1 {
        assert e.participants[i].userId != caller;
      }
    }
  }

  /** Unregister reports a missing event, then a caller who is not on the
      roster; otherwise it takes out the caller's first entry, and only it:
      the entries before it and after it stay, in their order. */
  lemma UnregisterOutcomeCases(events: map<EventId, Event>, caller: UserId, id: EventId, now: int)
    ensures id !in events ==> UnregisterOutcome(events, caller, ObjectId(id), now) == Err(App(EventNotFound))
    ensures id in events && !IsRegistered(events[id].participants, caller) ==>
              UnregisterOutcome(events, caller, ObjectId(id), now) == Err(App(NotRegistered))
    ensures id in events && IsRegistered(events[id].participants, caller) ==>
              var ps := events[id].participants;
              var r := UnregisterOutcome(events, caller, ObjectId(id), now);
              exists k :: 0 <= k < |ps| && ps[k].userId == caller
                && (forall i :: 0 <= i < k ==> ps[i].userId != caller)
                && r == Ok(events[id].(participants := ps[..k] + ps[k + 1..], updatedAt := now))
  {
    if id in events && IsRegistered(events[id].participants, caller) {
      var k := FindIndex(events[id].participants, caller);
      assert k >= 0;
    }
  }

  /** Registering the same caller twice in a row: the second attempt is a conflict. */
  lemma RegisterTwiceConflicts(e: Event, caller: UserId, now: int)
    requires RegisterCheck(e, caller, now).None?
    ensures RegisterCheck(Enroll(e, caller, now), caller, now) == Some(AlreadyRegistered)
  {
    var ps := Enroll(e, caller, now).participants;
    assert ps[|ps| - 1].userId == caller;
  }

  /** In a roster with no user twice, unregister removes the caller's entry
      and nothing else: the others keep their order and the caller is absent. */
  lemma UnregisterRemovesCaller(e: Event, caller: UserId, now: int)
    requires NoDuplicateUsers(e.participants) && IsRegistered(e.participants, caller)
    ensures FindIndex(e.participants, caller) >= 0
    ensures var k := FindIndex(e.participants, caller);
            var after := Withdraw(e, k, now).participants;
            && after == e.participants[..k] + e.participants[k + 1..]
            && !IsRegistered(after, caller)
            && Occurrences(after, caller) == 0
            && NoDuplicateUsers(after)
  {
    var ps := e.participants;
    var k := FindIndex(ps, caller);
    var after := RemoveAt(ps, k);
    OccurrencesPositiveIff(after, caller);
    forall i, j | 0 <= i < j < |after|
      ensures after[i].userId != after[j].userId
    {
      var i' := if i < k then i else i + 1;
      var j' := if j < k then j else j + 1;
      assert after[i] == ps[i'] && after[j] == ps[j'];
    }
  }

  /** Unregistering and registering again, on an active event that has not
      started and whose roster keeps both invariants, succeeds and leaves the
      caller registered exactly once. */
  lemma UnregisterThenRegister(e: Event, caller: UserId, now: int)
    requires RosterInvariant(e) && IsRegistered(e.participants, caller)
    requires e.isActive && e.date >= now
    ensures FindIndex(e.participants, caller) >= 0
    ensures var w := Withdraw(e, FindIndex(e.participants, caller), now);
            && RegisterCheck(w, caller, now).None?
            && Occurrences(Enroll(w, caller, now).participants, caller) == 1
  {
    UnregisterRemovesCaller(e, caller, now);
    var w := Withdraw(e, FindIndex(e.participants, caller), now);
    assert |w.participants| < |e.participants|;
    OccurrencesAppend(w.participants, [Participant(caller, now)], caller);
    assert Occurrences([Participant(caller, now)], caller) == 1;
  }

  /** Register's checks come in a fixed order: an inactive event is refused
      as such whatever its date and roster, and a past event is refused as
      past even when the caller is already on it or it is full. */
  lemma RegisterCheckOrder(e: Event, caller: UserId, now: int)
    ensures !e.isActive ==> RegisterCheck(e, caller, now) == Some(NotActive)
    ensures e.isActive && e.date < now ==> RegisterCheck(e, caller, now) == Some(PastEvent)
    ensures e.isActive && e.date >= now && IsRegistered(e.participants, caller) ==>
              RegisterCheck(e, caller, now) == Some(AlreadyRegistered)
    ensures e.isActive && e.date >= now && !IsRegistered(e.participants, caller) ==>
              (RegisterCheck(e, caller, now).None? <==> !IsFull(e))
  {
  }

  /** An event dated today passes the create chain's date rule (which
      compares with the start of the day) but, once the current instant is
      past its date, register refuses it as a past event. */
  lemma TodayIsCreatableButClosed(e: Event, caller: UserId, startOfToday: int, now: int)
    requires e.isActive && e.date == startOfToday && startOfToday < now
    ensures CreateDateError(Some(Iso(e.date)), startOfToday).None?
    ensures RegisterCheck(e, caller, now) == Some(PastEvent)
  {
  }

  // Registrations one after another.

  /** Attempts to register each user in turn, keeping the result of each
      success; the count is how many succeeded. */
  function RegisterAll(e: Event, users: seq<UserId>, now: int): (Event, nat)
    decreases |users|
  {
    if users == [] then (e, 0)
    else
      var (e1, n1) := if RegisterCheck(e, users[0], now).None? then (Enroll(e, users[0], now), 1) else (e, 0);
      var (e2, n2) := RegisterAll(e1, users[1..], now);
      (e2, n1 + n2)
  }

  predicate Distinct(users: seq<UserId>)
  {
    forall i, j :: 0 <= i < j < |users| ==> users[i] != users[j]
  }

  /** The capacity rule, one registration at a time: with a truthy cap `m`,
      distinct newcomers on an active event that has not started, exactly
      min(N, m - roster) of them get in, however many ask; without a cap
      all of them do. */
  lemma {:induction false} RegisterAllFills(e: Event, users: seq<UserId>, now: int)
    requires e.isActive && e.date >= now && WithinCapacity(e)
    requires Distinct(users)
    requires forall u :: u in users ==> !IsRegistered(e.participants, u)
    decreases |users|
    ensures var (final, n) := RegisterAll(e, users, now);
            && n == (if Capped(e) then Min(|users|, e.maxParticipants.value - |e.participants|) else |users|)
            && |final.participants| == |e.participants| + n
            && final.maxParticipants == e.maxParticipants && final.isActive && final.date == e.date
  {
    if users != [] {
      var u := users[0];
      var rest := users[1..];
      assert forall i, j :: 0 <= i < j < |rest| ==> rest[i] == users[i + 1] && rest[j] == users[j + 1];
      if RegisterCheck(e, u, now).None? {
        var e1 := Enroll(e, u, now);
        forall v | v in rest
          ensures !IsRegistered(e1.participants, v)
        {
          var vi :| 0 <= vi < |rest| && rest[vi] == v;
          assert users[vi + 1] == v && v in users && v != u;
        }
        RegisterAllFills(e1, rest, now);
      } else {
        assert IsFull(e);
        forall v | v in rest
          ensures !IsRegistered(e.participants, v)
        {
          var vi :| 0 <= vi < |rest| && rest[vi] == v;
          assert users[vi + 1] == v;
        }
        RegisterAllFills(e, rest, now);
      }
    }
  }

  function Min(a: int, b: int): int
  {
    if a <= b then a else b
  }

  // ---------------------------------------------------------------------
  // The query views: a filter over the stored documents, sorted by date.

  /** The filters the query views use. */
  datatype Criterion =
    | Everything
    | ActiveIs(active: bool)
    | RegisteredUser(user: UserId)
    | OrganizedBy(organizer: UserId)

  predicate Matches(c: Criterion, e: Event)
  {
    match c
    case Everything => true
    case ActiveIs(b) => e.isActive == b
    case RegisteredUser(u) => IsRegistered(e.participants, u)
    case OrganizedBy(u) => e.organizerId == u
  }

  /** The list query's `isActive` parameter: absent means no filter; any
      value other than the text "true" selects the inactive events. */
  function ActiveCriterion(isActive: Option<string>): (c: Criterion)
    ensures isActive.None? <==> c == Everything
    ensures isActive == Some("true") ==> c == ActiveIs(true)
    ensures isActive.Some? && isActive.value != "true" ==> c == ActiveIs(false)
  {
    if isActive.Some? then ActiveIs(isActive.value == "true") else Everything
  }

  /** The documents with ids below `n`, in id order. */
  function Documents(events: map<EventId, Event>, n: nat): (r: seq<Event>)
    ensures forall e :: e in r ==> e in events.Values
    ensures forall id :: id in events && id < n ==> events[id] in r
    ensures |r| == |set id | id in events && id < n|
  {
    if n == 0 then
      assert (set id | id in events && id < n) == {};
      []
    else
      var r := Documents(events, n - 1);
      var below := set id | id in events && id < n - 1;
      if n - 1 in events then
        assert (set id | id in events && id < n) == below + {n - 1};
        r + [events[n - 1]]
      else
        assert (set id | id in events && id < n) == below;
        r
  }

  /** The documents that satisfy a criterion, in the order given. */
  function Select(es: seq<Event>, c: Criterion): (r: seq<Event>)
    ensures forall e :: e in r <==> e in es && Matches(c, e)
    ensures |r| <= |es|
    ensures c == Everything ==> r == es
  {
    if es == [] then []
    else (if Matches(c, es[0]) then [es[0]] else []) + Select(es[1..], c)
  }

  /** The filter keeps each matching document as often as it occurs, and
      no other. */
  lemma {:induction false} SelectMultiplicity(es: seq<Event>, c: Criterion, e: Event)
    ensures multiset(Select(es, c))[e] == if Matches(c, e) then multiset(es)[e] else 0
  {
    if es != [] {
      SelectMultiplicity(es[1..], c, e);
      assert es == [es[0]] + es[1..];
    }
  }

  /** Filtering a sequence extended by one document extends the filtered
      sequence by that document when it matches. */
  lemma {:induction false} SelectSnoc(es: seq<Event>, x: Event, c: Criterion)
    ensures Select(es + [x], c) == Select(es, c) + (if Matches(c, x) then [x] else [])
  {
    if es == [] {
      assert es + [x] == [x] && [x][1..] == [];
    } else {
      assert (es + [x])[0] == es[0];
      assert (es + [x])[1..] == es[1..] + [x];
      SelectSnoc(es[1..], x, c);
    }
  }

  /** The ids below `n` whose documents satisfy a criterion. */
  function MatchingIds(events: map<EventId, Event>, n: nat, c: Criterion): set<EventId>
  {
    set id | id in events && id < n && Matches(c, events[id])
  }

  lemma MatchingIdsStep(events: map<EventId, Event>, n: nat, c: Criterion)
    requires n > 0
    ensures MatchingIds(events, n, c)
              == MatchingIds(events, n - 1, c) + (if n - 1 in events && Matches(c, events[n - 1]) then {n - 1} else {})
  {
  }

  /** How many ids below `n` hold a document that satisfies a criterion. */
  function MatchCount(events: map<EventId, Event>, n: nat, c: Criterion): nat
  {
    if n == 0 then 0
    else MatchCount(events, n - 1, c) + (if n - 1 in events && Matches(c, events[n - 1]) then 1 else 0)
  }

  /** The filtered documents are as many as the matching ids below `n`. */
  lemma {:induction false} SelectedLength(events: map<EventId, Event>, n: nat, c: Criterion)
    ensures |Select(Documents(events, n), c)| == MatchCount(events, n, c)
  {
    if n > 0 {
      SelectedLength(events, n - 1, c);
      if n - 1 in events {
        SelectSnoc(Documents(events, n - 1), events[n - 1], c);
      }
    }
  }

  /** The count of matching ids is the size of the set of them. */
  lemma {:induction false} MatchCountIsSize(events: map<EventId, Event>, n: nat, c: Criterion)
    ensures MatchCount(events, n, c) == |MatchingIds(events, n, c)|
  {
    if n == 0 {
      assert MatchingIds(events, n, c) == {};
    } else {
      MatchCountIsSize(events, n - 1, c);
      MatchingIdsStep(events, n, c);
      assert n - 1 !in MatchingIds(events, n - 1, c);
    }
  }

  /** The stored documents with ids below `n` that satisfy a criterion are
      listed once each: as many as there are such ids. */
  lemma SelectedCount(events: map<EventId, Event>, n: nat, c: Criterion)
    ensures |Select(Documents(events, n), c)| == |MatchingIds(events, n, c)|
  {
    SelectedLength(events, n, c);
    MatchCountIsSize(events, n, c);
  }

  predicate SortedByDate(es: seq<Event>)
  {
    forall i, j :: 0 <= i < j < |es| ==> es[i].date <= es[j].date
  }

  /** Places `e` into a date-sorted sequence, after the entries of the same date. */
  function InsertByDate(e: Event, es: seq<Event>): (r: seq<Event>)
    ensures multiset(r) == multiset(es) + multiset{e}
  {
    if es == [] then [e]
    else if e.date < es[0].date then [e] + es
    else
      assert es == [es[0]] + es[1..];
      [es[0]] + InsertByDate(e, es[1..])
  }

  /** Inserting into a date-sorted sequence keeps it sorted. */
  lemma {:induction false} InsertByDateSorted(e: Event, es: seq<Event>)
    requires SortedByDate(es)
    ensures SortedByDate(InsertByDate(e, es))
  {
    if es != [] && e.date >= es[0].date {
      var rest := InsertByDate(e, es[1..]);
      InsertByDateSorted(e, es[1..]);
      forall x | x in rest
        ensures es[0].date <= x.date
      {
        assert x in multiset(rest);
        if x != e {
          assert x in es[1..];
        }
      }
    }
  }

  /** `sort({ date: 1 })`: a permutation of its input in ascending date order. */
  function SortByDate(es: seq<Event>): (r: seq<Event>)
    ensures SortedByDate(r) && multiset(r) == multiset(es)
  {
    if es == [] then []
    else
      assert es == [es[0]] + es[1..];
      var rest := SortByDate(es[1..]);
      InsertByDateSorted(es[0], rest);
      InsertByDate(es[0], rest)
  }

  /** A query view lists, in date order, exactly the stored documents that
      satisfy its criterion, one entry per stored id. */
  function View(events: map<EventId, Event>, n: nat, c: Criterion): (r: seq<Event>)
    requires forall id :: id in events ==> id < n
    ensures SortedByDate(r)
    ensures forall e :: e in r <==> e in events.Values && Matches(c, e)
    ensures |r| == |set id | id in events && Matches(c, events[id])|
    ensures c == Everything ==> |r| == |events|
  {
    ListingFacts(events, n, c);
    SortByDate(Select(Documents(events, n), c))
  }

  /** A sorted view has one entry per stored id whose document matches. */
  lemma ListingCount(events: map<EventId, Event>, n: nat, c: Criterion)
    requires forall id :: id in events ==> id < n
    ensures |SortByDate(Select(Documents(events, n), c))| == |set id | id in events && Matches(c, events[id])|
  {
    var selected := Select(Documents(events, n), c);
    SelectedCount(events, n, c);
    assert MatchingIds(events, n, c) == (set id | id in events && Matches(c, events[id]));
    assert |SortByDate(selected)| == |multiset(SortByDate(selected))| == |multiset(selected)|;
  }

  lemma ListingFacts(events: map<EventId, Event>, n: nat, c: Criterion)
    requires forall id :: id in events ==> id < n
    ensures var r := SortByDate(Select(Documents(events, n), c));
            && (forall e :: e in r <==> e in events.Values && Matches(c, e))
            && |r| == |set id | id in events && Matches(c, events[id])|
            && (c == Everything ==> |r| == |events|)
  {
    var docs := Documents(events, n);
    var r := SortByDate(Select(docs, c));
    ListingCount(events, n, c);
    forall e | e in events.Values && Matches(c, e)
      ensures e in r
    {
      var id :| id in events && events[id] == e;
      assert e in docs;
      assert e in Select(docs, c);
      assert e in multiset(Select(docs, c));
    }
    forall e | e in r
      ensures e in events.Values && Matches(c, e)
    {
      assert e in multiset(r);
    }
    if c == Everything {
      assert (set id | id in events && id < n) == events.Keys;
      assert |r| == |multiset(r)| == |multiset(docs)|;
    }
  }

  /** The list view filtered by `isActive` returns, for the text "true",
      the active events, and for any other text the inactive ones. */
  lemma ActiveFilterSelects(events: map<EventId, Event>, n: nat, text: string, e: Event)
    requires forall id :: id in events ==> id < n
    requires e in events.Values
    ensures e in View(events, n, ActiveCriterion(Some(text))) <==> (e.isActive <==> text == "true")
  {
  }
}
