/** The event document: its fields, the defaults the schema fills in, and
    the constraints the schema validates (models/Event.ts). */
module EventModel {
  import opened Common
  import opened JsText

  /** One roster entry: who registered and when. */
  datatype Participant = Participant(userId: UserId, registeredAt: int)

  /** An event document. `date`, `registeredAt`, `createdAt` and `updatedAt`
      are instants in milliseconds since the epoch. */
  datatype Event = Event(
    id: EventId,
    title: string,
    description: string,
    date: int,
    time: string,
    location: string,
    organizerId: UserId,
    participants: seq<Participant>,
    maxParticipants: Option<int>,
    isActive: bool,
    createdAt: int,
    updatedAt: int)

  // Schema validator messages, one list per path, in the order the schema declares them.

  function TitleErrors(title: string): seq<string>
  {
    if title == [] then ["Please provide an event title"]
    else if JsLength(title) < 3 then ["Title must be at least 3 characters long"]
    else if JsLength(title) > 100 then ["Title cannot exceed 100 characters"]
    else []
  }

  function DescriptionErrors(description: string): seq<string>
  {
    if description == [] then ["Please provide an event description"]
    else if JsLength(description) < 10 then ["Description must be at least 10 characters long"]
    else if JsLength(description) > 1000 then ["Description cannot exceed 1000 characters"]
    else []
  }

  function TimeErrors(time: string): seq<string>
  {
    if time == [] then ["Please provide an event time"] else []
  }

  function LocationErrors(location: string): seq<string>
  {
    if location == [] then ["Please provide an event location"] else []
  }

  function MaxParticipantsErrors(max: Option<int>): seq<string>
  {
    if max.Some? && max.value < 1 then ["Maximum participants must be at least 1"] else []
  }

  /** The schema's own constraints, stated declaratively. String values are
      stored after the schema's trim setter, and a required string must not
      be empty. */
  ghost predicate SchemaValid(e: Event)
  {
    && Trimmed(e.title) && 3 <= JsLength(e.title) <= 100
    && Trimmed(e.description) && 10 <= JsLength(e.description) <= 1000
    && e.time != []
    && Trimmed(e.location) && e.location != []
    && (e.maxParticipants.Some? ==> e.maxParticipants.value >= 1)
  }

  /** What the schema validation reports for a whole document: nothing
      exactly when the stored (trimmed) values meet the schema's bounds. */
  function SchemaErrors(e: Event): (msgs: seq<string>)
    requires Trimmed(e.title) && Trimmed(e.description) && Trimmed(e.location)
    ensures msgs == [] <==> SchemaValid(e)
  {
    TitleErrors(e.title) + DescriptionErrors(e.description) + TimeErrors(e.time)
      + LocationErrors(e.location) + MaxParticipantsErrors(e.maxParticipants)
  }

  /** A new document as the model builds it: the trim setter applied to the
      trimmed string fields, an empty roster, `isActive` true and both
      timestamps set to the creation instant. */
  function NewEvent(id: EventId, title: string, description: string, date: int, time: string,
                    location: string, maxParticipants: Option<int>, organizer: UserId, now: int): (e: Event)
    ensures e.id == id && e.organizerId == organizer && e.date == date
    ensures e.participants == [] && e.isActive
    ensures e.createdAt == now && e.updatedAt == now
    ensures e.title == Trim(title) && e.description == Trim(description) && e.location == Trim(location)
    ensures e.time == time && e.maxParticipants == maxParticipants
    ensures Trimmed(e.title) && Trimmed(e.description) && Trimmed(e.location)
  {
    TrimIsSlice(title);
    TrimIsSlice(description);
    TrimIsSlice(location);
    Event(id, Trim(title), Trim(description), date, time, Trim(location), organizer,
          [], maxParticipants, true, now, now)
  }

  /** A roster entry whose `registeredAt` was omitted gets the current instant. */
  function NewParticipant(userId: UserId, registeredAt: Option<int>, now: int): (p: Participant)
    ensures p.userId == userId
    ensures p.registeredAt == (if registeredAt.Some? then registeredAt.value else now)
  {
    Participant(userId, if registeredAt.Some? then registeredAt.value else now)
  }

  // Roster invariants: the schema does not check these; the registration
  // operations are what keep them.

  /** No user appears twice in the roster. */
  ghost predicate NoDuplicateUsers(ps: seq<Participant>)
  {
    forall i, j :: 0 <= i < j < |ps| ==> ps[i].userId != ps[j].userId
  }

  /** A truthy `maxParticipants` (any value other than 0) bounds the roster. */
  predicate Capped(e: Event)
  {
    e.maxParticipants.Some? && e.maxParticipants.value != 0
  }

  ghost predicate WithinCapacity(e: Event)
  {
    Capped(e) ==> |e.participants| <= e.maxParticipants.value
  }

  ghost predicate RosterInvariant(e: Event)
  {
    NoDuplicateUsers(e.participants) && WithinCapacity(e)
  }
}
