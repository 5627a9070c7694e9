/** The events router (event.routes.ts): an ordered table of registrations,
    each a method, a path pattern, a chain of guards and a controller. A
    request is served by the first registration whose method and pattern
    match; its guards run in order and the first one that fails ends the
    request with its error, before the controller sees it. */
module EventRoutes {
  import opened Common
  import opened EventModel
  import opened Validation
  import opened Authorization
  import opened EventController

  datatype HttpMethod = Get | Post | Put | Delete

  /** One segment of a path pattern: literal text, or the `:id` parameter,
      which matches any single non-empty segment. */
  datatype Segment = Lit(text: string) | IdSegment

  /** The controllers the table dispatches to. */
  datatype Handler =
    | ListEvents
    | MyRegistrations
    | MyEvents
    | GetOne
    | CreateOne
    | UpdateOne
    | DeleteOne
    | RegisterOne
    | UnregisterOne

  /** The middleware a registration runs before its controller. */
  datatype Guard =
    | Authenticate
    | AuthorizeRoles(roles: seq<Role>)
    | CreateChain
    | UpdateChain

  datatype Route = Route(verb: HttpMethod, pattern: seq<Segment>, guards: seq<Guard>, handler: Handler)

  /** The registrations, in the order the router declares them. Paths are
      relative to the mount point `/api/events` and split at `/`. */
  const Table: seq<Route> := [
    Route(Get, [], [Authenticate], ListEvents),
    Route(Get, [Lit("my-registrations")], [Authenticate], MyRegistrations),
    Route(Get, [Lit("my-events")], [Authenticate, AuthorizeRoles([Organizer])], MyEvents),
    Route(Get, [IdSegment], [Authenticate], GetOne),
    Route(Post, [], [Authenticate, AuthorizeRoles([Organizer]), CreateChain], CreateOne),
    Route(Put, [IdSegment], [Authenticate, AuthorizeRoles([Organizer]), UpdateChain], UpdateOne),
    Route(Delete, [IdSegment], [Authenticate, AuthorizeRoles([Organizer])], DeleteOne),
    Route(Post, [IdSegment, Lit("register")], [Authenticate], RegisterOne),
    Route(Delete, [IdSegment, Lit("register")], [Authenticate], UnregisterOne)
  ]

  /** ASCII upper-case letters read as their lower-case forms; every other
      character reads as itself. */
  function FoldCase(c: char): char
  {
    if 'A' <= c <= 'Z' then (c as int + 32) as char else c
  }

  /** The router is not case-sensitive: literal text matches regardless of
      the letter case of ASCII letters. */
  predicate SameIgnoringCase(a: string, b: string)
  {
    |a| == |b| && forall i :: 0 <= i < |a| ==> FoldCase(a[i]) == FoldCase(b[i])
  }

  predicate SegmentMatches(pat: Segment, seg: string)
  {
    match pat
    case Lit(t) => SameIgnoringCase(seg, t)
    case IdSegment => seg != []
  }

  /** A request path matches a pattern segment by segment. */
  predicate PathMatches(pattern: seq<Segment>, path: seq<string>)
  {
    |pattern| == |path| && forall i :: 0 <= i < |path| ==> SegmentMatches(pattern[i], path[i])
  }

  /** The router is not strict: one trailing slash is optional. A path of
      two or more segments whose last segment is empty (`/x/`) also matches
      as the path without that segment. The mount point's own trailing
      slash (`/api/events/`) already reads as the empty path. */
  predicate RouteMatches(r: Route, verb: HttpMethod, path: seq<string>)
  {
    && r.verb == verb
    && (|| PathMatches(r.pattern, path)
        || (|path| >= 2 && path[|path| - 1] == [] && PathMatches(r.pattern, path[..|path| - 1])))
  }

  /** First-match dispatch: the index of the first registration that
      matches, or `None` when none does (the application then answers
      404 "Route not found"). */
  function Dispatch(routes: seq<Route>, verb: HttpMethod, path: seq<string>): (r: Option<nat>)
    ensures r.Some? ==> r.value < |routes| && RouteMatches(routes[r.value], verb, path)
    ensures r.Some? ==> forall i :: 0 <= i < r.value ==> !RouteMatches(routes[i], verb, path)
    ensures r.None? ==> forall i :: 0 <= i < |routes| ==> !RouteMatches(routes[i], verb, path)
  {
    if routes == [] then None
    else if RouteMatches(routes[0], verb, path) then Some(0)
    else
      match Dispatch(routes[1..], verb, path)
      case None => None
      case Some(k) => Some(k + 1)
  }

  /** The handler a request reaches through the events router. */
  function HandlerFor(verb: HttpMethod, path: seq<string>): Option<Handler>
  {
    match Dispatch(Table, verb, path)
    case None => None
    case Some(k) => Some(Table[k].handler)
  }

  /** `/my-registrations` and `/my-events` are declared before `/:id`, so
      they reach their own controllers although `/:id` also matches them,
      in any letter case and with or without a trailing slash. */
  lemma NamedPathsBeforeId(seg: string)
    ensures SameIgnoringCase(seg, "my-registrations") ==>
              && RouteMatches(Table[3], Get, [seg])
              && HandlerFor(Get, [seg]) == Some(MyRegistrations)
              && HandlerFor(Get, [seg, ""]) == Some(MyRegistrations)
    ensures SameIgnoringCase(seg, "my-events") ==>
              && RouteMatches(Table[3], Get, [seg])
              && HandlerFor(Get, [seg]) == Some(MyEvents)
              && HandlerFor(Get, [seg, ""]) == Some(MyEvents)
  {
    if SameIgnoringCase(seg, "my-registrations") {
      assert RouteMatches(Table[1], Get, [seg]);
      assert [seg, ""][..1] == [seg];
      assert RouteMatches(Table[1], Get, [seg, ""]);
    }
    if SameIgnoringCase(seg, "my-events") {
      assert !SegmentMatches(Table[1].pattern[0], seg);
      assert RouteMatches(Table[2], Get, [seg]);
      assert [seg, ""][..1] == [seg];
      assert RouteMatches(Table[2], Get, [seg, ""]);
      var k := Dispatch(Table, Get, [seg]);
      assert k.Some? && k.value <= 2;
      var k' := Dispatch(Table, Get, [seg, ""]);
      assert k'.Some? && k'.value <= 2;
    }
  }

  /** Any other non-empty single segment after GET is read as an event id,
      with or without a trailing slash. */
  lemma OtherSegmentIsId(seg: string)
    requires seg != []
    requires !SameIgnoringCase(seg, "my-registrations") && !SameIgnoringCase(seg, "my-events")
    ensures HandlerFor(Get, [seg]) == Some(GetOne)
    ensures HandlerFor(Get, [seg, ""]) == Some(GetOne)
  {
    assert [seg, ""][..1] == [seg];
    assert RouteMatches(Table[3], Get, [seg]);
    assert RouteMatches(Table[3], Get, [seg, ""]);
    assert !SegmentMatches(Table[1].pattern[0], seg) && !SegmentMatches(Table[2].pattern[0], seg);
    var k := Dispatch(Table, Get, [seg]);
    assert k.Some? && k.value <= 3;
    var k' := Dispatch(Table, Get, [seg, ""]);
    assert k'.Some? && k'.value <= 3;
  }

  // ---------------------------------------------------------------------
  // The guard chain.

  /** What authentication yields: the caller, or the reason it refused
      (no `Bearer` header, a token that does not verify, or a user that no
      longer exists). */
  datatype Identity = Caller(principal: Principal) | Refused(reason: string)

  /** Runs one guard. Authentication attaches the caller; the role gate
      tests the attached caller's role; a validation chain only records its
      findings, which the controller reads, so it never stops a request. */
  function RunGuard(g: Guard, id: Identity, user: Option<Principal>): (r: Result<Option<Principal>>)
    ensures g.Authenticate? ==> (r.Ok? <==> id.Caller?)
    ensures g.AuthorizeRoles? ==> (r.Ok? <==> user.Some? && user.value.role in g.roles)
    ensures r.Ok? && !g.Authenticate? ==> r.value == user
    ensures g.CreateChain? || g.UpdateChain? ==> r == Ok(user)
  {
    match g
    case Authenticate =>
      if id.Caller? then Ok(Some(id.principal))
      else Err(App(AppError(AuthenticationError, id.reason)))
    case AuthorizeRoles(roles) =>
      var denied := Authorize(roles, user);
      if denied.Some? then Err(App(denied.value)) else Ok(user)
    case CreateChain => Ok(user)
    case UpdateChain => Ok(user)
  }

  /** Runs a guard chain from the left, stopping at the first failure; the
      result is the caller the controller will see. */
  function RunGuards(gs: seq<Guard>, id: Identity, user: Option<Principal>): Result<Option<Principal>>
  {
    if gs == [] then Ok(user)
    else
      match RunGuard(gs[0], id, user)
      case Err(f) => Err(f)
      case Ok(u) => RunGuards(gs[1..], id, u)
  }

  /** The caller a registration hands to its controller, or the error of
      the first guard that stops the request. A controller reached with no
      caller attached would fail reading `req.user._id`; no registration of
      the table allows that, since each authenticates first. */
  function Admit(r: Route, id: Identity): Result<Principal>
  {
    match RunGuards(r.guards, id, None)
    case Err(f) => Err(f)
    case Ok(u) => if u.Some? then Ok(u.value) else Err(Crash)
  }

  /** Which registrations are organizer-only: exactly create, update, delete
      and my-events. Every other one only needs an authenticated caller. */
  predicate OrganizerOnly(h: Handler)
  {
    h in {CreateOne, UpdateOne, DeleteOne, MyEvents}
  }

  /** After authentication, the rest of a chain lets an attached caller
      through exactly when the caller's role is in every role gate of it,
      and a first role gate that excludes the role reports that role. */
  lemma {:induction false} ChainAfterAuthentication(gs: seq<Guard>, id: Identity, p: Principal)
    requires forall i :: 0 <= i < |gs| ==> !gs[i].Authenticate?
    ensures RunGuards(gs, id, Some(p)).Ok? <==>
              forall i :: 0 <= i < |gs| && gs[i].AuthorizeRoles? ==> p.role in gs[i].roles
    ensures RunGuards(gs, id, Some(p)).Ok? ==> RunGuards(gs, id, Some(p)).value == Some(p)
    ensures gs != [] && gs[0].AuthorizeRoles? && p.role !in gs[0].roles ==>
              RunGuards(gs, id, Some(p)) == Err(App(AppError(AuthorizationError, DeniedMessage(p.role))))
  {
    if gs != [] {
      ChainAfterAuthentication(gs[1..], id, p);
      if RunGuard(gs[0], id, Some(p)).Ok? {
        assert forall i :: 1 <= i < |gs| ==> gs[i] == gs[1..][i - 1];
      }
    }
  }

  /** Every registration authenticates first. An unauthenticated request
      is refused with an authentication error (401) on every route; an
      authenticated one reaches the controller exactly when its route is
      open to all or the caller is an organizer. */
  lemma AdmitPolicy(k: nat, id: Identity)
    requires k < |Table|
    ensures Table[k].guards[0] == Authenticate
    ensures id.Refused? ==> Admit(Table[k], id) == Err(App(AppError(AuthenticationError, id.reason)))
    ensures id.Caller? ==>
              (Admit(Table[k], id).Ok? <==> !OrganizerOnly(Table[k].handler) || id.principal.role == Organizer)
    ensures Admit(Table[k], id).Ok? ==> Admit(Table[k], id).value == id.principal
    ensures id.Caller? && id.principal.role == Attendee && OrganizerOnly(Table[k].handler) ==>
              Admit(Table[k], id) == Err(App(AppError(AuthorizationError, DeniedMessage(Attendee))))
  {
    var gs := Table[k].guards;
    if id.Caller? {
      var rest := gs[1..];
      assert RunGuards(gs, id, None) == RunGuards(rest, id, Some(id.principal));
      ChainAfterAuthentication(rest, id, id.principal);
      assert OrganizerOnly(Table[k].handler) <==> rest != [] && rest[0] == AuthorizeRoles([Organizer]);
      assert forall i :: 0 <= i < |rest| && rest[i].AuthorizeRoles? ==> rest[i].roles == [Organizer];
    }
  }

  /** The validation chains are attached to POST `/` and PUT `/:id` only. */
  lemma ChainsOnlyOnCreateAndUpdate(k: nat)
    requires k < |Table|
    ensures CreateChain in Table[k].guards <==> Table[k].handler == CreateOne
    ensures UpdateChain in Table[k].guards <==> Table[k].handler == UpdateOne
    ensures Table[k].handler == CreateOne ==> Table[k].verb == Post && Table[k].pattern == []
    ensures Table[k].handler == UpdateOne ==> Table[k].verb == Put && Table[k].pattern == [IdSegment]
  {
  }

  // ---------------------------------------------------------------------
  // A request end to end: the guards of its route, then the controller.

  /** PUT `/:id`: the role gate, then the controller's own order of checks
      (validation, existence, ownership). */
  function UpdateRequest(events: map<EventId, Event>, id: Identity, p: IdParam,
                         b: EventBody, startOfToday: int, now: int): Result<Event>
  {
    match Admit(Table[5], id)
    case Err(f) => Err(f)
    case Ok(caller) => UpdateOutcome(events, caller.id, p, b, startOfToday, now)
  }

  /** DELETE `/:id`: the role gate, then existence, then ownership. */
  function DeleteRequest(events: map<EventId, Event>, id: Identity, p: IdParam): Result<EventId>
  {
    match Admit(Table[6], id)
    case Err(f) => Err(f)
    case Ok(caller) => DeleteOutcome(events, caller.id, p)
  }

  /** The role gate runs before the controller: an attendee is refused with
      an authorization error on update and delete whatever the id and the
      body, even for an event that does not exist, where an organizer is
      told it is not found (or, on update, that the body is invalid: the
      validation chain runs after the gate and before the lookup). */
  lemma GateBeforeLookup(events: map<EventId, Event>, u: UserId, missing: EventId,
                                           b: EventBody, startOfToday: int, now: int)
    requires missing !in events
    ensures UpdateRequest(events, Caller(Principal(u, Attendee)), ObjectId(missing), b, startOfToday, now)
              == Err(App(AppError(AuthorizationError, DeniedMessage(Attendee))))
    ensures DeleteRequest(events, Caller(Principal(u, Attendee)), ObjectId(missing))
              == Err(App(AppError(AuthorizationError, DeniedMessage(Attendee))))
    ensures UpdateRequest(events, Caller(Principal(u, Organizer)), ObjectId(missing), b, startOfToday, now)
              == match UpdateEventErrors(b, startOfToday)
                 case Some(m) => Err(App(AppError(ValidationError, m)))
                 case None => Err(App(EventNotFound))
    ensures DeleteRequest(events, Caller(Principal(u, Organizer)), ObjectId(missing))
              == Err(App(EventNotFound))
  {
    AdmitPolicy(5, Caller(Principal(u, Attendee)));
    AdmitPolicy(6, Caller(Principal(u, Attendee)));
    AdmitPolicy(5, Caller(Principal(u, Organizer)));
    AdmitPolicy(6, Caller(Principal(u, Organizer)));
  }

  /** Ownership is enforced for every caller who passes the gate: an
      organizer other than the event's own is refused on update and delete,
      after the event is found. */
  lemma OnlyOwnerMutates(events: map<EventId, Event>, u: UserId, eid: EventId,
                                           b: EventBody, startOfToday: int, now: int)
    requires eid in events && events[eid].organizerId != u
    requires UpdateEventErrors(b, startOfToday).None?
    ensures UpdateRequest(events, Caller(Principal(u, Organizer)), ObjectId(eid), b, startOfToday, now)
              == Err(App(NotOwnerUpdate))
    ensures DeleteRequest(events, Caller(Principal(u, Organizer)), ObjectId(eid))
              == Err(App(NotOwnerDelete))
  {
    AdmitPolicy(5, Caller(Principal(u, Organizer)));
    AdmitPolicy(6, Caller(Principal(u, Organizer)));
  }
}
