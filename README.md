# Event registration service — a Dafny model

This project models the core of an event-scheduling backend. Organizers
create, update and delete events. Attendees register for an event and
unregister from it, and a roster may have a capacity limit. The model
covers:

- the event document and its schema constraints and defaults (`EventModel`);
- the request-body validation chains for events and users (`Validation`);
- the role gate `authorize(...roles)` (`Authorization`);
- the global error handler, which maps a thrown error to a status and a
  message (`ErrorHandling`);
- the event controller (`EventController`). This is an `EventStore` class
  holding the events collection as a map from id to document. Its methods
  are create, update, delete, get one, register, unregister and the three
  list views. Each method is tied to a pure `...Outcome` function, and the
  lemmas about those functions state what the operations guarantee;
- the events router (`EventRoutes`). This is the ordered route table with
  first-match dispatch and each route's guard chain, composed with the
  controller outcomes;
- JavaScript string helpers the above rely on: `trim` with JavaScript's
  white-space set, the two ways of measuring text length, `join` and
  first-letter capitalisation (`JsText`).

Dates and instants are integers (milliseconds since the epoch). The start of
the current local day (`startOfToday`) and the current instant (`now`) are
parameters. Document ids and user ids are naturals. A path `:id` that is not
a well-formed ObjectId is the `NotObjectId` parameter value, and the store
reports it as a cast error. The store hands out ids in increasing order.
The authenticated caller is an `Identity` parameter: a principal, or the
reason authentication refused.

Operations run one at a time. Each one loads a document, checks its
preconditions in the source's order, changes its copy and writes it back.
This is the read-check-save sequence of the source, with no guard against
concurrent writers.

The update body is applied verbatim, including `organizerId` and
`participants` when the body carries them. So the model does not claim that
the organizer is immutable. `UpdateCanTransferOwnership` and
`UpdateCanOverfill` show that an update can hand an event to another user,
and can lower `maxParticipants` below the current roster size.

Two rules of registration, as `src/controllers/event.controller.ts` states
them:

- Registration compares the event's stored date with the current *instant*
  (lines 241-244), while the date rule on create and update compares it with
  the start of the current day. An event dated today at midnight can be
  created, and once midnight has passed, registration for it is refused
  (`TodayIsCreatableButClosed`).
- The capacity check (lines 256-261) applies only when `maxParticipants` is
  truthy (absent or 0 means no limit) and refuses when the roster length is
  greater than or equal to that value.

Text lengths are counted two ways. The document schema's `minlength` and
`maxlength` count UTF-16 code units, as JavaScript's `String.length` does:
a character outside the Basic Multilingual Plane counts twice (`JsLength`).
The request-body rules (`isLength`) count code points, leaving out the
variation selectors U+FE0E and U+FE0F (`VisibleLength`). So a title can pass
the request rules and still be refused by the schema
(`AstralTitleRefusedBySchema`).

The events router is created with the default options: literal path
segments match regardless of ASCII letter case, and one trailing slash is
optional. So `GET /api/events/My-Events/` reaches the organizer's own list.

`src/utils/errors.ts` is not part of this model. The status of each
operational error class (400, 401, 403, 404, 409) is taken from the statuses
the tests expect. An operational error's `name` is taken to be neither
`ValidationError` nor `CastError`, so those rules of the handler do not
reclassify it.

## Model

| member | source | states |
|---|---|---|
| `Common.StatusCode` | src/__tests__/event.test.ts:66-355 | each operational error kind has its own 4xx status, and each of those statuses belongs to exactly one kind: 400 validation, 401 authentication, 403 authorization, 404 not found, 409 conflict (the statuses the request tests expect at lines 71, 77, 188, 318 and 355) |
| `JsText.TrimStartSpec` | src/middleware/validation.middleware.ts:44-45 | trimming the front keeps the suffix that starts at the first non-space character; everything dropped is white space |
| `JsText.TrimEndSpec` | src/middleware/validation.middleware.ts:44-45 | trimming the end keeps the prefix that ends at the last non-space character; everything dropped is white space |
| `JsText.TrimIsSlice` | src/middleware/validation.middleware.ts:44-45 | `trim` keeps a contiguous slice, removes only white space around it, and the result neither starts nor ends with white space |
| `JsText.TrimIdempotent` | src/models/Event.ts:39-42 | trimming the sanitizer's output again (the schema's `trim` setter) changes nothing |
| `JsText.TrimmedFixed` | src/models/Event.ts:39-42 | a value that neither starts nor ends with white space is its own trim |
| `JsText.TrimEmptyIff` | src/middleware/validation.middleware.ts:80 | a trimmed field is empty exactly when the text is all white space |
| `JsText.Join` | src/middleware/error.middleware.ts:28-30 | joining no messages gives the empty string; joining one gives that message |
| `JsText.UpperChar` | src/middleware/error.middleware.ts:38 | lower-case ASCII letters become their upper-case letter; other characters are kept |
| `JsText.Capitalize` | src/middleware/error.middleware.ts:36-39 | only the first character is upper-cased; the rest and the length are kept |
| `JsText.AstralCount` | src/models/Event.ts:43-51 | counts the characters outside the Basic Multilingual Plane: none exactly when there is no such character, all of them when every character is one |
| `JsText.SelectorCount` | src/middleware/validation.middleware.ts:48 | counts the variation selectors U+FE0E and U+FE0F: none exactly when there is no such character, all of them when every character is one |
| `JsText.JsLength` | src/models/Event.ts:43-51 | `String.length`, the unit of `minlength`/`maxlength`: between the number of characters and twice it, and equal to it exactly when no character lies outside the Basic Multilingual Plane |
| `JsText.VisibleLength` | src/middleware/validation.middleware.ts:48 | the length `isLength` measures: at most the number of characters, which is at most `String.length`, and equal to it exactly when there is no variation selector |
| `JsText.AstralCountAppend` | src/models/Event.ts:43-51 | the astral characters of joined text are those of each part added up |
| `JsText.SelectorCountAppend` | src/middleware/validation.middleware.ts:48 | the variation selectors of joined text are those of each part added up |
| `JsText.CountsOfOne` | src/models/Event.ts:43-51 | one character is one astral character exactly when it lies outside the Basic Multilingual Plane, and one selector exactly when it is U+FE0E or U+FE0F |
| `JsText.LengthsAppend` | src/middleware/validation.middleware.ts:48 | both lengths of joined text are the sums of the parts' lengths, so each is computed character by character |
| `EventModel.SchemaErrors` | src/models/Event.ts:39-75 | the schema reports no message exactly when the title is 3-100 and the description 10-1000 UTF-16 code units long, time and location are non-empty, and a present `maxParticipants` is at least 1 |
| `EventModel.NewEvent` | src/models/Event.ts:37-84 | a new document has an empty roster, `isActive` true, both timestamps at the creation instant, and trimmed title, description and location |
| `EventModel.NewParticipant` | src/models/Event.ts:22-35 | a roster entry keeps its user and defaults `registeredAt` to the current instant |
| `Validation.OrElse` | src/controllers/event.controller.ts:102-105 | the first failing check's message is the one reported; the chain passes only when every check passes; when the first check passes, the next one's verdict is the result |
| `Validation.ClockTimeMatches` | src/middleware/validation.middleware.ts:77 | every clock time `H:MM` (hour below ten) and `HH:MM`, from 0:00 to 23:59, matches the time pattern |
| `Validation.MatchesAreClockTimes` | src/middleware/validation.middleware.ts:118 | every text the time pattern accepts is such a clock time, so the pattern accepts exactly those |
| `Validation.HourOf` | src/middleware/validation.middleware.ts:77 | the hour of an accepted time is below 24 |
| `Validation.MinuteOf` | src/middleware/validation.middleware.ts:77 | the minute of an accepted time is below 60 |
| `Validation.TimeExamples` | src/middleware/validation.middleware.ts:77 | "9:05", "09:00" and "23:59" are accepted; "24:00", "09:60" and "9:5" are refused |
| `Validation.CreateTitleError` | src/middleware/validation.middleware.ts:44-49 | create accepts a title exactly when it is present and its trimmed text has 3-100 code points, variation selectors not counted |
| `Validation.CreateDescriptionError` | src/middleware/validation.middleware.ts:51-56 | create accepts a description exactly when it is present and its trimmed text has 10-1000 code points, variation selectors not counted |
| `Validation.CreateDateError` | src/middleware/validation.middleware.ts:58-71 | create accepts a date exactly when it is present, ISO-8601, and not before midnight of today |
| `Validation.CreateTimeError` | src/middleware/validation.middleware.ts:73-78 | create accepts a time exactly when it is present and its trimmed text matches the time pattern |
| `Validation.CreateLocationError` | src/middleware/validation.middleware.ts:80 | create accepts a location exactly when it is present and non-empty after trim |
| `Validation.MaxParticipantsError` | src/middleware/validation.middleware.ts:82-85 | `maxParticipants` is accepted exactly when it is absent, or an integer of at least 1 |
| `Validation.CreateEventErrors` | src/middleware/validation.middleware.ts:43-86 | the create chain passes exactly when every field meets its rule |
| `Validation.TitleOnlyBodyFails` | src/middleware/validation.middleware.ts:43-80 | a body with only an acceptable title is refused, with "Event description is required" |
| `Validation.UpdateEventErrors` | src/middleware/validation.middleware.ts:88-136 | the update chain passes exactly when every field the body carries meets its rule (location non-empty, `isActive` boolean, the create bounds otherwise) |
| `Validation.EmptyUpdatePasses` | src/middleware/validation.middleware.ts:88-136 | a body with none of the checked fields passes the update chain, whatever `organizerId` or `participants` it carries |
| `Validation.DateRuleIsDateOnly` | src/middleware/validation.middleware.ts:63-71 | an instant earlier today passes both date rules; one millisecond before midnight is refused |
| `Validation.SignUpErrors` | src/middleware/validation.middleware.ts:3-29 | sign-up passes exactly when the trimmed name has 2-50 code points, the e-mail is valid, the untrimmed password has at least 6 code points (variation selectors not counted in either), and a role, if given, is "organizer" or "attendee" |
| `Validation.PasswordExamples` | src/middleware/validation.middleware.ts:19-23 | the password is not trimmed: six spaces pass, five characters are refused |
| `Validation.LoginErrors` | src/middleware/validation.middleware.ts:31-41 | login passes exactly when the e-mail passes and a non-empty password is present |
| `Authorization.Includes` | src/middleware/authorization.middleware.ts:16 | the membership test is list membership |
| `Authorization.Authorize` | src/middleware/authorization.middleware.ts:9-27 | no user: "User not authenticated"; a role outside the list: an authorization error naming the role; a role in the list: no error |
| `Authorization.AuthorizeMonotone` | src/middleware/authorization.middleware.ts:16 | adding roles to the allowed list never turns an allow into a deny |
| `Authorization.OrganizerGate` | src/middleware/authorization.middleware.ts:16-22 | the organizer-only gate lets organizers through and refuses attendees |
| `ErrorHandling.ToThrown` | src/middleware/error.middleware.ts:20-46 | each controller failure becomes the thrown value the handler inspects: an operational error, a schema `ValidationError`, a `CastError` or a run-time `TypeError` |
| `ErrorHandling.HandleError` | src/middleware/error.middleware.ts:16-63 | the handler, as a chain of reassignments, gives the last matching rule's status and message; the response's `success` is always false |
| `ErrorHandling.Classify` | src/middleware/error.middleware.ts:16-57 | the handler fails exactly when a matching rule reads a property the error lacks |
| `ErrorHandling.UnrecognisedIsInternal` | src/middleware/error.middleware.ts:16-17 | an error no rule recognises is 500 "Internal server error" |
| `ErrorHandling.ControllerFailuresClassified` | src/middleware/error.middleware.ts:20-46 | an operational error keeps its status and message, a cast error is 400 "Invalid ID format", a schema error is 400 with its messages joined by ", ", and a run-time error is 500 |
| `ErrorHandling.DuplicateKeyMessage` | src/middleware/error.middleware.ts:34-40 | code 11000 is 409 "<Field> already exists", with only the first letter of the first key upper-cased |
| `ErrorHandling.DuplicateEmailExample` | src/middleware/error.middleware.ts:34-40 | a duplicate `email` key reads "Email already exists" |
| `ErrorHandling.TokenErrors` | src/middleware/error.middleware.ts:49-57 | `JsonWebTokenError` is 401 "Invalid token" and `TokenExpiredError` is 401 "Token expired", whatever else the error carries |
| `ErrorHandling.LaterRuleWins` | src/middleware/error.middleware.ts:20-40 | an operational error that also carries code 11000 is reported as the duplicate-key conflict |
| `EventController.Find` | src/controllers/event.controller.ts:152-156 | a malformed id is a cast error, a missing id is "Event not found", and a stored id gives its document |
| `EventController.FindIndex` | src/controllers/event.controller.ts:318-320 | the result is the first entry of the user, or -1 exactly when the user is not on the roster |
| `EventController.RemoveAt` | src/controllers/event.controller.ts:327 | removing one entry keeps the entries before it and shifts the ones after it down by one |
| `EventController.ApplyPatch` | src/controllers/event.controller.ts:166-173 | an update keeps id and creation time and stamps `updatedAt`; each field the body carries takes the body's value (title, description, time and location trimmed, the date as an instant, roster entries with their `registeredAt` default), and each field it does not carry, including organizer and roster, is kept |
| `EventController.ToParticipants` | src/models/Event.ts:22-35 | roster entries sent in a body get the `registeredAt` default, one per entry, in order |
| `EventController.Created` | src/controllers/event.controller.ts:107-119 | create stamps the caller as organizer, stores the trimmed fields, an empty roster and `isActive` true |
| `EventController.CreateChainCompletes` | src/middleware/validation.middleware.ts:43-86 | a body the create chain accepts carries every required field in castable form |
| `EventController.UpdateChainCastable` | src/middleware/validation.middleware.ts:88-136 | a body the update chain accepts carries only castable date, capacity and flag values |
| `EventController.EventStore.Insert` | src/controllers/event.controller.ts:111-119 | a new document is stored under a fresh id and the store stays valid |
| `EventController.EventStore.Put` | src/controllers/event.controller.ts:269 | saving a changed document replaces only that document |
| `EventController.EventStore.GetEventById` | src/controllers/event.controller.ts:74-80 | get-by-id returns the stored document for that id, or not-found / cast error |
| `EventController.EventStore.CreateEvent` | src/controllers/event.controller.ts:100-119 | create adds exactly one document, stamped with the caller, or changes nothing on a validation or schema error |
| `EventController.EventStore.UpdateEvent` | src/controllers/event.controller.ts:145-173 | update replaces only the target document with the patched one, or changes nothing on any error |
| `EventController.EventStore.DeleteEvent` | src/controllers/event.controller.ts:194-208 | a successful delete removes exactly the target; any error changes nothing |
| `EventController.EventStore.Register` | src/controllers/event.controller.ts:229-269 | register follows the outcome function; on any error the store, and so the roster, is unchanged |
| `EventController.EventStore.Unregister` | src/controllers/event.controller.ts:310-328 | unregister follows the outcome function; on any error the store is unchanged |
| `EventController.EventStore.GetAllEvents` | src/controllers/event.controller.ts:27-52 | the list holds exactly the stored events the `isActive` filter selects, sorted by date, one entry per selected id; without the filter, all of them |
| `EventController.EventStore.GetMyRegistrations` | src/controllers/event.controller.ts:350-354 | the list holds exactly the events whose roster holds the caller, sorted by date, one entry per such event |
| `EventController.EventStore.GetMyEvents` | src/controllers/event.controller.ts:376-378 | the list holds exactly the events the caller organizes, sorted by date, one entry per such event |
| `EventController.PatchKeepsSchemaValid` | src/controllers/event.controller.ts:166-172 | an update that passes the update validators leaves a document that meets the schema |
| `EventController.CreatedMeetsSchema` | src/models/Event.ts:39-75 | a complete body whose trimmed title and description are 3-100 and 10-1000 UTF-16 code units long, with a valid time, location and capacity, yields a document the schema accepts |
| `EventController.ValidatedCreateSucceeds` | src/controllers/event.controller.ts:100-119 | a body the create chain accepts carries every field, and is stored exactly when its trimmed title and description also fit the schema's maxima in UTF-16 code units; the stored document meets the schema, and otherwise the schema refuses the body |
| `EventController.ValidatedUpdateSucceeds` | src/controllers/event.controller.ts:145-173 | an owner's update with a body the update chain accepts succeeds with the patched document exactly when the title and description it carries also fit the schema's maxima in UTF-16 code units |
| `EventController.AstralTitleRefusedBySchema` | src/models/Event.ts:39-44 | a title of 51 emoji passes the create chain's 100-character bound and is refused by the schema's, "Title cannot exceed 100 characters" |
| `EventController.UpdateKeepsRosterInvariant` | src/controllers/event.controller.ts:166-172 | an update that sets neither the roster nor the cap keeps no-duplicates and capacity |
| `EventController.UpdateCanTransferOwnership` | src/controllers/event.controller.ts:166-169 | an update carrying `organizerId` moves the event to another user, after which the first organizer is refused |
| `EventController.UpdateCanOverfill` | src/controllers/event.controller.ts:166-172 | an update can lower `maxParticipants` below the roster size |
| `EventController.UpdateDeleteOrder` | src/controllers/event.controller.ts:147-208 | update: validation, then not found, then not owner; delete: not found, then not owner, and succeeds exactly for the owner |
| `EventController.DeleteRemovesOnlyTarget` | src/controllers/event.controller.ts:208 | after a delete the id is not found and every other event is untouched |
| `EventController.OccurrencesPositiveIff` | src/controllers/event.controller.ts:247-249 | a user is on the roster exactly when the roster has an entry for the user |
| `EventController.OccurrencesAppend` | src/controllers/event.controller.ts:264-267 | a user's entries in two joined rosters are those of each roster added up |
| `EventController.RegisterKeepsRosterInvariant` | src/controllers/event.controller.ts:247-269 | a successful register appends exactly `{caller, now}` at the end and keeps no-duplicates and capacity |
| `EventController.UnregisterOutcomeCases` | src/controllers/event.controller.ts:311-328 | unregister: not found, then "not registered"; otherwise it removes the caller's first entry and keeps the rest in order |
| `EventController.RegisterTwiceConflicts` | src/controllers/event.controller.ts:247-253 | registering again right after a success is a conflict, "already registered" |
| `EventController.UnregisterRemovesCaller` | src/controllers/event.controller.ts:318-327 | on a roster with no duplicates, unregister removes the caller and nothing else, and no duplicate appears |
| `EventController.UnregisterThenRegister` | src/controllers/event.controller.ts:230-328 | unregistering and registering again on an open event succeeds and leaves the caller on the roster exactly once |
| `EventController.RegisterCheckOrder` | src/controllers/event.controller.ts:236-261 | register fails in a fixed order: not active, then past, then already registered, then full |
| `EventController.TodayIsCreatableButClosed` | src/controllers/event.controller.ts:241-244 | an event dated today at midnight passes the create date rule but, once that instant has passed, register refuses it as past |
| `EventController.RegisterAllFills` | src/controllers/event.controller.ts:256-267 | for distinct newcomers registering one after another, exactly min(N, max - roster) succeed with a truthy cap, and all of them without one |
| `EventController.ActiveCriterion` | src/controllers/event.controller.ts:46-48 | no `isActive` parameter means no filter; "true" selects active events; any other text selects inactive ones |
| `EventController.Documents` | src/controllers/event.controller.ts:50 | the stored documents listed once each, all of them |
| `EventController.Select` | src/controllers/event.controller.ts:50 | the filter keeps exactly the documents that match the criterion |
| `EventController.SelectMultiplicity` | src/controllers/event.controller.ts:50 | the filter keeps each matching document as often as it occurs in its input and drops every other one |
| `EventController.SelectSnoc` | src/controllers/event.controller.ts:50 | filtering a list extended by one document extends the filtered list by that document exactly when it matches |
| `EventController.MatchingIdsStep` | src/controllers/event.controller.ts:50 | the matching ids below n + 1 are those below n, plus n when n is stored and matches |
| `EventController.SelectedLength` | src/controllers/event.controller.ts:50 | the filtered documents are as many as the stored ids below n whose document matches |
| `EventController.MatchCountIsSize` | src/controllers/event.controller.ts:50 | that count is the size of the set of matching ids |
| `EventController.SelectedCount` | src/controllers/event.controller.ts:50 | the filtered documents are exactly as many as the matching stored ids: one entry per id |
| `EventController.InsertByDate` | src/controllers/event.controller.ts:52 | inserting adds exactly that document |
| `EventController.InsertByDateSorted` | src/controllers/event.controller.ts:52 | inserting into a date-sorted list keeps it sorted |
| `EventController.SortByDate` | src/controllers/event.controller.ts:52 | the sort is a permutation in ascending date order |
| `EventController.View` | src/controllers/event.controller.ts:50-52 | a query view lists, by date, exactly the stored documents that meet its criterion, one entry per matching stored id |
| `EventController.ListingCount` | src/controllers/event.controller.ts:50-52 | the sorted listing has one entry per stored id whose document meets the criterion |
| `EventController.ListingFacts` | src/controllers/event.controller.ts:50-52 | filtered and sorted, the listing holds exactly the matching stored documents, one entry per matching id, all of them when unfiltered |
| `EventController.ActiveFilterSelects` | src/controllers/event.controller.ts:46-48 | with `isActive` text, a stored event is listed exactly when its flag equals (text == "true") |
| `EventRoutes.Dispatch` | src/routes/event.routes.ts:21-101 | dispatch picks the first registration that matches, or reports that none does; a router made with the default options matches literal segments regardless of ASCII letter case and takes one trailing slash as optional |
| `EventRoutes.NamedPathsBeforeId` | src/routes/event.routes.ts:35-54 | `/my-registrations` and `/my-events` reach their own controllers although `/:id` also matches them, in any ASCII letter case and with or without a trailing slash |
| `EventRoutes.OtherSegmentIsId` | src/routes/event.routes.ts:21-54 | any other non-empty single segment after GET, one that is no case variant of `my-registrations` or `my-events`, reaches get-by-id, with or without a trailing slash |
| `EventRoutes.RunGuard` | src/middleware/auth.middleware.ts:13-49 | authentication passes exactly when there is a caller; a role gate passes exactly when the attached role is allowed; no other guard stops a request |
| `EventRoutes.ChainAfterAuthentication` | src/routes/event.routes.ts:42-87 | after authentication, a chain passes exactly when the caller's role is in every role gate; a first gate that refuses names the role |
| `EventRoutes.AdmitPolicy` | src/routes/event.routes.ts:28-101 | every route authenticates first (401 otherwise); create, update, delete and my-events also need an organizer (403 for attendees); the rest need only authentication |
| `EventRoutes.ChainsOnlyOnCreateAndUpdate` | src/routes/event.routes.ts:61-80 | the validation chains are attached to POST `/` and PUT `/:id` only |
| `EventRoutes.GateBeforeLookup` | src/routes/event.routes.ts:74-87 | an attendee gets 403 on update and delete for a missing event whatever the body; an organizer gets 404 on delete, and on update the validation error of an invalid body, else 404 |
| `EventRoutes.OnlyOwnerMutates` | src/controllers/event.controller.ts:152-206 | an organizer who does not own an existing event is refused on update and on delete |

## Left out

- Persistence is an in-memory map. The store's queries, `populate` (a display projection), indexes and connection handling are not modelled.
- Concurrency is not modelled. Operations run one at a time. The source's read-check-save has no guard against a concurrent register, so capacity and no-duplicates are proved only for sequential runs.
- Registration e-mail is not modelled. It is a fire-and-forget send after the save, and the model leaves out the user lookup and the HTML template.
- Password hashing, token minting and token verification are not modelled. Authentication is the `Identity` parameter: a caller, or the reason it refused.
- The auth controller and the user store are not modelled, apart from the sign-up and login validation chains.
- The `search` query filter is not modelled. It passes user text to the store as a case-insensitive regular expression.
- The `date` query filter is not modelled. It uses local-time-zone day arithmetic.
- ISO-8601 parsing is not modelled. A date is already an instant (`Iso(ms)`) or text the check refuses (`NotIso`).
- The e-mail syntax check and `normalizeEmail` are not modelled. The check is a parameter `isEmail`.
- EventController.ApplyPatch, EventController.PatchErrors and Validation.ParticipantInput: the roster entries and the `organizerId` of an update body are taken as well-formed ids. A roster entry without `userId` (refused in the source by the roster schema's required rule) and an id that is not an ObjectId (a cast error, 400 "Invalid ID format") are not modelled.
- Percent-decoding of the request path, and HEAD requests being served by GET routes, are not modelled. Path segments arrive already split.
- Casting a path segment to an ObjectId is not modelled. The id arrives already cast (`ObjectId(id)` or `NotObjectId`).
- `findByIdAndUpdate` could find no document if the event was deleted between the lookup and the update. Operations are sequential, so this does not arise in the model.
- The update path's schema validators are modelled only for title, description, time, location and `maxParticipants`, on the paths the body sets. Mongoose's casting of other body fields (unknown keys, `null` values) is not modelled.
- The process-level error hooks, the 404 catch-all, CORS and server start-up are not modelled.
- `JsText.UpperChar`: upper-cases ASCII letters only. JavaScript's `toUpperCase` also maps non-ASCII letters, so a duplicate-key field starting with one is capitalised differently.
- `ErrorHandling.HandleError`: the development-mode `stack` field of the response is not modelled.
