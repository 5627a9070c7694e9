/** The global error handler (error.middleware.ts): it starts from 500
    "Internal server error" and runs a chain of independent rules, each of
    which overwrites the status and message when it matches, so the last
    matching rule decides. */
module ErrorHandling {
  import opened Common
  import opened JsText

  /** The properties of a thrown value that the handler inspects: its `name`,
      whether it is an operational error (with its class and message), a
      driver error `code`, the messages of a schema validation error's
      `errors` object, and the keys of a duplicate-key error's `keyValue`. */
  datatype Thrown = Thrown(
    name: string,
    appError: Option<AppError>,
    code: Option<int>,
    validatorMessages: Option<seq<string>>,
    keyValueKeys: Option<seq<string>>)

  /** What the handler does: respond with a JSON error body (whose `success`
      is always false), or throw itself (reading a property of a missing
      `errors` or `keyValue` object, or of a missing first key). */
  datatype Reply = Respond(statusCode: int, success: bool, error: string) | HandlerThrows

  const DuplicateKeyCode := 11000

  /** The thrown value for each failure a controller reports. Operational
      errors keep the default `name` "Error"; a schema validation error is
      named "ValidationError", a malformed id "CastError" and a property
      read on `undefined` "TypeError". */
  function ToThrown(f: Failure): (t: Thrown)
    ensures f.App? ==> t.appError == Some(f.err) && t.name == "Error"
    ensures f.SchemaInvalid? ==> t.name == "ValidationError" && t.validatorMessages == Some(f.messages)
    ensures f.InvalidObjectId? ==> t.name == "CastError" && t.appError.None?
    ensures f.Crash? ==> t.name == "TypeError" && t.appError.None?
    ensures t.code.None?
  {
    match f
    case App(e) => Thrown("Error", Some(e), None, None, None)
    case SchemaInvalid(msgs) => Thrown("ValidationError", None, None, Some(msgs), None)
    case InvalidObjectId => Thrown("CastError", None, None, None, None)
    case Crash => Thrown("TypeError", None, None, None, None)
  }

  /** The handler as written: two locals, reassigned by each matching rule in turn. */
  method HandleError(err: Thrown) returns (reply: Reply)
    ensures reply == Classify(err)
    ensures reply.Respond? ==> !reply.success
  {
    var statusCode := 500;
    var message := "Internal server error";

    if err.appError.Some? {
      statusCode := StatusCode(err.appError.value.kind);
      message := err.appError.value.message;
    }

    if err.name == "ValidationError" {
      if err.validatorMessages.None? {
        return HandlerThrows;
      }
      statusCode := 400;
      message := Join(err.validatorMessages.value, ", ");
    }

    if err.code == Some(DuplicateKeyCode) {
      if err.keyValueKeys.None? || err.keyValueKeys.value == [] {
        return HandlerThrows;
      }
      statusCode := 409;
      var field := err.keyValueKeys.value[0];
      message := Capitalize(field) + " already exists";
    }

    if err.name == "CastError" {
      statusCode := 400;
      message := "Invalid ID format";
    }

    if err.name == "JsonWebTokenError" {
      statusCode := 401;
      message := "Invalid token";
    }

    if err.name == "TokenExpiredError" {
      statusCode := 401;
      message := "Token expired";
    }

    reply := Respond(statusCode, false, message);
  }

  /** The handler throws when a rule reads a property the error lacks. */
  predicate HandlerFails(err: Thrown)
  {
    || (err.name == "ValidationError" && err.validatorMessages.None?)
    || (err.code == Some(DuplicateKeyCode) && (err.keyValueKeys.None? || err.keyValueKeys.value == []))
  }

  /** The classification read by priority: the rules tried from the last to
      the first, the first of them that matches deciding. */
  function Classify(err: Thrown): (reply: Reply)
    ensures reply.HandlerThrows? <==> HandlerFails(err)
  {
    if HandlerFails(err) then HandlerThrows
    else if err.name == "TokenExpiredError" then Respond(401, false, "Token expired")
    else if err.name == "JsonWebTokenError" then Respond(401, false, "Invalid token")
    else if err.name == "CastError" then Respond(400, false, "Invalid ID format")
    else if err.code == Some(DuplicateKeyCode) then
      Respond(409, false, Capitalize(err.keyValueKeys.value[0]) + " already exists")
    else if err.name == "ValidationError" then Respond(400, false, Join(err.validatorMessages.value, ", "))
    else if err.appError.Some? then
      Respond(StatusCode(err.appError.value.kind), false, err.appError.value.message)
    else Respond(500, false, "Internal server error")
  }

  /** Names the handler recognises. */
  predicate KnownName(name: string)
  {
    name in {"ValidationError", "CastError", "JsonWebTokenError", "TokenExpiredError"}
  }

  /** An error that no rule recognises is an internal server error. */
  lemma UnrecognisedIsInternal(err: Thrown)
    requires !KnownName(err.name) && err.appError.None? && err.code != Some(DuplicateKeyCode)
    ensures Classify(err) == Respond(500, false, "Internal server error")
  {
  }

  /** Every failure a controller reports gets a response: an operational error
      keeps its own status and message, a malformed id is 400 "Invalid ID
      format", a schema validation error is 400 with its messages joined,
      and a run-time error is 500. */
  lemma ControllerFailuresClassified(f: Failure)
    ensures f.App? ==> Classify(ToThrown(f)) == Respond(StatusCode(f.err.kind), false, f.err.message)
    ensures f.InvalidObjectId? ==> Classify(ToThrown(f)) == Respond(400, false, "Invalid ID format")
    ensures f.SchemaInvalid? ==> Classify(ToThrown(f)) == Respond(400, false, Join(f.messages, ", "))
    ensures f.Crash? ==> Classify(ToThrown(f)) == Respond(500, false, "Internal server error")
  {
  }

  /** A duplicate-key error names its first key, capitalised. */
  lemma DuplicateKeyMessage(name: string, field: string, rest: seq<string>)
    requires !KnownName(name)
    ensures Classify(Thrown(name, None, Some(DuplicateKeyCode), None, Some([field] + rest)))
              == Respond(409, false, Capitalize(field) + " already exists")
  {
  }

  lemma DuplicateEmailExample()
    ensures Classify(Thrown("MongoServerError", None, Some(DuplicateKeyCode), None, Some(["email"])))
              == Respond(409, false, "Email already exists")
  {
  }

  /** Token errors are 401 with their own message. */
  lemma TokenErrors(app: Option<AppError>, code: Option<int>, msgs: Option<seq<string>>, keys: Option<seq<string>>)
    requires code == Some(DuplicateKeyCode) ==> keys.Some? && keys.value != []
    ensures Classify(Thrown("JsonWebTokenError", app, code, msgs, keys)) == Respond(401, false, "Invalid token")
    ensures Classify(Thrown("TokenExpiredError", app, code, msgs, keys)) == Respond(401, false, "Token expired")
  {
  }

  /** A later rule overrides an earlier one: an operational error that also
      carries the duplicate-key code is reported as a 409 conflict. */
  lemma LaterRuleWins(e: AppError, field: string)
    ensures Classify(Thrown("Error", Some(e), Some(DuplicateKeyCode), None, Some([field])))
              == Respond(409, false, Capitalize(field) + " already exists")
  {
  }
}
