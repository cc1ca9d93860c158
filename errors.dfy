/**
 * The error taxonomy of `github/common/errors.py`: the base `GitHubError`, its
 * six subclasses and `create_github_error`, which turns an HTTP status and a
 * parsed body into one of them. The subclass hierarchy becomes a closed
 * `ErrorKind`; the Python exceptions the core can raise become `Exception`.
 */
module Errors {
  import opened Wrappers
  import opened JsonValues
  import opened Strings

  datatype ErrorKind =
    | Generic
    | Validation
    | ResourceNotFound
    | Authentication
    | Permission
    | RateLimit
    | Conflict

  /** The `name` attribute each class sets. */
  function KindName(kind: ErrorKind): string {
    match kind
    case Generic => "GitHubError"
    case Validation => "GitHubValidationError"
    case ResourceNotFound => "GitHubResourceNotFoundError"
    case Authentication => "GitHubAuthenticationError"
    case Permission => "GitHubPermissionError"
    case RateLimit => "GitHubRateLimitError"
    case Conflict => "GitHubConflictError"
  }

  /**
   * One raised GitHub error. `message` is the exception's argument (any value in
   * Python), `resetAt` is the `reset_at` attribute only a rate-limit error has.
   * Timestamps are ISO-8601 text.
   */
  datatype GitHubError = GitHubError(
    kind: ErrorKind,
    message: Json,
    status: int,
    response: Json,
    resetAt: Option<string>)
  {
    function Name(): string {
      KindName(kind)
    }
  }

  /** The Python exceptions the core can raise. */
  datatype Exception =
    | GitHub(error: GitHubError)
    | ValueError(msg: string)
    | TypeError
    | AttributeError
    | KeyError(key: string)
    | ValidationError    // pydantic
    | HTTPError          // requests.HTTPError
    | RequestException   // any other failure of requests.request
    | JSONDecodeError

  /**
   * `is_github_error(e)`: true for `GitHubError` and each of its subclasses,
   * which are all `GitHub` values here, and for no other exception.
   */
  predicate IsGitHubError(e: Exception): (b: bool)
    ensures b <==> e.GitHub?
  {
    e.GitHub?
  }

  const NotFoundPrefix := "Resource not found: "

  /**
   * What the constructors guarantee of every error: the fixed status of each
   * subclass, the shape of its `response` and that only a rate-limit error
   * carries `reset_at`.
   */
  predicate WellFormed(e: GitHubError) {
    match e.kind
    case Generic => e.resetAt == None
    case Validation => e.resetAt == None
    case ResourceNotFound =>
      && e.status == 404 && e.resetAt == None
      && e.message.JStr? && StartsWith(e.message.s, NotFoundPrefix)
      && e.response == MessageBody(JStr(e.message.s[|NotFoundPrefix|..] + " not found"))
    case Authentication => e.status == 401 && e.response == MessageBody(e.message) && e.resetAt == None
    case Permission => e.status == 403 && e.response == MessageBody(e.message) && e.resetAt == None
    case Conflict => e.status == 409 && e.response == MessageBody(e.message) && e.resetAt == None
    case RateLimit =>
      && e.status == 429 && e.resetAt.Some?
      && e.response == JObj(map["message" := e.message, "reset_at" := JStr(e.resetAt.value)])
  }

  // The constructors of the seven classes.

  function NewGitHubError(message: Json, status: int, response: Json): (e: GitHubError)
    ensures WellFormed(e) && e.Name() == "GitHubError"
    ensures e.message == message && e.status == status && e.response == response
  {
    GitHubError(Generic, message, status, response, None)
  }

  function NewValidationError(message: Json, status: int, response: Json): (e: GitHubError)
    ensures WellFormed(e) && e.Name() == "GitHubValidationError"
    ensures e.message == message && e.status == status && e.response == response
  {
    GitHubError(Validation, message, status, response, None)
  }

  function NewResourceNotFoundError(resource: Json): (e: GitHubError)
    ensures WellFormed(e) && e.Name() == "GitHubResourceNotFoundError"
    ensures e.message == JStr(NotFoundPrefix + Show(resource))
    ensures e.response == MessageBody(JStr(Show(resource) + " not found"))
  {
    var text := NotFoundPrefix + Show(resource);
    assert text[|NotFoundPrefix|..] == Show(resource);
    GitHubError(ResourceNotFound, JStr(text), 404, MessageBody(JStr(Show(resource) + " not found")), None)
  }

  function NewAuthenticationError(message: Json := JStr("Authentication failed")): (e: GitHubError)
    ensures WellFormed(e) && e.Name() == "GitHubAuthenticationError" && e.message == message
  {
    GitHubError(Authentication, message, 401, MessageBody(message), None)
  }

  function NewPermissionError(message: Json := JStr("Insufficient permissions")): (e: GitHubError)
    ensures WellFormed(e) && e.Name() == "GitHubPermissionError" && e.message == message
  {
    GitHubError(Permission, message, 403, MessageBody(message), None)
  }

  /** `reset_at or datetime.now()`: a missing reset time becomes `now`. */
  function NewRateLimitError(now: string, message: Json := JStr("Rate limit exceeded"),
                             resetAt: Option<string> := None): (e: GitHubError)
    ensures WellFormed(e) && e.Name() == "GitHubRateLimitError" && e.message == message
    ensures e.resetAt == Some(resetAt.GetOr(now))
  {
    var at := resetAt.GetOr(now);
    GitHubError(RateLimit, message, 429, JObj(map["message" := message, "reset_at" := JStr(at)]), Some(at))
  }

  function NewConflictError(message: Json): (e: GitHubError)
    ensures WellFormed(e) && e.Name() == "GitHubConflictError" && e.message == message
  {
    GitHubError(Conflict, message, 409, MessageBody(message), None)
  }

  /** The status each subclass stands for; every other status is a plain `GitHubError`. */
  const StatusKinds: map<int, ErrorKind> := map[
    401 := Authentication, 403 := Permission, 404 := ResourceNotFound,
    409 := Conflict, 422 := Validation, 429 := RateLimit]

  function KindOf(status: int): ErrorKind {
    if status in StatusKinds then StatusKinds[status] else Generic
  }

  /** The message used when the body has none; for 404 it is the resource named. */
  const DefaultMessages: map<int, string> := map[
    404 := "Resource", 409 := "Conflict occurred", 422 := "Validation failed"]

  function DefaultMessage(status: int): string {
    if status in DefaultMessages then DefaultMessages[status] else "GitHub API error"
  }

  /** `response or {}`: every falsy body is treated as an empty dict. */
  function OrEmpty(body: Json): Json {
    if Truthy(body) then body else JObj(map[])
  }

  /** A body `.get` can be called on: a dict, or anything falsy. */
  predicate Gettable(body: Json) {
    OrEmpty(body).JObj?
  }

  /** The `reset_at` text of a 429 body, or `now`; `None` when it is not a string. */
  function ResetAtText(fields: map<string, Json>, now: string): Option<string> {
    match Get(fields, "reset_at", JStr(now))
    case JStr(t) => Some(t)
    case _ => None
  }

  /**
   * `create_github_error(status, response)`. A truthy body that is not a dict has
   * no `.get` (AttributeError); a 429 body whose `reset_at` is not a string is
   * refused by `fromisoformat` (TypeError). Otherwise the error's status is the
   * given status and its kind is the one the table assigns to it.
   */
  function CreateGitHubError(status: int, response: Json, now: string): (r: Result<GitHubError, Exception>)
    ensures !Gettable(response) ==> r == Err(AttributeError)
    ensures (Gettable(response) && status == 429 && ResetAtText(OrEmpty(response).fields, now).None?)
              ==> r == Err(TypeError)
    ensures r.Ok? <==> Gettable(response) && (status == 429 ==> ResetAtText(OrEmpty(response).fields, now).Some?)
    ensures r.Ok? ==> && r.value.status == status
                      && r.value.kind == KindOf(status)
                      && r.value.Name() == KindName(KindOf(status))
                      && WellFormed(r.value)
  {
    var body := OrEmpty(response);
    if !body.JObj? then Err(AttributeError)
    else
      var fields := body.fields;
      var message := Get(fields, "message", JStr("GitHub API error"));
      if status == 401 then Ok(NewAuthenticationError(message))
      else if status == 403 then Ok(NewPermissionError(message))
      else if status == 404 then Ok(NewResourceNotFoundError(Get(fields, "message", JStr("Resource"))))
      else if status == 409 then Ok(NewConflictError(Get(fields, "message", JStr("Conflict occurred"))))
      else if status == 422 then
        Ok(NewValidationError(Get(fields, "message", JStr("Validation failed")), status, body))
      else if status == 429 then
        match ResetAtText(fields, now)
        case None => Err(TypeError)
        case Some(at) => Ok(NewRateLimitError(now, message, Some(at)))
      else Ok(NewGitHubError(message, status, body))
  }

  /**
   * The message of a classified error: the body's `message` when it has one,
   * else the status's default; a 404 wraps it as "Resource not found: ...".
   */
  lemma ClassifiedMessage(status: int, response: Json, now: string)
    requires CreateGitHubError(status, response, now).Ok?
    ensures var m := Get(OrEmpty(response).fields, "message", JStr(DefaultMessage(status)));
            CreateGitHubError(status, response, now).value.message
              == if status == 404 then JStr(NotFoundPrefix + Show(m)) else m
  {
  }

  /**
   * The `response` a classified error carries: 422 and unmapped statuses keep the
   * (normalised) body, 401/403/409 replace it by `{"message": message}`, 404 by
   * `{"message": "<resource> not found"}` and 429 adds `reset_at`.
   */
  lemma ClassifiedResponse(status: int, response: Json, now: string)
    requires CreateGitHubError(status, response, now).Ok?
    ensures var e := CreateGitHubError(status, response, now).value;
            && (status == 422 || status !in StatusKinds ==> e.response == OrEmpty(response))
            && (status in {401, 403, 409} ==> e.response == MessageBody(e.message))
            && (status == 404 ==> e.response == MessageBody(JStr(
                  Show(Get(OrEmpty(response).fields, "message", JStr("Resource"))) + " not found")))
            && (status == 429 ==>
                  && e.resetAt == ResetAtText(OrEmpty(response).fields, now)
                  && e.response == JObj(map["message" := e.message, "reset_at" := JStr(e.resetAt.value)]))
  {
  }

  /** A 429 error's `reset_at` comes from the body when present, else from `now`. */
  lemma RateLimitResetAt(response: Json, now: string)
    requires CreateGitHubError(429, response, now).Ok?
    ensures var fields := OrEmpty(response).fields;
            CreateGitHubError(429, response, now).value.resetAt
              == Some(if "reset_at" in fields then fields["reset_at"].s else now)
  {
  }
}
