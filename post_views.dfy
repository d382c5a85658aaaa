/**
 * The post endpoints: the public listing and detail reads, and the
 * authenticated create, update and delete. Each authenticated handler first
 * needs a usable identity (`jwt_optional`), then works as the user that
 * identity names, if that user still exists. A ValidationError raised by
 * the document layer or by a log save inside the handler's `try` is logged
 * at ERROR with the user's credentials and answered with 400. Any other
 * exception, or one raised while reporting, is a 500.
 */
module PostViews {
  import opened Wrappers
  import opened Common
  import opened BaseModel
  import opened Users
  import opened Posts
  import opened LogModels
  import opened Logging
  import opened Templates

  const AUTH_REQUIRED := "Authorization required"
  const CREATED_MESSAGE := "Post was successfuly created!"
  const UPDATED_MESSAGE := "Post was successfuly updated!"
  const DELETED_MESSAGE := "Post was successfuly deleted!"

  /** `jwt_optional`'s answer to a request without a usable identity. */
  const UNAUTHORIZED := MessageResponse(401, AUTH_REQUIRED)

  /** `get_user_instance_by_jwt_token`: the user the token's identity names, if it is still saved. */
  function Requester(users: UserStore, identity: nat): (r: Option<User>)
    reads users
    ensures r.Some? ==> r.value in users.users && r.value.id == identity
    ensures r.None? <==> forall u :: u in users.users ==> u.id != identity
  {
    users.GetUserById(identity)
  }

  /**
   * The `except ValidationError` branch: the error is logged at ERROR with the
   * user's credentials and answered with 400. Without a user the message
   * cannot be formatted, and a log save that raises escapes too: both are 500.
   */
  function Reported(logger: Logger, records: seq<LogRecord>, user: Option<User>, req: Request, error: string, now: nat)
    : (r: (seq<LogRecord>, Response))
    reads logger
    ensures records <= r.0
    ensures r.1 == ErrorResponse(error) || r.1 == INTERNAL_ERROR
    ensures r.1 == ErrorResponse(error) <==>
      user.Some? && logger.Emit(Error, AuthenticatedErrorLog(user.value, req, error), records, now).1.None?
  {
    if user.None? then (records, INTERNAL_ERROR)
    else
      var (rs, failure) := logger.Emit(Error, AuthenticatedErrorLog(user.value, req, error), records, now);
      (rs, if failure.None? then ErrorResponse(error) else INTERNAL_ERROR)
  }

  /**
   * A user whose email alone is longer than a log message may be can never be
   * answered with 400: the error message carries the email, its save raises,
   * and the request fails with 500.
   */
  lemma OverlongEmailIsInternalError(logger: Logger, records: seq<LogRecord>, u: User, req: Request, error: string, now: nat)
    requires |u.email| > MAX_MESSAGE
    requires logger.IsEnabledFor(Error) && CountDatabase(logger.handlers) > 0
    ensures Reported(logger, records, Some(u), req, error, now) == (records, INTERNAL_ERROR)
  {
    var message := AuthenticatedErrorLog(u, req, error);
    UserMessagesStartWithEmail(u, req, error, 0, [], []);
    assert |message| >= |u.email|;
    LongMessageNeverStored(true, CountDatabase(logger.handlers), records, logger.name, Error.Name(), message, now);
  }

  /**
   * An error longer than a log message may be is never answered with 400:
   * its ERROR record raises and the request fails with 500.
   */
  lemma OverlongErrorIsInternalError(logger: Logger, records: seq<LogRecord>, user: Option<User>, req: Request, error: string, now: nat)
    requires |error| > MAX_MESSAGE
    requires logger.IsEnabledFor(Error) && CountDatabase(logger.handlers) > 0
    ensures Reported(logger, records, user, req, error, now) == (records, INTERNAL_ERROR)
  {
    if user.Some? {
      var message := AuthenticatedErrorLog(user.value, req, error);
      LongMessageNeverStored(true, CountDatabase(logger.handlers), records, logger.name, Error.Name(), message, now);
    }
  }

  method Report(logger: Logger, logs: LogStore, user: Option<User>, req: Request, error: string, now: nat)
    returns (resp: Response)
    requires logs.Valid()
    modifies logs
    ensures logs.Valid()
    ensures (logs.records, resp) == Reported(logger, old(logs.records), user, req, error, now)
  {
    if user.None? {
      return INTERNAL_ERROR;
    }
    var failure := logger.Log(Error, AuthenticatedErrorLog(user.value, req, error), now, logs);
    resp := if failure.None? then ErrorResponse(error) else INTERNAL_ERROR;
  }

  /** What a successful mutation did: the view logs it at INFO and answers with it. */
  datatype Event =
    | Created(post: Post)
    | Changed(before: Post, after: Post, data: Fields)
    | Deleted(postId: nat)

  /** The INFO message for an event, with the requester's credentials. */
  function EventLog(u: User, req: Request, e: Event): string
  {
    match e
    case Created(p) => CreatedRecordLog(u, req, p.id)
    case Changed(before, _, data) => ChangedRecordLog(u, AsRecord(before), data, req)
    case Deleted(id) => DeletedRecordLog(u, req, id)
  }

  /** The post an event answers with can be serialised: it still has an author. */
  predicate Answerable(e: Event)
  {
    match e
    case Created(p) => p.author.Some?
    case Changed(_, after, _) => after.author.Some?
    case Deleted(_) => true
  }

  /**
   * The answer for an event, built after the handler's `try`: 200 with the
   * post, or 500 when the post has no author and `to_json` raises.
   */
  function EventResponse(e: Event): (resp: Response)
    ensures resp.status == 200 <==> Answerable(e)
    ensures !Answerable(e) ==> resp == INTERNAL_ERROR
  {
    match e
    case Created(p) =>
      if p.author.None? then INTERNAL_ERROR
      else Response(200, JObj([("message", JStr(CREATED_MESSAGE)), ("post", Posts.ToJson(p).value)]))
    case Changed(_, after, _) =>
      if after.author.None? then INTERNAL_ERROR
      else Response(200, JObj([("message", JStr(UPDATED_MESSAGE)), ("post", Posts.ToJson(after).value)]))
    case Deleted(_) => MessageResponse(200, DELETED_MESSAGE)
  }

  /**
   * The `try` / `except ValidationError` shape of the authenticated views,
   * given what the store did: a success is logged at INFO and answered with
   * 200; a ValidationError, from the store or from that log save, goes to the
   * reporting branch; any other exception is a 500 and logs nothing, except
   * that a post left without an author fails only after its INFO record.
   */
  function Answered(logger: Logger, records: seq<LogRecord>, user: Option<User>, outcome: DbResult<Event>, req: Request, now: nat)
    : (r: (seq<LogRecord>, Response))
    reads logger
    ensures records <= r.0
    ensures r.1.status == 200 <==>
      && outcome.Ok? && user.Some? && Answerable(outcome.value)
      && logger.Emit(Info, EventLog(user.value, req, outcome.value), records, now).1.None?
    ensures outcome.Ok? && user.Some? && logger.Emit(Info, EventLog(user.value, req, outcome.value), records, now).1.None? ==>
      r == (logger.Emit(Info, EventLog(user.value, req, outcome.value), records, now).0, EventResponse(outcome.value))
    ensures r.1.status != 200 ==> r.1 == INTERNAL_ERROR || r.1.status == 400
    ensures r.1 == INTERNAL_ERROR && (outcome.Ok? ==> Answerable(outcome.value)) ==> r.0 == records
    ensures outcome.Unhandled? || user.None? ==> r.1 == INTERNAL_ERROR
    ensures outcome.Invalid? ==> r == Reported(logger, records, user, req, outcome.message, now)
  {
    match outcome
    case Unhandled(_) => (records, INTERNAL_ERROR)
    case Invalid(message) => Reported(logger, records, user, req, message, now)
    case Ok(e) =>
      if user.None? then (records, INTERNAL_ERROR)
      else
        var (rs, failure) := logger.Emit(Info, EventLog(user.value, req, e), records, now);
        if failure.None? then (rs, EventResponse(e)) else Reported(logger, rs, user, req, failure.value, now)
  }

  /**
   * A successful update that left the post without an author is logged at
   * INFO and then answered with 500: the change and its record both stay.
   */
  lemma UnanswerableAfterLogging(logger: Logger, records: seq<LogRecord>, u: User, e: Event, req: Request, now: nat)
    requires !Answerable(e)
    requires logger.Emit(Info, EventLog(u, req, e), records, now).1.None?
    ensures Answered(logger, records, Some(u), Ok(e), req, now)
         == (logger.Emit(Info, EventLog(u, req, e), records, now).0, INTERNAL_ERROR)
  {
  }

  /**
   * With the application's logger (one database handler, INFO enabled), every
   * answer leaves exactly one new record: an INFO record of the event for a
   * 200, an ERROR record of the reported error for a 400, and for a 500 none,
   * unless the event's post could not be serialised after its INFO record.
   */
  lemma OneRecordPerAnswer(logger: Logger, records: seq<LogRecord>, user: Option<User>, outcome: DbResult<Event>, req: Request, now: nat)
    requires logger.IsEnabledFor(Info) && CountDatabase(logger.handlers) == 1
    ensures var r := Answered(logger, records, user, outcome, req, now);
      r.1.status == 200 ==>
        r.0 == records + [LogRecord(|records|, logger.name, "INFO", EventLog(user.value, req, outcome.value), now)]
    ensures var r := Answered(logger, records, user, outcome, req, now);
      r.1.status == 400 ==> (user.Some? &&
        r.0 == records + [LogRecord(|records|, logger.name, "ERROR", AuthenticatedErrorLog(user.value, req, r.1.body.members[0].1.s), now)])
    ensures var r := Answered(logger, records, user, outcome, req, now);
      r.1.status == 500 ==> (
        || r.0 == records
        || (&& outcome.Ok? && !Answerable(outcome.value)
            && r.0 == records + [LogRecord(|records|, logger.name, "INFO", EventLog(user.value, req, outcome.value), now)]))
  {
    var r := Answered(logger, records, user, outcome, req, now);
    if r.1.status == 200 || (r.1.status == 500 && outcome.Ok? && !Answerable(outcome.value) && r.0 != records) {
      InfoRecordOnce(logger, records, user, outcome, req, now);
    } else if r.1.status == 400 {
      ErrorRecordOnce(logger, records, user, outcome, req, now);
    }
  }

  /** A 200, or a 500 after the INFO record, leaves exactly that record. */
  lemma InfoRecordOnce(logger: Logger, records: seq<LogRecord>, user: Option<User>, outcome: DbResult<Event>, req: Request, now: nat)
    requires logger.IsEnabledFor(Info) && CountDatabase(logger.handlers) == 1
    requires var r := Answered(logger, records, user, outcome, req, now);
      r.1.status == 200 || (r.1.status == 500 && outcome.Ok? && !Answerable(outcome.value) && r.0 != records)
    ensures outcome.Ok? && user.Some?
    ensures Answered(logger, records, user, outcome, req, now).0
         == records + [LogRecord(|records|, logger.name, "INFO", EventLog(user.value, req, outcome.value), now)]
  {
    assert outcome.Ok? && user.Some?;
    assert logger.Emit(Info, EventLog(user.value, req, outcome.value), records, now).1.None?;
    EmittedOnce(records, logger.name, "INFO", EventLog(user.value, req, outcome.value), now);
  }

  /** A 400 leaves exactly the ERROR record of the error it answers with. */
  lemma ErrorRecordOnce(logger: Logger, records: seq<LogRecord>, user: Option<User>, outcome: DbResult<Event>, req: Request, now: nat)
    requires logger.IsEnabledFor(Info) && CountDatabase(logger.handlers) == 1
    requires Answered(logger, records, user, outcome, req, now).1.status == 400
    ensures var r := Answered(logger, records, user, outcome, req, now);
      user.Some? &&
      r.0 == records + [LogRecord(|records|, logger.name, "ERROR", AuthenticatedErrorLog(user.value, req, r.1.body.members[0].1.s), now)]
  {
    match outcome
    case Invalid(message) =>
      ReportedOnce(logger, records, user, req, message, now);
    case Ok(e) =>
      var failure := logger.Emit(Info, EventLog(user.value, req, e), records, now).1;
      ReportedOnce(logger, records, user, req, failure.value, now);
  }

  /** A reported error answered with 400 leaves exactly its ERROR record. */
  lemma ReportedOnce(logger: Logger, records: seq<LogRecord>, user: Option<User>, req: Request, error: string, now: nat)
    requires logger.IsEnabledFor(Info) && CountDatabase(logger.handlers) == 1
    requires Reported(logger, records, user, req, error, now).1.status == 400
    ensures user.Some?
    ensures Reported(logger, records, user, req, error, now)
         == (records + [LogRecord(|records|, logger.name, "ERROR", AuthenticatedErrorLog(user.value, req, error), now)], ErrorResponse(error))
  {
    var message := AuthenticatedErrorLog(user.value, req, error);
    assert logger.Emit(Error, message, records, now).1.None?;
    assert logger.IsEnabledFor(Error);
    EmittedOnce(records, logger.name, "ERROR", message, now);
  }

  method Answer(logger: Logger, logs: LogStore, user: Option<User>, outcome: DbResult<Event>, req: Request, now: nat)
    returns (resp: Response)
    requires logs.Valid()
    modifies logs
    ensures logs.Valid()
    ensures (logs.records, resp) == Answered(logger, old(logs.records), user, outcome, req, now)
  {
    match outcome
    case Unhandled(_) =>
      resp := INTERNAL_ERROR;
    case Invalid(message) =>
      resp := Report(logger, logs, user, req, message, now);
    case Ok(e) =>
      if user.None? {
        return INTERNAL_ERROR;
      }
      var failure := logger.Log(Info, EventLog(user.value, req, e), now, logs);
      if failure.Some? {
        resp := Report(logger, logs, user, req, failure.value, now);
      } else {
        resp := EventResponse(e);
      }
  }

  // ---- reads ----

  /** An object id in extended JSON. */
  function OidJson(id: nat): Json
  {
    JObj([("$oid", JStr(DecimalText(id)))])
  }

  /**
   * A post as the query set serialises it: the raw stored document, with the
   * class marker inheritance stores, object ids in extended JSON, and a null
   * author left as null.
   */
  function RawDocument(p: Post): (j: Json)
    ensures j.JObj? && JsonKeys(j.members) == ["_id", "_cls", "title", "text", "author"]
    ensures j.members[1].1 == JStr(POSTS_CLASS)
    ensures j.members[4].1 == JNull <==> p.author.None?
  {
    JObj([("_id", OidJson(p.id)), ("_cls", JStr(POSTS_CLASS)), ("title", JStr(p.title)), ("text", JStr(p.text)),
          ("author", if p.author.Some? then OidJson(p.author.value) else JNull)])
  }

  function Listing(ps: seq<Post>): (j: Json)
    ensures j.JArr? && |j.items| == |ps|
  {
    JArr(seq(|ps|, i requires 0 <= i < |ps| => RawDocument(ps[i])))
  }

  /** `GET /posts`: log the call, then list every post in insertion order; a log save that raises is a 500. */
  method ListPosts(posts: PostStore, logger: Logger, logs: LogStore, req: Request, now: nat) returns (resp: Response)
    requires logs.Valid()
    modifies logs
    ensures logs.Valid()
    ensures logs.records == logger.Emit(Info, EndpointCalledLog(req), old(logs.records), now).0
    ensures resp.status == 200 <==> logger.Emit(Info, EndpointCalledLog(req), old(logs.records), now).1.None?
    ensures resp.status == 200 ==> resp == Response(200, JObj([("posts", Listing(posts.GetAllPosts()))]))
    ensures resp.status != 200 ==> resp == INTERNAL_ERROR
  {
    var failure := logger.Log(Info, EndpointCalledLog(req), now, logs);
    if failure.Some? {
      return INTERNAL_ERROR;
    }
    resp := Response(200, JObj([("posts", Listing(posts.GetAllPosts()))]));
  }

  /**
   * `GET /posts/<id>`: log the call, then show the post. The lookup's
   * ValidationError for a missing post is not caught here, so it is a 500,
   * and so is a post without an author, which `to_json` cannot serialise.
   */
  method GetPost(posts: PostStore, logger: Logger, logs: LogStore, postId: nat, req: Request, now: nat) returns (resp: Response)
    requires logs.Valid()
    modifies logs
    ensures logs.Valid()
    ensures logs.records == logger.Emit(Info, EndpointCalledLog(req), old(logs.records), now).0
    ensures resp.status == 200 <==>
      && logger.Emit(Info, EndpointCalledLog(req), old(logs.records), now).1.None?
      && postId in posts.posts && posts.posts[postId].author.Some?
    ensures resp.status == 200 ==> resp == Response(200, JObj([("posts", Posts.ToJson(posts.posts[postId]).value)]))
    ensures resp.status != 200 ==> resp == INTERNAL_ERROR
  {
    var failure := logger.Log(Info, EndpointCalledLog(req), now, logs);
    if failure.Some? {
      return INTERNAL_ERROR;
    }
    var found := posts.GetPostById(postId);
    if found.Failure? {
      return INTERNAL_ERROR;
    }
    var json := Posts.ToJson(found.value);
    if json.None? {
      return INTERNAL_ERROR;
    }
    resp := Response(200, JObj([("posts", json.value)]));
  }

  // ---- create ----

  /** The `author` argument the view adds: the requesting user, or None when it no longer exists. */
  function AuthorArgument(user: Option<User>): Value
  {
    if user.Some? then Ref(user.value.id) else Null
  }

  /**
   * `make_a_post(**data, author=current_user)`: a request body that already
   * has an `author` or a `cls` key makes the call itself fail with a
   * TypeError.
   */
  function CreateResult(user: Option<User>, nextId: nat, data: Fields): (r: DbResult<Post>)
    ensures "author" in Keys(data) ==> r.Unhandled?
    ensures "cls" in Keys(data) ==> r.Unhandled?
  {
    if "author" in Keys(data) then Unhandled("TypeError: multiple values for keyword argument 'author'")
    else
      var args := data + [("author", AuthorArgument(user))];
      assert "cls" in Keys(data) ==> BoundParameter(args, MAKE_A_POST_BOUND).Some? by {
        if "cls" in Keys(data) {
          var i :| 0 <= i < |data| && Keys(data)[i] == "cls";
          assert args[i].0 == "cls";
        }
      }
      MakeAPostResult(nextId, args)
  }

  /** A created post always belongs to the user who sent the request, whatever the body says. */
  lemma CreatedByRequester(user: Option<User>, nextId: nat, data: Fields)
    requires CreateResult(user, nextId, data).Ok?
    ensures user.Some?
    ensures CreateResult(user, nextId, data).value.author == Some(user.value.id)
    ensures CreateResult(user, nextId, data).value.id == nextId
  {
    var args := data + [("author", AuthorArgument(user))];
    CreatedPostFacts(nextId, args);
    var p := MakeAPostResult(nextId, args).value;
    assert ("author", Ref(p.author.value)) in args;
  }

  /** A user who no longer exists cannot create a post: the author is missing. */
  lemma DeletedUserCannotCreate(nextId: nat, data: Fields)
    ensures !CreateResult(None, nextId, data).Ok?
  {
    if CreateResult(None, nextId, data).Ok? {
      CreatedByRequester(None, nextId, data);
    }
  }

  function CreateOutcome(made: DbResult<Post>): DbResult<Event>
  {
    match made
    case Ok(p) => Ok(Created(p))
    case Invalid(m) => Invalid(m)
    case Unhandled(x) => Unhandled(x)
  }

  /**
   * `POST /posts`: create the post as the requester, then log the creation.
   * The post stays saved even when that log save raises and the answer is
   * the error branch's.
   */
  method CreatePost(users: UserStore, posts: PostStore, logger: Logger, logs: LogStore,
                    identity: Option<nat>, data: Fields, req: Request, now: nat) returns (resp: Response)
    requires posts.Valid() && logs.Valid()
    modifies posts, logs
    ensures posts.Valid() && logs.Valid()
    ensures identity.None? ==>
      && resp == UNAUTHORIZED && posts.posts == old(posts.posts) && posts.nextId == old(posts.nextId)
      && logs.records == old(logs.records)
    ensures identity.Some? ==>
      var user := Requester(users, identity.value);
      var made := CreateResult(user, old(posts.nextId), data);
      && posts.posts == (if made.Ok? then old(posts.posts)[made.value.id := made.value] else old(posts.posts))
      && posts.nextId == old(posts.nextId) + (if made.Ok? then 1 else 0)
      && (logs.records, resp) == Answered(logger, old(logs.records), user, CreateOutcome(made), req, now)
  {
    if identity.None? {
      return UNAUTHORIZED;
    }
    var user := Requester(users, identity.value);
    if "author" in Keys(data) {
      return INTERNAL_ERROR;
    }
    var made := posts.MakeAPost(data + [("author", AuthorArgument(user))]);
    resp := Answer(logger, logs, user, CreateOutcome(made), req, now);
  }

  // ---- update ----

  /** The lookup, then `update_fields`: what the store does with a PATCH, and what it changed. */
  function PatchOutcome(posts: map<nat, Post>, postId: nat, user: Option<User>, data: Fields): (r: DbResult<Event>)
    ensures postId !in posts ==> r == Invalid(NotFoundMessage(postId))
    ensures postId in posts && BoundParameter(data, UPDATE_FIELDS_BOUND + ARE_FIELDS_VALID_BOUND).Some? ==> r.Unhandled?
    ensures r.Ok? ==> postId in posts && r.value == Changed(posts[postId], Applied(posts[postId], data), data)
  {
    if postId !in posts then Invalid(NotFoundMessage(postId))
    else
      var p := posts[postId];
      match UpdateCheck(p, user, data)
      case Ok(_) => Ok(Changed(p, Applied(p, data), data))
      case Invalid(m) => Invalid(m)
      case Unhandled(x) => Unhandled(x)
  }

  /**
   * Only a requester equal to the author of an existing post can change it
   * (a user its author, or no user on an authorless post), only with a
   * non-empty body of declared fields, and the change keeps the field
   * constraints.
   */
  lemma OnlyAuthorPatches(posts: map<nat, Post>, postId: nat, user: Option<User>, data: Fields)
    requires PatchOutcome(posts, postId, user, data).Ok?
    requires postId in posts ==> WellFormed(posts[postId]) && posts[postId].id == postId
    ensures postId in posts && posts[postId].author == AsAuthor(user)
    ensures user.Some? ==> posts[postId].author == Some(user.value.id)
    ensures AreFieldsValid(POST_FIELDS, data).Pass? && data != []
    ensures var e := PatchOutcome(posts, postId, user, data).value;
      e.before == posts[postId] && e.after.id == postId && WellFormed(e.after)
  {
    AppliedKeepsWellFormed(posts[postId], data);
  }

  /**
   * A body key that names one of the called function's own parameters is a
   * TypeError: the request is a 500 that writes no record and changes no post.
   */
  lemma CollidingKeywordsAreInternalErrors(logger: Logger, records: seq<LogRecord>, user: Option<User>, posts: map<nat, Post>,
                                           postId: nat, nextId: nat, data: Fields, req: Request, now: nat)
    ensures "cls" in Keys(data) ==>
      Answered(logger, records, user, CreateOutcome(CreateResult(user, nextId, data)), req, now) == (records, INTERNAL_ERROR)
    ensures postId in posts && BoundParameter(data, UPDATE_FIELDS_BOUND + ARE_FIELDS_VALID_BOUND).Some? ==>
      && !PatchOutcome(posts, postId, user, data).Ok?
      && Answered(logger, records, user, PatchOutcome(posts, postId, user, data), req, now) == (records, INTERNAL_ERROR)
  {
  }

  /**
   * The author of a post can clear its author with `{"author": null}`: the
   * update passes and is written, it is logged at INFO, and the answer is
   * then a 500 because the post can no longer be serialised.
   */
  lemma OwnerClearsAuthor(logger: Logger, records: seq<LogRecord>, posts: map<nat, Post>, postId: nat, u: User,
                          req: Request, now: nat)
    requires postId in posts && posts[postId].author == Some(u.id)
    ensures var data := [("author", Null)];
      PatchOutcome(posts, postId, Some(u), data) == Ok(Changed(posts[postId], posts[postId].(author := None), data))
    ensures var data := [("author", Null)];
      var e := Changed(posts[postId], posts[postId].(author := None), data);
      logger.Emit(Info, EventLog(u, req, e), records, now).1.None? ==>
        Answered(logger, records, Some(u), PatchOutcome(posts, postId, Some(u), data), req, now)
          == (logger.Emit(Info, EventLog(u, req, e), records, now).0, INTERNAL_ERROR)
  {
    var p := posts[postId];
    var data: Fields := [("author", Null)];
    assert Keys(data) == ["author"];
    assert BoundParameter(data, UPDATE_FIELDS_BOUND + ARE_FIELDS_VALID_BOUND).None?;
    assert AreFieldsValid(POST_FIELDS, data).Pass?;
    assert UpdateValueError(data).None? by {
      assert UpdateValueErrorOf("author", Null).None?;
      assert data[1..] == [];
    }
    assert UpdateCheck(p, Some(u), data) == Ok(());
    assert Applied(p, data) == Applied(p.(author := None), data[1..]);
    assert data[1..] == [];
  }

  /**
   * A token whose user no longer exists resolves to no user, and no user
   * passes the guard on a post whose author was cleared: the update or the
   * deletion is written, then the INFO message needs the user's email, so
   * the answer is a 500 and no record is written.
   */
  lemma NoUserChangesAuthorlessPost(logger: Logger, records: seq<LogRecord>, posts: map<nat, Post>, postId: nat,
                                    data: Fields, req: Request, now: nat)
    requires postId in posts && posts[postId].author.None?
    ensures DeleteOutcome(posts, postId, None) == Ok(Deleted(postId))
    ensures Answered(logger, records, None, DeleteOutcome(posts, postId, None), req, now) == (records, INTERNAL_ERROR)
    ensures UpdateCheck(posts[postId], None, data).Ok? ==>
      && PatchOutcome(posts, postId, None, data) == Ok(Changed(posts[postId], Applied(posts[postId], data), data))
      && Answered(logger, records, None, PatchOutcome(posts, postId, None, data), req, now) == (records, INTERNAL_ERROR)
  {
  }

  /**
   * `PATCH /posts/<id>`: look the post up, update it as the requester, log the
   * change (the old values come from the post as it was before the update),
   * then answer with the reloaded post. The update stays even when the log
   * save raises.
   */
  method PatchPost(users: UserStore, posts: PostStore, logger: Logger, logs: LogStore,
                   identity: Option<nat>, postId: nat, data: Fields, req: Request, now: nat) returns (resp: Response)
    requires posts.Valid() && logs.Valid()
    modifies posts, logs
    ensures posts.Valid() && logs.Valid() && posts.nextId == old(posts.nextId)
    ensures identity.None? ==>
      resp == UNAUTHORIZED && posts.posts == old(posts.posts) && logs.records == old(logs.records)
    ensures identity.Some? ==>
      var user := Requester(users, identity.value);
      var r := PatchOutcome(old(posts.posts), postId, user, data);
      && posts.posts == (if r.Ok? then old(posts.posts)[postId := r.value.after] else old(posts.posts))
      && (logs.records, resp) == Answered(logger, old(logs.records), user, r, req, now)
  {
    if identity.None? {
      return UNAUTHORIZED;
    }
    var user := Requester(users, identity.value);
    if postId !in posts.posts {
      resp := Answer(logger, logs, user, Invalid(NotFoundMessage(postId)), req, now);
      return;
    }
    var post := posts.posts[postId];
    var checked := posts.UpdateFields(postId, user, data);
    var outcome := match checked
      case Ok(_) => Ok(Changed(post, posts.posts[postId], data))
      case Invalid(m) => Invalid(m)
      case Unhandled(x) => Unhandled(x);
    resp := Answer(logger, logs, user, outcome, req, now);
  }

  // ---- delete ----

  /** The lookup, then `delete_post`: what the store does with a DELETE. */
  function DeleteOutcome(posts: map<nat, Post>, postId: nat, user: Option<User>): (r: DbResult<Event>)
    ensures r.Ok? <==> postId in posts && posts[postId].author == AsAuthor(user)
    ensures r.Ok? && user.Some? ==> posts[postId].author == Some(user.value.id)
    ensures r.Ok? ==> r.value == Deleted(postId)
    ensures !r.Unhandled?
  {
    if postId !in posts then Invalid(NotFoundMessage(postId))
    else match AccessError(posts[postId], user)
      case Some(message) => Invalid(message)
      case None => Ok(Deleted(postId))
  }

  /**
   * `DELETE /posts/<id>`: look the post up, delete it as the requester, then
   * log the deletion. The post stays deleted even when the log save raises.
   */
  method DeletePost(users: UserStore, posts: PostStore, logger: Logger, logs: LogStore,
                    identity: Option<nat>, postId: nat, req: Request, now: nat) returns (resp: Response)
    requires posts.Valid() && logs.Valid()
    modifies posts, logs
    ensures posts.Valid() && logs.Valid() && posts.nextId == old(posts.nextId)
    ensures identity.None? ==>
      resp == UNAUTHORIZED && posts.posts == old(posts.posts) && logs.records == old(logs.records)
    ensures identity.Some? ==>
      var user := Requester(users, identity.value);
      var r := DeleteOutcome(old(posts.posts), postId, user);
      && posts.posts == (if r.Ok? then old(posts.posts) - {postId} else old(posts.posts))
      && (logs.records, resp) == Answered(logger, old(logs.records), user, r, req, now)
  {
    if identity.None? {
      return UNAUTHORIZED;
    }
    var user := Requester(users, identity.value);
    if postId !in posts.posts {
      resp := Answer(logger, logs, user, Invalid(NotFoundMessage(postId)), req, now);
      return;
    }
    var deleted := posts.DeletePost(postId, user);
    var outcome := if deleted.Ok? then Ok(Deleted(postId)) else Invalid(deleted.message);
    resp := Answer(logger, logs, user, outcome, req, now);
  }
}
