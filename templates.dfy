/**
 * The log-message templates (`LoggerMessageTemplates`): each message is built
 * by Python `%` formatting, where a missing first or last name prints as
 * `None`, a list and a dict print as their `repr`, and a record id prints in
 * decimal here.
 */
module Templates {
  import opened Wrappers
  import opened Common
  import opened BaseModel
  import opened Users

  /** `str` of an optional string field. */
  function NoneOr(n: Option<string>): string
  {
    if n.Some? then n.value else "None"
  }

  /**
   * The credentials prefix: `email, first last ` (note the trailing space).
   * It opens with the email, and a missing name still takes four characters.
   */
  function Credentials(u: User): (r: string)
    ensures |r| == |u.email| + |NoneOr(u.firstName)| + |NoneOr(u.lastName)| + 4
    ensures r[..|u.email|] == u.email
  {
    assert u.email + ", " + NoneOr(u.firstName) + " " + NoneOr(u.lastName) + " "
        == u.email + (", " + NoneOr(u.firstName) + " " + NoneOr(u.lastName) + " ");
    u.email + ", " + NoneOr(u.firstName) + " " + NoneOr(u.lastName) + " "
  }

  /*
   * The length of each message, which decides whether the log store can save
   * it (at most 512 characters), follows from the lengths of its parts.
   */

  function CreatedUserLog(u: User): (r: string)
    ensures |r| == |Credentials(u)| + 29
  {
    "User " + (Credentials(u) + "was created successfully")
  }

  function LoggedUserLog(u: User): (r: string)
    ensures |r| == |Credentials(u)| + 18
  {
    "User " + (Credentials(u) + "has logged in")
  }

  /** A text in double quotes, as the error templates print an error. */
  function Quoted(s: string): string
  {
    "\"" + s + "\""
  }

  function ErrorLog(error: string, req: Request): (r: string)
    ensures |r| == |error| + |req.path| + |req.verb| + 35
  {
    "Error " + Quoted(error) + (" occurred in " + req.path + " with method: " + req.verb)
  }

  function AuthenticatedErrorLog(u: User, req: Request, error: string): (r: string)
    ensures |r| == |Credentials(u)| + |error| + |req.path| + |req.verb| + 33
    ensures r[..|Credentials(u)|] == Credentials(u)
  {
    Credentials(u) + "got an error " + Quoted(error) + (" in " + req.path + " with method: " + req.verb)
  }

  function EndpointEnterLog(u: User, req: Request): (r: string)
    ensures |r| == |Credentials(u)| + |req.path| + |req.verb| + 26
    ensures r[..|Credentials(u)|] == Credentials(u)
  {
    Credentials(u) + ("entered the " + req.path + " with method: " + req.verb)
  }

  function CreatedRecordLog(u: User, req: Request, recordId: nat): (r: string)
    ensures |r| == |Credentials(u)| + |DecimalText(recordId)| + |req.path| + 53
    ensures r[..|Credentials(u)|] == Credentials(u)
  {
    Credentials(u) + ("created a new record at " + COLLECTION + " table with id " + DecimalText(recordId) + " in " + req.path)
  }

  /**
   * The record's values of the fields the request changes, in the record's
   * field order (`old_field_version`).
   */
  function OldVersion(record: Fields, data: Fields): (r: Fields)
    ensures forall kv :: kv in r <==> kv in record && kv.0 in Keys(data)
    ensures |r| <= |record|
  {
    if record == [] then []
    else (if record[0].0 in Keys(data) then [record[0]] else []) + OldVersion(record[1..], data)
  }

  /**
   * The old values follow the record's field order: the pairs of earlier
   * fields always come first, whatever order the request names them in.
   */
  lemma {:induction false} OldVersionFollowsRecord(a: Fields, b: Fields, data: Fields)
    ensures OldVersion(a + b, data) == OldVersion(a, data) + OldVersion(b, data)
  {
    if a == [] {
      assert a + b == b;
    } else {
      assert (a + b)[1..] == a[1..] + b;
      OldVersionFollowsRecord(a[1..], b, data);
    }
  }

  /** Only which keys the request names matters, never their order or values. */
  lemma {:induction false} OldVersionIgnoresRequestOrder(record: Fields, d1: Fields, d2: Fields)
    requires forall k :: k in Keys(d1) <==> k in Keys(d2)
    ensures OldVersion(record, d1) == OldVersion(record, d2)
  {
    if record != [] {
      OldVersionIgnoresRequestOrder(record[1..], d1, d2);
    }
  }

  /** The record id is part of the template's arguments but the text never prints it. */
  function ChangedRecordLog(u: User, record: Fields, data: Fields, req: Request): (r: string)
    ensures |r| > |Credentials(u)| && r[..|Credentials(u)|] == Credentials(u)
  {
    var before := OldVersion(record, data);
    Credentials(u)
    + ("changed " + PyList(Keys(before)) + " from " + PyDict(before) + " to " + PyDict(data)
       + " at " + COLLECTION + " in " + req.path)
  }

  function DeletedRecordLog(u: User, req: Request, recordId: nat): (r: string)
    ensures |r| == |Credentials(u)| + |DecimalText(recordId)| + |req.path| + 47
    ensures r[..|Credentials(u)|] == Credentials(u)
  {
    Credentials(u) + ("deleted record at " + COLLECTION + " table with id " + DecimalText(recordId) + " in " + req.path)
  }

  function EndpointCalledLog(req: Request): (r: string)
    ensures |r| == |req.path| + |req.verb| + 24
    ensures r[..|req.path|] == req.path
  {
    req.path + " was called with method " + req.verb
  }

  // ---- properties of the templates ----

  lemma PrefixOfConcat(a: string, b: string, n: nat)
    requires n <= |a|
    ensures (a + b)[..n] == a[..n]
  {
  }

  /** Whatever follows the credentials, the text opens with the user's email. */
  lemma StartsWithEmail(u: User, tail: string)
    ensures (Credentials(u) + tail)[..|u.email|] == u.email
  {
    assert Credentials(u) + tail == u.email + (", " + NoneOr(u.firstName) + " " + NoneOr(u.lastName) + " " + tail);
  }

  /** The account messages name the user's email right after `User `. */
  lemma AccountMessagesStartWithEmail(u: User)
    ensures CreatedUserLog(u)[5..5 + |u.email|] == u.email
    ensures LoggedUserLog(u)[5..5 + |u.email|] == u.email
  {
    StartsWithEmail(u, "was created successfully");
    AfterPrefix("User ", Credentials(u) + "was created successfully", |u.email|);
    StartsWithEmail(u, "has logged in");
    AfterPrefix("User ", Credentials(u) + "has logged in", |u.email|);
  }

  lemma AfterPrefix(a: string, b: string, n: nat)
    requires n <= |b|
    ensures (a + b)[|a|..|a| + n] == b[..n]
  {
  }

  /**
   * Every other message about a user opens with that user's email, so the
   * messages of one user share a prefix.
   */
  lemma UserMessagesStartWithEmail(u: User, req: Request, error: string, id: nat, record: Fields, data: Fields)
    ensures AuthenticatedErrorLog(u, req, error)[..|u.email|] == u.email
    ensures CreatedRecordLog(u, req, id)[..|u.email|] == u.email
    ensures ChangedRecordLog(u, record, data, req)[..|u.email|] == u.email
    ensures DeletedRecordLog(u, req, id)[..|u.email|] == u.email
  {
    var c := Credentials(u);
    StartsWithEmail(u, "got an error ");
    PrefixOfConcat(c + "got an error ", Quoted(error), |u.email|);
    PrefixOfConcat(c + "got an error " + Quoted(error), " in " + req.path + " with method: " + req.verb, |u.email|);
    StartsWithEmail(u, "created a new record at " + COLLECTION + " table with id " + DecimalText(id) + " in " + req.path);
    var before := OldVersion(record, data);
    StartsWithEmail(u, "changed " + PyList(Keys(before)) + " from " + PyDict(before) + " to " + PyDict(data)
       + " at " + COLLECTION + " in " + req.path);
    StartsWithEmail(u, "deleted record at " + COLLECTION + " table with id " + DecimalText(id) + " in " + req.path);
  }

  lemma MiddleOf(a: string, b: string, c: string)
    ensures (a + b + c)[|a|..|a| + |b|] == b
  {
  }

  /** Both error messages quote the error text verbatim, right after the fixed opening. */
  lemma ErrorMessagesQuoteTheError(u: User, req: Request, error: string)
    ensures ErrorLog(error, req)[6..8 + |error|] == Quoted(error)
    ensures var k := |Credentials(u)| + 13;
      AuthenticatedErrorLog(u, req, error)[k..k + 2 + |error|] == Quoted(error)
  {
    MiddleOf("Error ", Quoted(error), " occurred in " + req.path + " with method: " + req.verb);
    MiddleOf(Credentials(u) + "got an error ", Quoted(error), " in " + req.path + " with method: " + req.verb);
  }

  // ---- the messages the test suite looks for ----

  /** The account used throughout the test suite. */
  function TestUser(id: nat, passwordHash: string): User
  {
    User(id, "test@example.com", Some("Test"), Some("User"), passwordHash)
  }

  lemma TestUserCredentials(id: nat, passwordHash: string)
    ensures Credentials(TestUser(id, passwordHash)) == "test@example.com, Test User "
  {
    var u := TestUser(id, passwordHash);
    assert NoneOr(u.firstName) == "Test" && NoneOr(u.lastName) == "User";
    assert "test@example.com" + ", " == "test@example.com, ";
    assert "test@example.com, " + "Test" == "test@example.com, Test";
    assert "test@example.com, Test" + " " == "test@example.com, Test ";
    assert "test@example.com, Test " + "User" == "test@example.com, Test User";
    assert "test@example.com, Test User" + " " == "test@example.com, Test User ";
  }

  /** The message of a registration. */
  lemma CreatedUserMessage(id: nat, passwordHash: string)
    ensures CreatedUserLog(TestUser(id, passwordHash)) == "User " + "test@example.com, Test User " + "was created successfully"
  {
    TestUserCredentials(id, passwordHash);
  }

  /** The message of a login. */
  lemma LoggedUserMessage(id: nat, passwordHash: string)
    ensures LoggedUserLog(TestUser(id, passwordHash)) == "User " + "test@example.com, Test User " + "has logged in"
  {
    TestUserCredentials(id, passwordHash);
  }

  /**
   * The record messages of the test account, as the test suite looks for
   * them: the credentials, then the table name `base_model` and the record id
   * (created, deleted) or the quoted error (a failure).
   */
  lemma TestUserRecordMessages(id: nat, passwordHash: string, req: Request, recordId: nat, error: string)
    ensures CreatedRecordLog(TestUser(id, passwordHash), req, recordId)
         == "test@example.com, Test User " + ("created a new record at " + "base_model" + " table with id " + DecimalText(recordId) + " in " + req.path)
    ensures DeletedRecordLog(TestUser(id, passwordHash), req, recordId)
         == "test@example.com, Test User " + ("deleted record at " + "base_model" + " table with id " + DecimalText(recordId) + " in " + req.path)
    ensures AuthenticatedErrorLog(TestUser(id, passwordHash), req, error)
         == "test@example.com, Test User " + "got an error " + Quoted(error) + (" in " + req.path + " with method: " + req.verb)
  {
    TestUserCredentials(id, passwordHash);
  }

  /**
   * In the message of an update of title and text, the changed fields and
   * their old values follow the record's field order, whatever the order of
   * the request.
   */
  lemma ChangedPostFields(author: nat)
    ensures var record := [("id", Other("ObjectId", true)), ("title", Str("Test Post")), ("text", Str("This is a test post.")),
                           ("author", Ref(author))];
      var data := [("text", Str("This is an updated test post.")), ("title", Str("Updated Test Post"))];
      OldVersion(record, data) == [("title", Str("Test Post")), ("text", Str("This is a test post."))]
  {
    var record := [("id", Other("ObjectId", true)), ("title", Str("Test Post")), ("text", Str("This is a test post.")),
                   ("author", Ref(author))];
    var data := [("text", Str("This is an updated test post.")), ("title", Str("Updated Test Post"))];
    assert Keys(data) == ["text", "title"];
    assert "id" !in Keys(data) && "author" !in Keys(data);
    assert record[3..][1..] == [];
    assert OldVersion(record[3..], data) == [];
    assert record[2..][1..] == record[3..];
    assert OldVersion(record[2..], data) == [record[2]];
    assert record[1..][1..] == record[2..];
    assert OldVersion(record[1..], data) == [record[1], record[2]];
  }

  /** The field names print as a Python list. */
  lemma ChangedFieldNames()
    ensures PyList(["title", "text"]) == "['title', 'text']"
  {
    var q := seq(2, i requires 0 <= i < 2 => PyStr(["title", "text"][i]));
    assert q[0] == "'title'" && q[1] == "'text'";
    assert JoinComma(q) == q[0] + ", " + JoinComma(q[1..]);
    assert JoinComma(q[1..]) == q[1];
  }
}
