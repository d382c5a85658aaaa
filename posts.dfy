/**
 * The Posts document and the store of saved posts: creation with the field-set
 * check and the save-time constraints, lookup, listing, the ownership guard,
 * update and delete, and the cascade when an author is deleted.
 */
module Posts {
  import opened Wrappers
  import opened Common
  import opened BaseModel
  import opened Users

  /** Declared fields of Posts, in declaration order (the inherited `id` first). */
  const POST_FIELDS := ["id", "title", "text", "author"]

  /** The document class name the document layer puts in its validation messages. */
  const POSTS_CLASS := "BaseModel.Posts"

  const NO_ACCESS_MESSAGE := "You have no access to do this action!"

  function NotFoundMessage(id: nat): string
  {
    "Post with id " + DecimalText(id) + " does not exist!"
  }

  /**
   * A saved post. Its author is a saved user's id when it is created; only
   * an update that writes null leaves it without one.
   */
  datatype Post = Post(id: nat, title: string, text: string, author: Option<nat>)

  /** The author as a document value: a reference, or null. */
  function AuthorValue(author: Option<nat>): (v: Value)
    ensures v.Ref? <==> author.Some?
    ensures v.Ref? ==> v.userId == author.value
    ensures author.None? ==> v == Null
  {
    if author.Some? then Ref(author.value) else Null
  }

  /** The field constraints: title of 1 to 64 characters, text of 1 to 512. */
  predicate WellFormed(p: Post)
  {
    1 <= |p.title| <= 64 && 1 <= |p.text| <= 512
  }

  /**
   * `to_json`: id, title, text and the author's id, each as a string. A post
   * without an author cannot be serialised (`self.author.id` raises an
   * AttributeError): that is `None` here.
   */
  function ToJson(p: Post): (j: Option<Json>)
    ensures j.Some? <==> p.author.Some?
    ensures j.Some? ==> j.value.JObj? && JsonKeys(j.value.members) == ["id", "title", "text", "author"]
    ensures j.Some? ==>
      && j.value.members[0].1 == JStr(DecimalText(p.id))
      && j.value.members[1].1 == JStr(p.title) && j.value.members[2].1 == JStr(p.text)
      && j.value.members[3].1 == JStr(DecimalText(p.author.value))
  {
    if p.author.None? then None
    else
      Some(JObj([("id", JStr(DecimalText(p.id))), ("title", JStr(p.title)), ("text", JStr(p.text)),
                 ("author", JStr(DecimalText(p.author.value)))]))
  }

  /** The post as a document: its declared fields and their values, in declaration order. */
  function AsRecord(p: Post): Fields
  {
    [("id", Other("ObjectId('" + DecimalText(p.id) + "')", true)), ("title", Str(p.title)),
     ("text", Str(p.text)), ("author", AuthorValue(p.author))]
  }

  // ---- creation ----

  /** A required string field: absent or null is "Field is required", otherwise the string checks. */
  function RequiredStringError(v: Option<Value>, maxLength: nat): (r: Option<string>)
    ensures r.None? <==> v.Some? && v.value.Str? && 1 <= |v.value.s| <= maxLength
  {
    if v.None? || v.value.Null? then Some(FIELD_REQUIRED) else StringFieldError(v.value, 1, Some(maxLength))
  }

  /** The required author reference. */
  function AuthorError(v: Option<Value>): (r: Option<string>)
    ensures r.None? <==> v.Some? && v.value.Ref?
  {
    if v.None? || v.value.Null? then Some(FIELD_REQUIRED)
    else if v.value.Ref? then None
    else Some(REFERENCE_ONLY)
  }

  /** What `save()` reports for a new post, field by field in declaration order. */
  function CreateErrors(fields: Fields): (errors: seq<(string, string)>)
    ensures errors == [] <==>
      RequiredStringError(Lookup(fields, "title"), 64).None? &&
      RequiredStringError(Lookup(fields, "text"), 512).None? &&
      AuthorError(Lookup(fields, "author")).None?
  {
    FieldError("title", RequiredStringError(Lookup(fields, "title"), 64))
    + FieldError("text", RequiredStringError(Lookup(fields, "text"), 512))
    + FieldError("author", AuthorError(Lookup(fields, "author")))
  }

  /** `make_a_post(cls, **kwargs)` binds `cls` itself. */
  const MAKE_A_POST_BOUND := ["cls"]

  /**
   * `make_a_post`, as a function of the next id: the call itself (a `cls`
   * keyword is a TypeError), the field-set check, then construction and the
   * save-time validation.
   */
  function MakeAPostResult(nextId: nat, fields: Fields): (r: DbResult<Post>)
    ensures BoundParameter(fields, MAKE_A_POST_BOUND).Some? ==> r.Unhandled?
    ensures r.Invalid? && BoundParameter(fields, MAKE_A_POST_BOUND).None? && AreFieldsValid(POST_FIELDS, fields).Pass? ==>
      CreateErrors(fields) != [] && r.message == SaveErrorMessage(POSTS_CLASS, CreateErrors(fields))
  {
    if BoundParameter(fields, MAKE_A_POST_BOUND).Some? then Unhandled("TypeError: got multiple values for argument 'cls'")
    else
    match AreFieldsValid(POST_FIELDS, fields)
    case Fail(message) => Invalid(message)
    case Pass =>
      var errors := CreateErrors(fields);
      if errors != [] then Invalid(SaveErrorMessage(POSTS_CLASS, errors))
      else if "id" in Keys(fields) then Unhandled("client-supplied id")
      else
        Ok(Post(nextId, Lookup(fields, "title").value.s, Lookup(fields, "text").value.s,
                Some(Lookup(fields, "author").value.userId)))
  }

  lemma FirstUndeclaredReported(fields: Fields, i: nat)
    requires i < |fields| && fields[i].0 !in POST_FIELDS
    requires forall j :: 0 <= j < i ==> fields[j].0 in POST_FIELDS
    ensures AreFieldsValid(POST_FIELDS, fields) == Fail(NotAValidField(fields[i].0))
  {
    assert fields == fields[..i] + [fields[i]] + fields[i + 1..];
    ReportsFirstUnknown(POST_FIELDS, fields[..i], fields[i].0, fields[i].1, fields[i + 1..]);
  }

  /**
   * Once the call itself is accepted, an undeclared key fails before
   * anything is constructed, with the first such key named.
   */
  lemma UnknownKeyFailsFirst(nextId: nat, fields: Fields, i: nat)
    requires BoundParameter(fields, MAKE_A_POST_BOUND).None?
    requires i < |fields| && fields[i].0 !in POST_FIELDS
    requires forall j :: 0 <= j < i ==> fields[j].0 in POST_FIELDS
    ensures MakeAPostResult(nextId, fields) == Invalid(NotAValidField(fields[i].0))
  {
    var message := NotAValidField(fields[i].0);
    assert AreFieldsValid(POST_FIELDS, fields) == Fail(message) by {
      FirstUndeclaredReported(fields, i);
    }
    FailedKeyCheckIsInvalid(nextId, fields, message);
  }

  lemma FailedKeyCheckIsInvalid(nextId: nat, fields: Fields, message: string)
    requires BoundParameter(fields, MAKE_A_POST_BOUND).None?
    requires AreFieldsValid(POST_FIELDS, fields) == Fail(message)
    ensures MakeAPostResult(nextId, fields) == Invalid(message)
  {
  }

  /** A created post satisfies the field constraints and carries exactly the requested values. */
  lemma CreatedPostFacts(nextId: nat, fields: Fields)
    requires MakeAPostResult(nextId, fields).Ok?
    ensures var p := MakeAPostResult(nextId, fields).value;
      && WellFormed(p) && p.id == nextId
      && Lookup(fields, "title") == Some(Str(p.title))
      && Lookup(fields, "text") == Some(Str(p.text))
      && p.author.Some? && Lookup(fields, "author") == Some(Ref(p.author.value))
  {
  }

  /** The test suite's post without text passes the key checks and fails only on `text`. */
  lemma MissingTextErrors(author: nat)
    ensures var fields := [("title", Str("Test Post")), ("author", Ref(author))];
      && BoundParameter(fields, MAKE_A_POST_BOUND).None?
      && AreFieldsValid(POST_FIELDS, fields).Pass?
      && CreateErrors(fields) == [("text", FIELD_REQUIRED)]
  {
    var fields := [("title", Str("Test Post")), ("author", Ref(author))];
    assert Keys(fields) == ["title", "author"];
    assert fields[0].0 in POST_FIELDS && fields[1].0 in POST_FIELDS;
    assert Lookup(fields, "text") == None;
  }

  /** A post without text is refused by the save-time validation (the message the test suite pins). */
  lemma MissingTextRefused(author: nat, nextId: nat)
    ensures MakeAPostResult(nextId, [("title", Str("Test Post")), ("author", Ref(author))])
         == Invalid("ValidationError (" + POSTS_CLASS + ":None) (" + FIELD_REQUIRED + ": ['text'])")
  {
    MissingTextErrors(author);
    SaveErrorOne(POSTS_CLASS, "text", FIELD_REQUIRED);
  }

  // ---- the ownership guard and update ----

  /** The requester as the author field compares with it: the user's reference, or null for no user. */
  function AsAuthor(user: Option<User>): (a: Option<nat>)
    ensures a.None? <==> user.None?
    ensures user.Some? ==> a == Some(user.value.id)
  {
    match user
    case None => None
    case Some(u) => Some(u.id)
  }

  /**
   * `verify_users_access`: fails unless the post's author equals the
   * requester. A post whose author was cleared compares equal to no user, so
   * a requester without a saved user passes on such a post.
   */
  function AccessError(p: Post, user: Option<User>): (r: Option<string>)
    ensures r.None? <==> p.author == AsAuthor(user)
    ensures user.Some? ==> (r.None? <==> p.author == Some(user.value.id))
    ensures user.None? ==> (r.None? <==> p.author.None?)
    ensures r.Some? ==> r.value == NO_ACCESS_MESSAGE
  {
    if p.author == AsAuthor(user) then None else Some(NO_ACCESS_MESSAGE)
  }

  /**
   * What the update validates for one field's new value. The update path
   * prepares a reference value without validating null, so null passes for
   * the author even though the field is required.
   */
  function UpdateValueErrorOf(key: string, v: Value): (r: Option<string>)
    ensures key == "author" ==> (r.None? <==> v.Ref? || v.Null?)
  {
    if key == "title" then StringFieldError(v, 1, Some(64))
    else if key == "text" then StringFieldError(v, 1, Some(512))
    else if key == "author" then (if v.Ref? || v.Null? then None else Some(REFERENCE_ONLY))
    else None
  }

  /** The first new value, in request order, that its field refuses. */
  function UpdateValueError(fields: Fields): Option<string>
  {
    if fields == [] then None
    else if UpdateValueErrorOf(fields[0].0, fields[0].1).Some? then UpdateValueErrorOf(fields[0].0, fields[0].1)
    else UpdateValueError(fields[1..])
  }

  /** The post after the update writes the given values. */
  function Applied(p: Post, fields: Fields): (r: Post)
    ensures r.id == p.id
    decreases |fields|
  {
    if fields == [] then p
    else
      var (k, v) := fields[0];
      var q :=
        if k == "title" && v.Str? then p.(title := v.s)
        else if k == "text" && v.Str? then p.(text := v.s)
        else if k == "author" && v.Ref? then p.(author := Some(v.userId))
        else if k == "author" && v.Null? then p.(author := None)
        else p;
      Applied(q, fields[1..])
  }

  /** `update_fields(self, user, **kwargs)` binds `self` and `user`. */
  const UPDATE_FIELDS_BOUND := ["self", "user"]

  /**
   * `update_fields`: the call itself and the field-set check's call (a
   * `self`, `user` or `cls` keyword is a TypeError), the field-set check,
   * then the ownership guard, then the document update (which refuses an
   * empty update and validates each value before writing anything).
   */
  function UpdateCheck(p: Post, user: Option<User>, fields: Fields): (r: DbResult<()>)
    ensures BoundParameter(fields, UPDATE_FIELDS_BOUND + ARE_FIELDS_VALID_BOUND).Some? ==> r.Unhandled?
    ensures r.Ok? ==> AreFieldsValid(POST_FIELDS, fields).Pass? && AccessError(p, user).None? && fields != []
  {
    if BoundParameter(fields, UPDATE_FIELDS_BOUND + ARE_FIELDS_VALID_BOUND).Some? then
      Unhandled("TypeError: got multiple values for a bound argument")
    else
    match AreFieldsValid(POST_FIELDS, fields)
    case Fail(message) => Invalid(message)
    case Pass =>
      match AccessError(p, user)
      case Some(message) => Invalid(message)
      case None =>
        if fields == [] then Unhandled("OperationError: No update parameters, would remove data")
        else
          match UpdateValueError(fields)
          case Some(message) => Invalid(message)
          case None =>
            if "id" in Keys(fields) then Unhandled("client-supplied id") else Ok(())
  }

  /**
   * Once the call is accepted, keys are checked before ownership: an
   * undeclared key is reported to anyone, owner or not.
   */
  lemma KeysCheckedBeforeOwner(p: Post, user: Option<User>, other: Option<User>, fields: Fields)
    requires BoundParameter(fields, UPDATE_FIELDS_BOUND + ARE_FIELDS_VALID_BOUND).None?
    requires AreFieldsValid(POST_FIELDS, fields).Fail?
    ensures UpdateCheck(p, user, fields) == UpdateCheck(p, other, fields)
    ensures UpdateCheck(p, user, fields) == Invalid(AreFieldsValid(POST_FIELDS, fields).error)
  {
  }

  /**
   * With declared keys only, a requester the author does not equal is refused
   * before anything is written: another user, or no user on an authored post.
   */
  lemma NonOwnerRefused(p: Post, user: Option<User>, fields: Fields)
    requires BoundParameter(fields, UPDATE_FIELDS_BOUND + ARE_FIELDS_VALID_BOUND).None?
    requires AreFieldsValid(POST_FIELDS, fields).Pass?
    requires p.author != AsAuthor(user)
    ensures UpdateCheck(p, user, fields) == Invalid(NO_ACCESS_MESSAGE)
  {
  }

  /**
   * The guard is equality, not ownership: on a post whose author was
   * cleared, no user passes it exactly as the author would, and the update
   * goes on to the value checks.
   */
  lemma AuthorlessPostOpenToNoUser(p: Post, fields: Fields)
    requires p.author.None?
    ensures AccessError(p, None).None?
    ensures UpdateCheck(p, None, fields).Ok? <==>
      && BoundParameter(fields, UPDATE_FIELDS_BOUND + ARE_FIELDS_VALID_BOUND).None?
      && AreFieldsValid(POST_FIELDS, fields).Pass?
      && fields != [] && UpdateValueError(fields).None? && "id" !in Keys(fields)
  {
  }

  /** Writing values that passed validation keeps the field constraints and the id. */
  lemma {:induction false} AppliedKeepsWellFormed(p: Post, fields: Fields)
    requires WellFormed(p)
    requires UpdateValueError(fields).None?
    ensures WellFormed(Applied(p, fields)) && Applied(p, fields).id == p.id
    decreases |fields|
  {
    if fields != [] {
      var (k, v) := fields[0];
      var q :=
        if k == "title" && v.Str? then p.(title := v.s)
        else if k == "text" && v.Str? then p.(text := v.s)
        else if k == "author" && v.Ref? then p.(author := Some(v.userId))
        else if k == "author" && v.Null? then p.(author := None)
        else p;
      assert UpdateValueErrorOf(k, v).None?;
      assert WellFormed(q);
      AppliedKeepsWellFormed(q, fields[1..]);
    }
  }

  /**
   * The update writes exactly the requested fields: a field named in the
   * request takes its new value, any other field keeps its old one.
   */
  lemma {:induction false} AppliedWritesRequested(p: Post, fields: Fields)
    requires DistinctKeys(fields)
    requires UpdateValueError(fields).None?
    ensures Applied(p, fields).id == p.id
    ensures "title" in Keys(fields) ==> Lookup(fields, "title") == Some(Str(Applied(p, fields).title))
    ensures "title" !in Keys(fields) ==> Applied(p, fields).title == p.title
    ensures "text" in Keys(fields) ==> Lookup(fields, "text") == Some(Str(Applied(p, fields).text))
    ensures "text" !in Keys(fields) ==> Applied(p, fields).text == p.text
    ensures "author" in Keys(fields) ==> Lookup(fields, "author") == Some(AuthorValue(Applied(p, fields).author))
    ensures "author" !in Keys(fields) ==> Applied(p, fields).author == p.author
    decreases |fields|
  {
    if fields != [] {
      var (k, v) := fields[0];
      var q :=
        if k == "title" && v.Str? then p.(title := v.s)
        else if k == "text" && v.Str? then p.(text := v.s)
        else if k == "author" && v.Ref? then p.(author := Some(v.userId))
        else if k == "author" && v.Null? then p.(author := None)
        else p;
      assert UpdateValueErrorOf(k, v).None?;
      assert DistinctKeys(fields[1..]) by {
        forall i, j | 0 <= i < j < |fields[1..]| ensures fields[1..][i].0 != fields[1..][j].0 {
          assert fields[1..][i] == fields[i + 1] && fields[1..][j] == fields[j + 1];
        }
      }
      assert k !in Keys(fields[1..]) by {
        forall i | 0 <= i < |fields[1..]| ensures Keys(fields[1..])[i] != k {
          assert fields[1..][i] == fields[i + 1];
        }
      }
      assert forall f :: f in Keys(fields) <==> f == k || f in Keys(fields[1..]) by {
        assert Keys(fields) == [k] + Keys(fields[1..]);
      }
      AppliedWritesRequested(q, fields[1..]);
    }
  }

  /**
   * Values decoded from a JSON body are never document references, so an
   * update coming from a request can never hand the post to another user:
   * an `author` key either fails validation or, with null, clears the author.
   */
  lemma {:induction false} JsonOnlyClearsAuthor(p: Post, fields: Fields)
    requires forall i :: 0 <= i < |fields| ==> !fields[i].1.Ref?
    ensures Applied(p, fields).author == p.author || Applied(p, fields).author.None?
    ensures "author" !in Keys(fields) ==> Applied(p, fields).author == p.author
    ensures "author" in Keys(fields) && UpdateValueError(fields).None? ==> Applied(p, fields).author.None?
    decreases |fields|
  {
    if fields != [] {
      var (k, v) := fields[0];
      var q :=
        if k == "title" && v.Str? then p.(title := v.s)
        else if k == "text" && v.Str? then p.(text := v.s)
        else if k == "author" && v.Null? then p.(author := None)
        else p;
      JsonOnlyClearsAuthor(q, fields[1..]);
      assert forall i :: 0 <= i < |fields[1..]| ==> fields[1..][i] == fields[i + 1];
      assert Keys(fields) == [k] + Keys(fields[1..]);
      if k == "author" && UpdateValueError(fields).None? {
        assert UpdateValueErrorOf(k, v).None?;
        assert q.author.None?;
        if "author" !in Keys(fields[1..]) {
          assert Applied(p, fields).author == q.author;
        }
      }
    }
  }

  // ---- listing ----

  /** The saved posts with ids below `n`, in id order (ids grow with insertion: the natural order). */
  function InIdOrder(posts: map<nat, Post>, n: nat): (r: seq<Post>)
    ensures |r| <= n
    ensures forall p :: p in r ==> p in posts.Values
  {
    if n == 0 then [] else InIdOrder(posts, n - 1) + (if n - 1 in posts then [posts[n - 1]] else [])
  }

  /** The listing holds exactly the saved posts below `n`, each once, in increasing id order. */
  lemma {:induction false} InIdOrderExact(posts: map<nat, Post>, n: nat)
    requires forall id :: id in posts ==> posts[id].id == id
    ensures forall p :: p in InIdOrder(posts, n) <==> p.id < n && p.id in posts && posts[p.id] == p
    ensures forall i, j :: 0 <= i < j < |InIdOrder(posts, n)| ==> InIdOrder(posts, n)[i].id < InIdOrder(posts, n)[j].id
  {
    if n > 0 {
      InIdOrderExact(posts, n - 1);
      var s := InIdOrder(posts, n - 1);
      assert forall i :: 0 <= i < |s| ==> s[i] in s;
    }
  }

  /** The saved posts: ids match their keys, lie below the counter, and satisfy the field constraints. */
  ghost predicate PostsInvariant(posts: map<nat, Post>, nextId: nat)
  {
    forall id :: id in posts ==> posts[id].id == id && id < nextId && WellFormed(posts[id])
  }

  class PostStore {
    var posts: map<nat, Post>
    var nextId: nat

    ghost predicate Valid()
      reads this
    {
      PostsInvariant(posts, nextId)
    }

    constructor ()
      ensures Valid() && posts == map[] && nextId == 0
    {
      posts, nextId := map[], 0;
    }

    /** `make_a_post`: on success the new post is saved under a fresh id; on failure nothing is saved. */
    method MakeAPost(fields: Fields) returns (r: DbResult<Post>)
      requires Valid()
      modifies this
      ensures Valid()
      ensures r == MakeAPostResult(old(nextId), fields)
      ensures r.Ok? ==> r.value.id !in old(posts) && posts == old(posts)[r.value.id := r.value]
      ensures r.Ok? ==> nextId == old(nextId) + 1
      ensures !r.Ok? ==> posts == old(posts) && nextId == old(nextId)
    {
      if BoundParameter(fields, MAKE_A_POST_BOUND).Some? { return Unhandled("TypeError: got multiple values for argument 'cls'"); }
      var check := AreFieldsValid(POST_FIELDS, fields);
      if check.Fail? { return Invalid(check.error); }
      var errors := CreateErrors(fields);
      if errors != [] { return Invalid(SaveErrorMessage(POSTS_CLASS, errors)); }
      if "id" in Keys(fields) { return Unhandled("client-supplied id"); }
      var created := Post(nextId, Lookup(fields, "title").value.s, Lookup(fields, "text").value.s,
                          Some(Lookup(fields, "author").value.userId));
      CreatedPostFacts(nextId, fields);
      posts := posts[nextId := created];
      nextId := nextId + 1;
      r := Ok(created);
    }

    /** `get_post_by_id`. */
    function GetPostById(id: nat): (r: Result<Post, string>)
      reads this
      ensures r.Success? <==> id in posts
      ensures r.Success? ==> r.value == posts[id]
      ensures r.Failure? ==> r.error == NotFoundMessage(id)
    {
      if id in posts then Success(posts[id]) else Failure(NotFoundMessage(id))
    }

    /** `get_all_posts`. */
    function GetAllPosts(): (r: seq<Post>)
      reads this
      ensures |r| <= nextId
      ensures forall p :: p in r ==> p in posts.Values
    {
      InIdOrder(posts, nextId)
    }

    /** Every saved post is listed, once, in insertion order. */
    lemma ListingIsComplete()
      requires Valid()
      ensures forall p :: p in GetAllPosts() <==> p.id in posts && posts[p.id] == p
      ensures forall i, j :: 0 <= i < j < |GetAllPosts()| ==> GetAllPosts()[i].id < GetAllPosts()[j].id
    {
      InIdOrderExact(posts, nextId);
    }

    /**
     * `update_fields` on the saved post `id`: keys, then ownership, then the
     * update; if any check fails no post changes.
     */
    method UpdateFields(id: nat, user: Option<User>, fields: Fields) returns (r: DbResult<()>)
      requires Valid() && id in posts
      modifies this
      ensures Valid() && nextId == old(nextId)
      ensures r == UpdateCheck(old(posts)[id], user, fields)
      ensures r.Ok? ==> posts == old(posts)[id := Applied(old(posts)[id], fields)]
      ensures !r.Ok? ==> posts == old(posts)
    {
      var post := posts[id];
      if BoundParameter(fields, UPDATE_FIELDS_BOUND + ARE_FIELDS_VALID_BOUND).Some? {
        return Unhandled("TypeError: got multiple values for a bound argument");
      }
      var check := AreFieldsValid(POST_FIELDS, fields);
      if check.Fail? { return Invalid(check.error); }
      var denied := AccessError(post, user);
      if denied.Some? { return Invalid(denied.value); }
      if fields == [] { return Unhandled("OperationError: No update parameters, would remove data"); }
      var bad := UpdateValueError(fields);
      if bad.Some? { return Invalid(bad.value); }
      if "id" in Keys(fields) { return Unhandled("client-supplied id"); }
      AppliedKeepsWellFormed(post, fields);
      posts := posts[id := Applied(post, fields)];
      r := Ok(());
    }

    /** `delete_post`: only a requester equal to the author may delete; that removes exactly the post. */
    method DeletePost(id: nat, user: Option<User>) returns (r: DbResult<()>)
      requires Valid() && id in posts
      modifies this
      ensures Valid() && nextId == old(nextId)
      ensures r.Ok? <==> AccessError(old(posts)[id], user).None?
      ensures r.Ok? ==> posts == old(posts) - {id}
      ensures !r.Ok? ==> r == Invalid(NO_ACCESS_MESSAGE) && posts == old(posts)
    {
      var denied := AccessError(posts[id], user);
      if denied.Some? { return Invalid(denied.value); }
      posts := posts - {id};
      r := Ok(());
    }

    /** The cascade rule on `author`: deleting a user deletes every post by that user and no other. */
    method DeleteAuthorPosts(author: nat)
      requires Valid()
      modifies this
      ensures Valid() && nextId == old(nextId)
      ensures forall id :: id in posts ==> posts[id].author != Some(author)
      ensures forall id :: id in old(posts) && old(posts)[id].author != Some(author) ==> id in posts && posts[id] == old(posts)[id]
      ensures posts.Keys <= old(posts).Keys
    {
      posts := map id | id in posts && posts[id].author != Some(author) :: posts[id];
    }
  }

  /** Deleting a user removes the user document and, by the cascade rule, all of that user's posts. */
  method DeleteUser(users: UserStore, store: PostStore, userId: nat)
    requires users.Valid() && store.Valid()
    modifies users, store
    ensures users.Valid() && store.Valid()
    ensures users.users == RemoveId(old(users.users), userId) && users.nextId == old(users.nextId)
    ensures forall id :: id in store.posts ==> store.posts[id].author != Some(userId)
    ensures forall id :: id in old(store.posts) && old(store.posts)[id].author != Some(userId) ==>
      id in store.posts && store.posts[id] == old(store.posts)[id]
    ensures store.posts.Keys <= old(store.posts).Keys && store.nextId == old(store.nextId)
  {
    store.DeleteAuthorPosts(userId);
    users.Remove(userId);
  }
}
