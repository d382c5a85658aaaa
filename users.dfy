/**
 * The User document and the store of saved users: registration with its
 * required-field and unique-email checks, password hashing, the lookups, and
 * the public projection.
 */
module Users {
  import opened Wrappers
  import opened Common
  import opened BaseModel

  /** Declared fields of User, in declaration order (the inherited `id` first). */
  const USER_FIELDS := ["id", "email", "first_name", "last_name", "password"]

  /** The document class name the document layer puts in its validation messages. */
  const USER_CLASS := "BaseModel.User"

  const REQUIRED_MESSAGE := "Email and Password fields are required!"
  const TAKEN_MESSAGE := "Email is already taken!"

  /** A saved user; absent names are None (rendered `None` by Python). */
  datatype User = User(
    id: nat,
    email: string,
    firstName: Option<string>,
    lastName: Option<string>,
    passwordHash: string)

  /**
   * The password-hashing library: `hash(password, salt)` with a fresh salt per
   * call, and `check(password, hashed)`.
   */
  datatype Hasher = Hasher(hash: (string, string) -> string, check: (string, string) -> bool)

  /** What the library promises: a password checks against any hash made from it. */
  ghost predicate Sound(h: Hasher)
  {
    forall p, salt :: h.check(p, h.hash(p, salt))
  }

  /** `set_password`: the stored password becomes the hash of the given one; nothing else changes. */
  function SetPassword(u: User, password: string, salt: string, h: Hasher): (r: User)
    ensures r.passwordHash == h.hash(password, salt)
    ensures r.(passwordHash := u.passwordHash) == u
  {
    u.(passwordHash := h.hash(password, salt))
  }

  /** `check_password`. */
  function CheckPassword(u: User, password: string, h: Hasher): (r: bool)
    ensures Sound(h) && (exists salt :: u.passwordHash == h.hash(password, salt)) ==> r
  {
    h.check(password, u.passwordHash)
  }

  /** A password set with `set_password` is accepted by `check_password`. */
  lemma CheckAfterSet(u: User, password: string, salt: string, h: Hasher)
    requires Sound(h)
    ensures CheckPassword(SetPassword(u, password, salt, h), password, h)
  {
  }

  function NameJson(n: Option<string>): Json
  {
    if n.Some? then JStr(n.value) else JNull
  }

  /** `to_json`: the public projection of a user. */
  function ToJson(u: User): (j: Json)
    ensures j.JObj? && JsonKeys(j.members) == ["email", "first_name", "last_name"]
  {
    JObj([("email", JStr(u.email)), ("first_name", NameJson(u.firstName)), ("last_name", NameJson(u.lastName))])
  }

  /** The projection depends on nothing but email and names: the id and the password hash never show. */
  lemma ToJsonHidesPassword(a: User, b: User)
    requires a.email == b.email && a.firstName == b.firstName && a.lastName == b.lastName
    ensures ToJson(a) == ToJson(b)
  {
  }

  /** `objects(email=...).first()`: the first saved user with that email. */
  function FindByEmail(users: seq<User>, email: string): (r: Option<User>)
    ensures r.Some? ==> r.value in users && r.value.email == email
    ensures r.None? <==> forall u :: u in users ==> u.email != email
  {
    if users == [] then None
    else if users[0].email == email then Some(users[0])
    else
      assert forall u :: u in users ==> u == users[0] || u in users[1..];
      FindByEmail(users[1..], email)
  }

  /** `objects(id=...).first()`: the saved user with that id, if any. */
  function FindById(users: seq<User>, id: nat): (r: Option<User>)
    ensures r.Some? ==> r.value in users && r.value.id == id
    ensures r.None? <==> forall u :: u in users ==> u.id != id
  {
    if users == [] then None
    else if users[0].id == id then Some(users[0])
    else
      assert forall u :: u in users ==> u == users[0] || u in users[1..];
      FindById(users[1..], id)
  }

  /**
   * The registration's uniqueness query, for a string email. A non-string
   * value is passed to the query unchanged, where MongoDB may read it as an
   * operator (`{"$ne": null}` matches every user); the model treats such a
   * value as matching nobody.
   */
  predicate EmailTaken(users: seq<User>, email: Value)
  {
    email.Str? && FindByEmail(users, email.s).Some?
  }

  function NameOf(v: Option<Value>): Option<string>
  {
    if v.Some? && v.value.Str? then Some(v.value.s) else None
  }

  /** What `save()` reports for a new user, field by field in declaration order. */
  function UserSaveErrors(email: Value, first: Option<Value>, last: Option<Value>, hash: string): (errors: seq<(string, string)>)
    ensures errors == [] <==>
      email.Str? && OptionalStringError(first, 50).None? && OptionalStringError(last, 50).None? && |hash| <= 256
  {
    FieldError("email", StringFieldError(email, 0, None))
    + FieldError("first_name", OptionalStringError(first, 50))
    + FieldError("last_name", OptionalStringError(last, 50))
    + FieldError("password", StringFieldError(Str(hash), 0, Some(256)))
  }

  /** A user as `save()` accepts it. */
  predicate SavedUserOk(u: User)
  {
    u.email != "" && |u.passwordHash| <= 256 &&
    (u.firstName.Some? ==> |u.firstName.value| <= 50) &&
    (u.lastName.Some? ==> |u.lastName.value| <= 50)
  }

  /** The store's invariant: ids below the counter, ids and emails unique, every user as saved. */
  ghost predicate StoreInvariant(users: seq<User>, nextId: nat)
  {
    && (forall u :: u in users ==> u.id < nextId && SavedUserOk(u))
    && (forall a, b :: a in users && b in users && a.id == b.id ==> a == b)
    && (forall a, b :: a in users && b in users && a.email == b.email ==> a == b)
  }

  /** `create_user(cls, **kwargs)` binds `cls` itself. */
  const CREATE_USER_BOUND := ["cls"]

  /**
   * `create_user`, as a function of the saved users and the next id: the
   * call itself (a `cls` keyword is a TypeError), the required-field test (which reads `email`, then `password`, each raising a
   * KeyError when absent), then the uniqueness query, then construction from
   * the remaining keyword arguments, hashing, and the save-time validation.
   */
  function CreateUserResult(users: seq<User>, nextId: nat, kwargs: Fields, salt: string, h: Hasher): (r: DbResult<User>)
    ensures BoundParameter(kwargs, CREATE_USER_BOUND).Some? ==> r.Unhandled?
    ensures "email" !in Keys(kwargs) || ("password" !in Keys(kwargs) && Truthy(Lookup(kwargs, "email").value)) ==> r.Unhandled?
  {
    if BoundParameter(kwargs, CREATE_USER_BOUND).Some? then Unhandled("TypeError: got multiple values for argument 'cls'")
    else
    match Lookup(kwargs, "email")
    case None => Unhandled("KeyError: 'email'")
    case Some(email) =>
      if !Truthy(email) then Invalid(REQUIRED_MESSAGE)
      else
        match Lookup(kwargs, "password")
        case None => Unhandled("KeyError: 'password'")
        case Some(password) =>
          if !Truthy(password) then Invalid(REQUIRED_MESSAGE)
          else if EmailTaken(users, email) then Invalid(TAKEN_MESSAGE)
          else
            var rest := Without(kwargs, "password");
            if FirstUnknownKey(Keys(rest), USER_FIELDS).Some? then Unhandled("FieldDoesNotExist")
            else if !password.Str? then Unhandled("AttributeError: the password has no encode()")
            else
              var hash := h.hash(password.s, salt);
              var first, last := Lookup(rest, "first_name"), Lookup(rest, "last_name");
              var errors := UserSaveErrors(email, first, last, hash);
              if errors != [] then Invalid(SaveErrorMessage(USER_CLASS, errors))
              else if "id" in Keys(rest) then Unhandled("client-supplied id")
              else Ok(User(nextId, email.s, NameOf(first), NameOf(last), hash))
  }

  /** Once the call is accepted, the required-field check comes first: an empty email or password is refused whatever the store holds. */
  lemma RequiredBeforeUnique(users: seq<User>, nextId: nat, kwargs: Fields, salt: string, h: Hasher)
    requires BoundParameter(kwargs, CREATE_USER_BOUND).None?
    requires Lookup(kwargs, "email").Some?
    requires !Truthy(Lookup(kwargs, "email").value) ||
      (Lookup(kwargs, "password").Some? && !Truthy(Lookup(kwargs, "password").value))
    ensures CreateUserResult(users, nextId, kwargs, salt, h) == Invalid(REQUIRED_MESSAGE)
  {
  }

  /** Once the call is accepted, a second registration with a saved email is refused with `Email is already taken!`. */
  lemma DuplicateEmailRefused(users: seq<User>, nextId: nat, kwargs: Fields, salt: string, h: Hasher, existing: User)
    requires BoundParameter(kwargs, CREATE_USER_BOUND).None?
    requires existing in users
    requires Lookup(kwargs, "email") == Some(Str(existing.email)) && existing.email != ""
    requires Lookup(kwargs, "password").Some? && Truthy(Lookup(kwargs, "password").value)
    ensures CreateUserResult(users, nextId, kwargs, salt, h) == Invalid(TAKEN_MESSAGE)
  {
  }

  /**
   * A created user carries the requested email, a fresh id and the hash of
   * the requested password (never the password itself), its email was free,
   * and it is accepted by `check_password` with that password.
   */
  lemma CreatedUserFacts(users: seq<User>, nextId: nat, kwargs: Fields, salt: string, h: Hasher)
    requires CreateUserResult(users, nextId, kwargs, salt, h).Ok?
    ensures var u := CreateUserResult(users, nextId, kwargs, salt, h).value;
      && Lookup(kwargs, "email") == Some(Str(u.email))
      && Lookup(kwargs, "password").Some? && Lookup(kwargs, "password").value.Str?
      && u.passwordHash == h.hash(Lookup(kwargs, "password").value.s, salt)
      && u.id == nextId
      && FindByEmail(users, u.email).None?
      && SavedUserOk(u)
      && (Sound(h) ==> CheckPassword(u, Lookup(kwargs, "password").value.s, h))
  {
    var email, password := Lookup(kwargs, "email").value, Lookup(kwargs, "password").value;
    assert Truthy(email) && Truthy(password) && !EmailTaken(users, email) && password.Str?;
    var rest := Without(kwargs, "password");
    var hash := h.hash(password.s, salt);
    var first, last := Lookup(rest, "first_name"), Lookup(rest, "last_name");
    assert UserSaveErrors(email, first, last, hash) == [];
    assert CreateUserResult(users, nextId, kwargs, salt, h) == Ok(User(nextId, email.s, NameOf(first), NameOf(last), hash));
  }

  /** Creating a user keeps the store's invariant (in particular, emails stay unique). */
  lemma CreatePreservesInvariant(users: seq<User>, nextId: nat, kwargs: Fields, salt: string, h: Hasher)
    requires StoreInvariant(users, nextId)
    requires CreateUserResult(users, nextId, kwargs, salt, h).Ok?
    ensures StoreInvariant(users + [CreateUserResult(users, nextId, kwargs, salt, h).value], nextId + 1)
  {
    var u := CreateUserResult(users, nextId, kwargs, salt, h).value;
    CreatedUserFacts(users, nextId, kwargs, salt, h);
    assert forall v :: v in users + [u] ==> v in users || v == u;
  }

  function RemoveId(users: seq<User>, id: nat): (r: seq<User>)
    ensures forall u :: u in r <==> u in users && u.id != id
  {
    if users == [] then []
    else if users[0].id == id then RemoveId(users[1..], id)
    else
      assert forall u :: u in users ==> u == users[0] || u in users[1..];
      [users[0]] + RemoveId(users[1..], id)
  }

  /** The saved users, in insertion order (the store's natural order). */
  class UserStore {
    var users: seq<User>
    var nextId: nat

    ghost predicate Valid()
      reads this
    {
      StoreInvariant(users, nextId)
    }

    constructor ()
      ensures Valid() && users == [] && nextId == 0
    {
      users, nextId := [], 0;
    }

    /** `get_user_by_email`. */
    function GetUserByEmail(email: string): Option<User>
      reads this
    {
      FindByEmail(users, email)
    }

    /** `get_user_by_id`. */
    function GetUserById(id: nat): Option<User>
      reads this
    {
      FindById(users, id)
    }

    /**
     * `create_user`: checks, then hashes the password and saves the new user;
     * on any failure nothing is saved.
     */
    method CreateUser(kwargs: Fields, salt: string, h: Hasher) returns (r: DbResult<User>)
      requires Valid()
      modifies this
      ensures Valid()
      ensures r == CreateUserResult(old(users), old(nextId), kwargs, salt, h)
      ensures r.Ok? ==> users == old(users) + [r.value] && nextId == old(nextId) + 1
      ensures !r.Ok? ==> users == old(users) && nextId == old(nextId)
    {
      if BoundParameter(kwargs, CREATE_USER_BOUND).Some? { return Unhandled("TypeError: got multiple values for argument 'cls'"); }
      var email := Lookup(kwargs, "email");
      if email.None? { return Unhandled("KeyError: 'email'"); }
      if !Truthy(email.value) { return Invalid(REQUIRED_MESSAGE); }
      var password := Lookup(kwargs, "password");
      if password.None? { return Unhandled("KeyError: 'password'"); }
      if !Truthy(password.value) { return Invalid(REQUIRED_MESSAGE); }
      if EmailTaken(users, email.value) { return Invalid(TAKEN_MESSAGE); }
      var rest := Without(kwargs, "password");
      if FirstUnknownKey(Keys(rest), USER_FIELDS).Some? { return Unhandled("FieldDoesNotExist"); }
      if !password.value.Str? { return Unhandled("AttributeError: the password has no encode()"); }
      var first, last := Lookup(rest, "first_name"), Lookup(rest, "last_name");
      // construct without a password, then set_password
      var created := User(nextId, if email.value.Str? then email.value.s else "", NameOf(first), NameOf(last), "");
      created := SetPassword(created, password.value.s, salt, h);
      var errors := UserSaveErrors(email.value, first, last, created.passwordHash);
      if errors != [] { return Invalid(SaveErrorMessage(USER_CLASS, errors)); }
      if "id" in Keys(rest) { return Unhandled("client-supplied id"); }
      CreatePreservesInvariant(users, nextId, kwargs, salt, h);
      users := users + [created];
      nextId := nextId + 1;
      r := Ok(created);
    }

    /** Deleting a user document (the posts side cascades, see Posts.DeleteUser). */
    method Remove(id: nat)
      requires Valid()
      modifies this
      ensures Valid() && nextId == old(nextId)
      ensures users == RemoveId(old(users), id)
    {
      users := RemoveId(users, id);
    }
  }
}
