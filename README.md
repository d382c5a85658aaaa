# logger: a verified model of the blog and audit-log backend

The system is a small Flask/MongoEngine web service. Registered users log in,
then create, edit and delete blog posts. Every request is written to an
audit log. That log is a MongoDB collection fed by a custom `logging`
handler, and an HTML page lists it, filtered and sorted.

This project models the service's logic in Dafny:

- **Stores.** The document stores become in-memory classes:
  - `UserStore`: a sequence of users, in insertion order;
  - `PostStore`: a map from post id to post, plus the id counter;
  - `LogStore`: a sequence of log records whose ids are their positions.

  The MongoEngine validation each save runs is written out as functions that
  produce the library's error messages.
- **Logger.** The application logger is a class holding a level and a list of
  handlers. Its database handler saves each record it receives into the log
  store. A save that fails raises out of `logger.info` / `logger.error`, and
  the model keeps that behaviour.
- **Message templates.** These are pure string functions.
- **Log page.** The query behind the page is a pure filter and sort.
- **Endpoints.** Each endpoint is a method over the stores. It takes:
  - the identity carried by the request's token (`None` when there is no
    usable token);
  - the request's path and method;
  - the JSON body, as key/value pairs.

  Each authenticated endpoint's answer and log effect is stated through one
  function, `Answered` or `RegisterAnswered`. That function describes the
  endpoint's `try` / `except ValidationError` shape.

Ids are natural numbers handed out by the stores, and messages print them in
decimal. The collection name every document shares (`get_table_name`) is
`base_model` (`BaseModel.COLLECTION`), because the base class allows
inheritance.

Unlike PATCH and DELETE, the GET handler for one post does not catch
`get_post_by_id`'s ValidationError (src/posts/views.py:45-50). A missing post
is therefore a 500, not a 400 (`PostViews.GetPost`).

The model also states some consequences of the code as written:

- A post or user stays saved even when the success log that follows it
  raises. The request is then answered from the error branch.
- A user whose email alone is longer than 512 characters gets a 500 on every
  authenticated error.
- A body key that names a parameter the called function already binds
  (`cls` for creation and registration; `self`, `user` or `cls` for an
  update) is a TypeError. The request is a 500 with no record.
- The author of a post can send `{"author": null}`. The update path does not
  validate a null reference, so the author is cleared and the change is
  logged at INFO. The answer is then a 500, because the post can no longer
  be serialised.
- The ownership guard compares the post's author with the requester, and a
  cleared author equals no user. A token whose user has been deleted
  resolves to no user, so it can update or delete an authorless post. The
  change is written, and the answer is a 500 because the INFO message needs
  the user's email.

## Model

| member | source | states |
|---|---|---|
| BaseModel.AreFieldsValid | src/base_classes.py:21-25 | passes iff every key is a declared field; a failure carries `'<key>' is not a valid field` for an undeclared key |
| BaseModel.BoundParameter | src/base_classes.py:21-22 | none iff no keyword argument names a parameter the call already binds; otherwise such a keyword, which makes the call a TypeError |
| BaseModel.FirstUnknownKey | src/base_classes.py:23-25 | none iff every key is declared; otherwise an undeclared key that occurs in the keys |
| BaseModel.ValuesAreIgnored | src/base_classes.py:23-24 | two field maps with the same keys get the same verdict, whatever their values |
| BaseModel.ReportsFirstUnknown | src/base_classes.py:23-25 | the key reported is the first undeclared one in iteration order, whatever follows it |
| BaseModel.FirstUnknownAfterKnown | src/base_classes.py:23-25 | declared keys before the first undeclared one do not change which key is reported |
| Common.SaveErrorOne | src/posts/models.py:29 | a save that fails on one field reports `ValidationError (<class>:None) (<reason>: ['<field>'])` |
| Users.SetPassword | src/user/models.py:15-17 | the stored password becomes the hash of the given one and nothing else changes |
| Users.CheckPassword | src/user/models.py:19-20 | with a sound hashing library, a hash made from a password accepts that password |
| Users.CheckAfterSet | src/user/models.py:15-20 | with a sound hashing library, `check_password` accepts the password last given to `set_password` |
| Users.ToJson | src/user/models.py:48-54 | the projection has exactly the keys email, first_name, last_name |
| Users.ToJsonHidesPassword | src/user/models.py:48-54 | the projection depends only on email and names, never on the id or password hash |
| Users.FindByEmail | src/user/models.py:26-28 | a found user is saved and has that email; nothing is found iff no saved user has it |
| Users.FindById | src/user/models.py:22-24 | a found user is saved and has that id; nothing is found iff no saved user has it |
| Users.UserSaveErrors | src/user/models.py:10-13 | the save succeeds iff the email is a string, each name is absent or at most 50 characters, and the hash is at most 256 |
| Users.RequiredBeforeUnique | src/user/models.py:32-33 | once the call is accepted, an empty email or password is refused with `Email and Password fields are required!` whatever the store holds |
| Users.DuplicateEmailRefused | src/user/models.py:35-38 | once the call is accepted, a saved email is refused with `Email is already taken!` |
| Users.CreateUserResult | src/user/models.py:30-46 | a `cls` keyword, a missing email, or a missing password after a non-empty email fails outside the ValidationError path |
| Users.CreatedUserFacts | src/user/models.py:30-46 | a created user has the requested email, the next id and the hash of the requested password; the email was free, the save constraints hold, and the password checks |
| Users.CreatePreservesInvariant | src/user/models.py:10-13 | creating a user keeps ids below the counter, ids and emails unique, and every user valid |
| Users.UserStore.CreateUser | src/user/models.py:30-46 | the result is the creation rule's; on success exactly that user is appended, otherwise the store is unchanged |
| Users.RemoveId | src/posts/models.py:12 | after deleting a user, exactly the other users remain |
| Posts.ToJson | src/posts/models.py:14-21 | the keys are exactly id, title, text, author, with the post's values and decimal ids; a post without an author cannot be serialised |
| Posts.RequiredStringError | src/posts/models.py:10-11 | no error iff the value is present, a string, and 1 to max characters long |
| Posts.AuthorError | src/posts/models.py:12 | no error iff the author is present and a saved user |
| Posts.CreateErrors | src/posts/models.py:10-12 | no save error iff title has 1..64 characters, text 1..512, and the author is a user |
| Posts.UnknownKeyFailsFirst | src/posts/models.py:23-25 | once the call is accepted, an undeclared key fails before any construction, naming the first such key |
| Posts.MakeAPostResult | src/posts/models.py:23-31 | a `cls` keyword is a TypeError; a ValidationError after the key check carries the save errors |
| Posts.CreatedPostFacts | src/posts/models.py:23-31 | a created post satisfies the field constraints, has the next id and carries the requested title, text and author |
| Posts.MissingTextRefused | src/posts/models.py:10-12 | a post without text is refused with `ValidationError (BaseModel.Posts:None) (Field is required: ['text'])` |
| Posts.AsAuthor | src/posts/models.py:46-48 | the requester as the `!=` test sees it: the user's reference, or null when there is no user |
| Posts.AccessError | src/posts/models.py:46-48 | no error iff the post's author equals the requester: the user's own post, or no user on a post whose author was cleared; otherwise `You have no access to do this action!` |
| Posts.KeysCheckedBeforeOwner | src/posts/models.py:50-53 | once the call is accepted, an undeclared key is reported before ownership is looked at, whoever asks |
| Posts.NonOwnerRefused | src/posts/models.py:50-53 | once the call is accepted, with declared keys, a requester the author does not equal is refused: another user, or no user on an authored post |
| Posts.AuthorlessPostOpenToNoUser | src/posts/models.py:46-55 | on a post whose author was cleared, no user passes the guard, and the update succeeds exactly when the keys and values pass |
| Posts.UpdateCheck | src/posts/models.py:50-55 | a `self`, `user` or `cls` keyword is a TypeError; success needs declared keys, a requester equal to the author (no user on an authorless post included), and a non-empty body |
| Posts.Applied | src/posts/models.py:55 | writing fields never changes the post's id |
| Posts.AppliedKeepsWellFormed | src/posts/models.py:50-55 | writing values that pass validation keeps the field constraints and the id |
| Posts.AppliedWritesRequested | src/posts/models.py:55 | every requested field takes the requested value (a null author clears it) and every other field keeps its old one |
| Posts.JsonOnlyClearsAuthor | src/posts/models.py:50-55 | a JSON body never hands a post to another user: the author stays, or a null clears it, and a valid update naming `author` always clears it |
| Posts.InIdOrderExact | src/posts/models.py:42-44 | the listing holds exactly the saved posts, in increasing id order |
| Posts.PostStore.MakeAPost | src/posts/models.py:23-31 | the result is the creation rule's; on success exactly the new post is added under a fresh id, otherwise nothing changes |
| Posts.PostStore.GetPostById | src/posts/models.py:33-40 | found iff saved; otherwise `Post with id <id> does not exist!` |
| Posts.PostStore.GetAllPosts | src/posts/models.py:42-44 | the listing holds only saved posts and is no longer than the number of ids handed out |
| Posts.PostStore.ListingIsComplete | src/posts/models.py:42-44 | every saved post is listed once, in insertion order |
| Posts.PostStore.UpdateFields | src/posts/models.py:50-55 | the result is the update rule's (`self`/`user`/`cls` keywords first, then keys, the author-equality guard, values); only on success does that one post change, to the requested values, a null author included |
| Posts.PostStore.DeletePost | src/posts/models.py:57-60 | succeeds iff the post's author equals the requester (no user on an authorless post included); then exactly that post is removed, otherwise nothing changes |
| Posts.PostStore.DeleteAuthorPosts | src/posts/models.py:12 | no post of the author remains and every other post is kept unchanged |
| Posts.DeleteUser | src/posts/models.py:12 | deleting a user removes that user and cascades to exactly their posts; no post is added, and both id counters are kept |
| LogModels.LogErrors | src/logger/models.py:7-10 | a record is saved iff its level is one of INFO, ERROR, WARNING, CRITICAL and its message has at most 512 characters |
| LogModels.LongMessageRefused | src/logger/models.py:9 | an over-long message at a valid level is refused naming only `message` |
| LogModels.ToJson | src/logger/models.py:19-27 | keys log_id, log_file, log_type, message, data_and_time, with the level under log_type |
| LogModels.LogStore.CreateLog | src/logger/models.py:12-17 | saved iff storable; then exactly one record with the next id and the given fields is appended, otherwise the store is unchanged and the error returned |
| Logging.StorableLevels | src/logger/models.py:8 | exactly the levels from INFO upwards can be stored |
| Logging.SelectedLevel | src/logger/logger.py:58-65 | INFO, ERROR and DEBUG select their levels; any other string selects NOTSET |
| Logging.CountDatabaseAppend | src/logger/logger.py:43-55 | each factory call adds exactly one database handler |
| Logging.Emitted | src/logger/logger.py:11-21 | logging only appends records; a raised save leaves them unchanged; a stored message gets one copy per database handler |
| Logging.Logger.Emit | src/logger/logger.py:11-21 | records only grow; a raised save changes nothing; a level the logger does not enable stores nothing and raises nothing |
| Logging.EmittedOnce | src/logger/logger.py:15-21 | with one database handler, a storable record is saved once with the next id |
| Logging.LongMessageNeverStored | src/logger/logger.py:15-21 | a message over 512 characters is never stored and, at a storable level, raises the too-long error |
| Logging.Logger.GetLogger | src/logger/logger.py:28-67 | attaches file, stream and database handlers and sets the level the name selects |
| Logging.Logger.EffectiveLevel | src/logger/logger.py:37 | a logger left at NOTSET defers to the root level |
| Logging.Logger.Log | src/logger/logger.py:11-21 | the store and the raised error are those `Emitted` gives for the logger's level and handlers |
| Logging.Dispatch | src/logger/logger.py:15-21 | handlers run in order; each database handler saves a copy until a save raises |
| Logging.AppLogger | src/__init__.py:10 | the application logger has one database handler and level INFO: INFO and ERROR reach the store, DEBUG does not |
| Templates.OldVersion | src/logger/logger.py:170 | the old version holds exactly the record's fields that the request names, with the record's values |
| Templates.OldVersionFollowsRecord | src/logger/logger.py:170 | the old values follow the record's field order: earlier fields always come first |
| Templates.OldVersionIgnoresRequestOrder | src/logger/logger.py:170 | only which keys the request names matters, not their order |
| Templates.Credentials | src/logger/logger.py:81 | the prefix opens with the email; a missing name prints as `None` |
| Templates.CreatedUserLog | src/logger/logger.py:103 | the registration message is the credentials plus 29 characters |
| Templates.LoggedUserLog | src/logger/logger.py:104 | the login message is the credentials plus 18 characters |
| Templates.ErrorLog | src/logger/logger.py:83 | the error message is 35 characters longer than the error, path and method together |
| Templates.AuthenticatedErrorLog | src/logger/logger.py:84-85 | opens with the credentials; 33 characters longer than its parts |
| Templates.EndpointEnterLog | src/logger/logger.py:86 | opens with the credentials; 26 characters longer than its parts |
| Templates.CreatedRecordLog | src/logger/logger.py:87-91 | opens with the credentials; names the table and the decimal id |
| Templates.ChangedRecordLog | src/logger/logger.py:92-96 | opens with the credentials |
| Templates.DeletedRecordLog | src/logger/logger.py:97-100 | opens with the credentials; names the table and the decimal id |
| Templates.EndpointCalledLog | src/logger/logger.py:101 | opens with the path; 24 characters longer than path and method |
| Templates.AccountMessagesStartWithEmail | src/logger/logger.py:103-104 | the created-user and logged-in messages name the email right after `User ` |
| Templates.UserMessagesStartWithEmail | src/logger/logger.py:81-100 | every other message about a user opens with the email |
| Templates.ErrorMessagesQuoteTheError | src/logger/logger.py:83-85 | both error messages quote the error verbatim after the fixed opening |
| Templates.TestUserCredentials | src/logger/logger.py:81 | the test account's credential prefix is `test@example.com, Test User ` with its trailing space |
| Templates.CreatedUserMessage | src/logger/logger.py:103 | the test account's registration message is `User test@example.com, Test User was created successfully` |
| Templates.LoggedUserMessage | src/logger/logger.py:104 | the test account's login message is `User test@example.com, Test User has logged in` |
| Templates.TestUserRecordMessages | src/logger/logger.py:84-100 | the created, deleted and error messages of the test account name `base_model` and the id, or quote the error |
| Templates.ChangedPostFields | src/logger/logger.py:170 | for the test suite's update, the changed fields follow the record's field order, not the request's |
| Templates.ChangedFieldNames | src/logger/logger.py:176 | the field names print as `['title', 'text']` |
| LogViews.OrderOfPlainField | src/logger/views.py:13-16 | `asc` sorts ascending by the field; every other order sorts descending |
| LogViews.OrderBy | src/logger/views.py:13-16 | `asc` keeps the field name; any other order prefixes it with `-` |
| LogViews.ParseOrderBy | src/logger/views.py:18 | descending iff the sort expression starts with `-` |
| LogViews.LeadingMinusReverses | src/logger/views.py:13-18 | a `-field` sort key with `asc` still sorts descending by that field; a lone `-` is a refused query |
| LogViews.LowerText | src/logger/views.py:18 | lower-casing keeps the length and maps each character |
| LogViews.EmptySearchMatchesAll | src/logger/views.py:11 | the empty search matches every message |
| LogViews.Matching | src/logger/views.py:18 | exactly the records whose message contains the search, ignoring case |
| LogViews.TextLeTotal | src/logger/views.py:18 | any two texts are ordered one way or the other |
| LogViews.TextLeTransitive | src/logger/views.py:18 | the text order is transitive |
| LogViews.InOrderTotal | src/logger/views.py:18 | the sort order is total, for every field and direction |
| LogViews.InOrderTransitive | src/logger/views.py:18 | the sort order is transitive |
| LogViews.Insert | src/logger/views.py:18 | insertion adds exactly one record |
| LogViews.SortRecords | src/logger/views.py:18 | the sort is a permutation |
| LogViews.InsertSorted | src/logger/views.py:18 | insertion keeps a sorted list sorted |
| LogViews.SortRecordsSorted | src/logger/views.py:18 | the sort's result is in order |
| LogViews.SortWithoutFieldKeepsOrder | src/logger/views.py:18 | a sort on no declared field leaves the records in store order |
| LogViews.LogsAreTheMatchingRecordsInOrder | src/logger/views.py:7-19 | the query fails iff the sort expression leaves the empty field name; otherwise the page lists exactly the matching records, sorted by the chosen field and direction, in store order when the name selects no field |
| LogViews.PrimaryKeyNamesSortById | src/logger/views.py:13-18 | `id`, `pk` and `_id` all sort by the record id, descending unless `asc` |
| LogViews.EmptySortBy | src/logger/views.py:13-18 | an empty `sort_by` with `asc` is no sort at all; with any other order the query is refused |
| LogViews.Logs | src/logger/views.py:7-19 | none (a failed request) iff the sort expression leaves the empty field name; otherwise the page echoes the three arguments, defaults included, and lists the matching records, each as often as saved |
| LogViews.DefaultArguments | src/logger/views.py:9-11 | without arguments: date_and_time, desc, empty search |
| LogViews.DefaultPageIsNewestFirst | src/logger/views.py:9-18 | by default every record is listed, newest first |
| LogViews.MatchingAll | src/logger/views.py:11 | the empty search keeps the records as they are |
| PostViews.Requester | src/user/utils.py:25-30 | the requester is the saved user with the token's id, if there is one |
| PostViews.Reported | src/posts/views.py:33-41 | the error branch answers 400 with the error iff the requester exists and the ERROR log is saved, else 500; logs only grow |
| PostViews.OverlongEmailIsInternalError | src/posts/views.py:33-41 | a requester whose email exceeds 512 characters gets 500 and no record |
| PostViews.OverlongErrorIsInternalError | src/posts/views.py:33-41 | an error over 512 characters is never answered with 400: 500 and no record |
| PostViews.Report | src/posts/views.py:33-41 | the error branch as `Reported` states it |
| PostViews.Answered | src/posts/views.py:23-43 | 200 iff the store succeeded, the requester exists, the INFO log is saved and the post can be serialised; otherwise 400 or 500; a 500 logs nothing unless it follows the INFO record |
| PostViews.OneRecordPerAnswer | src/posts/views.py:23-43 | with the application logger, a 200 leaves one INFO record, a 400 one ERROR record, a 500 none, or the INFO record when the post cannot be serialised |
| PostViews.Answer | src/posts/views.py:23-43 | the try/except shape as `Answered` states it |
| PostViews.EventResponse | src/posts/views.py:43 | 200 iff the event's post can be serialised, otherwise 500 |
| PostViews.UnanswerableAfterLogging | src/posts/views.py:63-82 | a post left without an author is logged at INFO and then answered with 500 |
| PostViews.ListPosts | src/posts/views.py:11-16 | one endpoint log, then 200 with every post, or 500 when that log raises |
| PostViews.RawDocument | src/posts/views.py:11-16 | the raw stored document: `_id`, the `_cls` marker, title, text, and the author or null |
| PostViews.GetPost | src/posts/views.py:47-52 | one endpoint log, then 200 with the post; a missing post, or one without an author, is a 500, not a 400 |
| PostViews.CreateResult | src/posts/views.py:24 | a body with its own `author` or `cls` key fails with a TypeError, outside the ValidationError path |
| PostViews.CreatedByRequester | src/posts/views.py:24 | a created post's author is always the requester |
| PostViews.DeletedUserCannotCreate | src/posts/views.py:21-24 | a token of a deleted user never creates a post |
| PostViews.CreatePost | src/posts/views.py:18-43 | no identity: 401 `Authorization required`, nothing changes; otherwise the post is saved as the creation rule says (a body naming `author` or `cls` is a 500 with no record), the id counter advances exactly when a post is saved, and the answer and log are `Answered` |
| PostViews.OnlyAuthorPatches | src/posts/views.py:60-61 | a patch succeeds only for a requester equal to the author of an existing post (a user its author, or no user on an authorless post), with a non-empty body of declared fields, and keeps the constraints |
| PostViews.PatchOutcome | src/posts/views.py:60-61 | a missing post is reported as not found; a `self`, `user` or `cls` key is a TypeError; a success carries the post before and after the update |
| PostViews.CollidingKeywordsAreInternalErrors | src/posts/views.py:18-82 | a body key that names a parameter of the called function is a 500 with no record and no change |
| PostViews.OwnerClearsAuthor | src/posts/views.py:54-82 | the author's `{"author": null}` is written and logged at INFO, then answered with 500 |
| PostViews.NoUserChangesAuthorlessPost | src/posts/views.py:54-109 | without a saved user, an authorless post is deleted, or updated when the update passes; the answer is then 500 with no record |
| PostViews.PatchPost | src/posts/views.py:54-82 | no identity: 401, nothing changes; otherwise the post changes exactly when the update rule succeeds (a null author, and a token whose user is gone on an authorless post, included); a `self`, `user` or `cls` key is a 500; the log shows the pre-update values |
| PostViews.DeleteOutcome | src/posts/views.py:88-90 | succeeds iff the post exists and its author equals the requester (no user on an authorless post included) |
| PostViews.DeletePost | src/posts/views.py:84-109 | no identity: 401, nothing changes; otherwise exactly that post is removed when its author equals the requester (a token whose user is gone on an authorless post included), even when the answer is then a 500; a missing post is reported with its not-found message |
| UserViews.ErrorReported | src/user/views.py:19-21 | 400 with the error iff the ERROR log, which has no credentials, is saved; otherwise 500 with the log unchanged |
| UserViews.RegisterAnswered | src/user/views.py:14-23 | 201 with the public projection iff the user was created and its INFO log saved; validation errors are reported; anything else is 500 |
| UserViews.Register | src/user/views.py:14-23 | the user store changes as the creation rule says (a `cls` key is a 500 with no record), the id counter advances exactly when a user is saved, and the answer and log are `RegisterAnswered` |
| UserViews.ClsKeywordIsInternalError | src/user/views.py:14-23 | a body naming `cls` creates no user and is a 500 with no record |
| UserViews.ReportError | src/user/views.py:19-21 | the error branch as `ErrorReported` states it |
| UserViews.OverlongRegistrationError | src/user/views.py:19-21 | an error over 512 characters cannot be reported: 500 and no record |
| UserViews.ReportedOnce | src/user/views.py:19-21 | with the application logger, a reported error leaves one ERROR record and answers 400 |
| UserViews.DuplicateRegistrationAnswered | src/user/views.py:16-21 | a second registration of an email, in a body that does not name `cls`, gets 400 `Email is already taken!` and one ERROR record |
| UserViews.LoginResultOf | src/user/views.py:30-34 | a login succeeds only as a saved user with the given email whose hash accepts the given password; an unknown email never succeeds |
| UserViews.LoginIffCredentials | src/user/views.py:30-34 | with unique emails, a login succeeds as a user iff the body gives that user's email and a password that checks |
| UserViews.RegisteredUserCanLogIn | src/user/views.py:30-34 | right after registering, the same email and password log in as the new user |
| UserViews.Login | src/user/views.py:27-40 | wrong credentials: 401 and no log; success: the token for the user's id with a one-hour lifetime after one INFO log, or 500 if that log raises |

## Left out

- Storage, queries and I/O: MongoDB itself, the file and stream handlers' output, `render_template`'s HTML, and the Flask routing and configuration are not modelled. Stores are in-memory and responses are values.
- ObjectIds are natural numbers from a counter and print in decimal, not as 24 hexadecimal digits. A malformed id in a URL, which MongoEngine would reject while querying, is not modelled.
- Python's `repr` of strings prints them between single quotes without escaping quotes or backslashes inside them.
- Documents whose request body includes `id`: the key passes the field check, but what the save then does with a client-chosen id is not modelled. When the body is otherwise valid, such a request is treated as an unhandled exception (500). With field errors it is answered 400, and the message shows `None` as the primary key where MongoEngine would show the client's id or report an invalid ObjectId.
- JSON decoding is not modelled. A request body is its key/value pairs with each key once, as a Python dict holds them; the decoder keeping the last of duplicate keys happens before the model sees the body.
- The document constructor's other accepted keys (`pk`, `_cls`, `_text_score`) are treated like undeclared keys.
- A string given as an `author` value is not converted into a reference; only user references, and null in an update, pass.
- The update's treatment of a null reference (prepared without validation) is MongoEngine's update path, which is not part of this model; the model writes the null as that path does.
- An empty PATCH body is modelled as MongoEngine's "no update parameters" error, which the view does not catch (500).
- The date of a log record is the handler's `asctime` text in the source and a timestamp parameter here. Date parsing and formatting are not modelled.
- bcrypt is a `Hasher` parameter (`hash(password, salt)` and `check`). `Sound` states the one property used. Salt generation is a parameter.
- JWT signing is a `sign(identity, lifetime)` parameter. Token verification is replaced by the optional identity it yields. An identity that is not a valid id is treated as no usable identity (401).
- Login with a non-string email: the query for a non-string value is modelled as finding nobody.
- CreateUserResult: a non-string email is modelled as matching no saved user (`EmailTaken`), so registration goes on to the save and its `StringField only accepts string values` error. MongoEngine passes a non-string value to the query unchanged, and MongoDB can read an object such as `{"$ne": null}` as an operator that matches any user, which answers `Email is already taken!`. Query operators inside values are not modelled.
- LogViews.Logs: sort names MongoDB refuses other than the empty one (such as a name starting with `$`), and nested paths written with `__`, are treated as names that select no field.
- LogViews.Matching: case-insensitive matching folds only ASCII letters, not full Unicode case folding.
- LogViews.SortRecords: records with equal keys may come out in a different relative order than MongoDB's. A name that selects no declared field (nor `id`, `pk` or `_id`) sorts every record as missing that field; the model keeps the store's order for it.
- PostViews.ListPosts: the source returns the query set as one JSON string. The model returns the list of raw documents that string encodes, with ids in decimal inside the `$oid` wrappers.
- The standard logging machinery beyond levels and handler order (propagation to ancestor loggers, filters, `lastResort`) is not modelled.

## Findings

None.
