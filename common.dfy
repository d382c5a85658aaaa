/**
 * Values shared by the models and the views: request-body and document values,
 * JSON bodies, requests and responses, the outcome of a document operation, and
 * the Python-style renderings (`str`, `repr`) that the log messages and the
 * document layer's validation messages are built from.
 */
module Common {
  import opened Wrappers

  /** A value of a request body or of a document field. */
  datatype Value =
    | Str(s: string)
    | Null
      /** a saved User document (a reference field's value) */
    | Ref(userId: nat)
      /** any other JSON value (number, boolean, list, object), by its repr and its truthiness */
    | Other(repr: string, truthy: bool)

  /** Python truthiness, as `not value` tests it. */
  predicate Truthy(v: Value)
  {
    match v
    case Str(s) => |s| > 0
    case Null => false
    case Ref(_) => true
    case Other(_, t) => t
  }

  /**
   * Keyword arguments or a decoded JSON object: keys in insertion order. The
   * source's values are Python dicts, so a key occurs at most once
   * (`DistinctKeys`); a duplicate key in the raw JSON text has already been
   * collapsed to its last value by the decoder, which is not modelled.
   */
  type Fields = seq<(string, Value)>

  function Keys(fields: Fields): (ks: seq<string>)
    ensures |ks| == |fields|
    ensures forall i :: 0 <= i < |fields| ==> ks[i] == fields[i].0
  {
    if fields == [] then [] else [fields[0].0] + Keys(fields[1..])
  }

  /** A Python dict never holds a key twice. */
  predicate DistinctKeys(fields: Fields)
  {
    forall i, j :: 0 <= i < j < |fields| ==> fields[i].0 != fields[j].0
  }

  /** `fields.get(key)`. */
  function Lookup(fields: Fields, key: string): (r: Option<Value>)
    ensures r.None? <==> key !in Keys(fields)
    ensures r.Some? ==> (key, r.value) in fields
  {
    if fields == [] then None
    else if fields[0].0 == key then Some(fields[0].1)
    else Lookup(fields[1..], key)
  }

  /** The fields without the entry for `key` (`kwargs.pop(key)`). */
  function Without(fields: Fields, key: string): (r: Fields)
    ensures forall kv :: kv in r <==> kv in fields && kv.0 != key
  {
    if fields == [] then []
    else if fields[0].0 == key then Without(fields[1..], key)
    else [fields[0]] + Without(fields[1..], key)
  }

  datatype Json =
    | JStr(s: string)
    | JNull
    | JNum(n: int)
    | JObj(members: seq<(string, Json)>)
    | JArr(items: seq<Json>)

  function JsonKeys(members: seq<(string, Json)>): seq<string>
  {
    seq(|members|, i requires 0 <= i < |members| => members[i].0)
  }

  /** The part of a Flask request the core reads: its path and its HTTP method (`verb`). */
  datatype Request = Request(path: string, verb: string)

  datatype Response = Response(status: nat, body: Json)

  function MessageResponse(status: nat, text: string): Response
  {
    Response(status, JObj([("message", JStr(text))]))
  }

  /** `{'error': message}, 400`: how every caught ValidationError is answered. */
  function ErrorResponse(message: string): Response
  {
    Response(400, JObj([("error", JStr(message))]))
  }

  /** Any exception other than a ValidationError escapes the handler. */
  const INTERNAL_ERROR := MessageResponse(500, "Internal Server Error")

  /**
   * The outcome of a document operation: a value, a ValidationError with its
   * message (the views catch these), or any other exception (they do not).
   */
  datatype DbResult<T> = Ok(value: T) | Invalid(message: string) | Unhandled(reason: string)

  // ---- Python text renderings ----

  function Digit(d: nat): char
    requires d < 10
  {
    "0123456789"[d]
  }

  /** `str(n)` for a natural number. */
  function DecimalText(n: nat): (r: string)
    ensures |r| >= 1
    ensures forall i :: 0 <= i < |r| ==> '0' <= r[i] <= '9'
  {
    if n < 10 then [Digit(n)] else DecimalText(n / 10) + [Digit(n % 10)]
  }

  /** `repr` of a string (quote escaping is not modelled). */
  function PyStr(s: string): string
  {
    "'" + s + "'"
  }

  function PyRepr(v: Value): string
  {
    match v
    case Str(s) => PyStr(s)
    case Null => "None"
    case Ref(_) => "<User: User object>"
    case Other(r, _) => r
  }

  function JoinComma(items: seq<string>): string
  {
    if items == [] then ""
    else if |items| == 1 then items[0]
    else items[0] + ", " + JoinComma(items[1..])
  }

  /** `repr` of a list of strings: `['a', 'b']`. */
  function PyList(items: seq<string>): string
  {
    "[" + JoinComma(seq(|items|, i requires 0 <= i < |items| => PyStr(items[i]))) + "]"
  }

  /** `repr` of a dict: `{'a': 'x', 'b': 'y'}`, in insertion order. */
  function PyDict(fields: Fields): string
  {
    "{" + JoinComma(seq(|fields|, i requires 0 <= i < |fields| => PyStr(fields[i].0) + ": " + PyRepr(fields[i].1))) + "}"
  }

  // ---- the document layer's validation messages ----

  const FIELD_REQUIRED := "Field is required"
  const STRING_ONLY := "StringField only accepts string values"
  const STRING_TOO_LONG := "String value is too long"
  const STRING_TOO_SHORT := "String value is too short"
  const REFERENCE_ONLY := "A ReferenceField only accepts DBRef, LazyReference, ObjectId or documents"

  /**
   * What a string field with the given bounds says of a value that is present:
   * the type test first, then the maximum, then the minimum.
   */
  function StringFieldError(v: Value, minLength: nat, maxLength: Option<nat>): (r: Option<string>)
    ensures r.None? <==> v.Str? && |v.s| >= minLength && (maxLength.Some? ==> |v.s| <= maxLength.value)
  {
    if !v.Str? then Some(STRING_ONLY)
    else if maxLength.Some? && |v.s| > maxLength.value then Some(STRING_TOO_LONG)
    else if |v.s| < minLength then Some(STRING_TOO_SHORT)
    else None
  }

  /** The error entry a field contributes to a save-time validation, if any. */
  function FieldError(name: string, error: Option<string>): seq<(string, string)>
  {
    if error.Some? then [(name, error.value)] else []
  }

  /** A string field that is not required: absent and null values pass. */
  function OptionalStringError(v: Option<Value>, maxLength: nat): (r: Option<string>)
    ensures r.None? <==> v.None? || v.value.Null? || (v.value.Str? && |v.value.s| <= maxLength)
  {
    if v.None? || v.value.Null? then None else StringFieldError(v.value, 0, Some(maxLength))
  }

  /** The distinct strings of `s`, in order of first appearance. */
  function Dedup(s: seq<string>): (r: seq<string>)
    ensures forall x :: x in r <==> x in s
    ensures forall i, j :: 0 <= i < j < |r| ==> r[i] != r[j]
  {
    if s == [] then []
    else
      var d := Dedup(s[..|s| - 1]);
      assert forall x :: x in s <==> x in s[..|s| - 1] || x == s[|s| - 1];
      if s[|s| - 1] in d then d else d + [s[|s| - 1]]
  }

  /** The fields that failed with the given reason, in validation order. */
  function FieldsWith(errors: seq<(string, string)>, reason: string): seq<string>
  {
    if errors == [] then []
    else (if errors[0].1 == reason then [errors[0].0] else []) + FieldsWith(errors[1..], reason)
  }

  function Reasons(errors: seq<(string, string)>): seq<string>
  {
    seq(|errors|, i requires 0 <= i < |errors| => errors[i].1)
  }

  function JoinSpace(items: seq<string>): string
  {
    if items == [] then ""
    else if |items| == 1 then items[0]
    else items[0] + " " + JoinSpace(items[1..])
  }

  /** Errors grouped by reason: `Field is required: ['title', 'text'] String value is too long: ['x']`. */
  function FormatErrors(errors: seq<(string, string)>): string
  {
    var rs := Dedup(Reasons(errors));
    JoinSpace(seq(|rs|, i requires 0 <= i < |rs| => rs[i] + ": " + PyList(FieldsWith(errors, rs[i]))))
  }

  /** A single failing field renders as `reason: ['name']`. */
  lemma FormatOneError(name: string, reason: string)
    ensures FormatErrors([(name, reason)]) == reason + ": ['" + name + "']"
  {
    var errors := [(name, reason)];
    assert Reasons(errors) == [reason];
    var rs := Dedup([reason]);
    assert rs == [reason] by {
      assert [reason][..|[reason]| - 1] == [];
      assert Dedup([]) == [];
    }
    assert FieldsWith(errors, reason) == [name] by {
      assert errors[1..] == [];
    }
    var quoted := seq(1, i requires 0 <= i < 1 => PyStr([name][i]));
    assert quoted == [PyStr(name)];
    assert PyList([name]) == "['" + name + "']";
    var entries := seq(|rs|, i requires 0 <= i < |rs| => rs[i] + ": " + PyList(FieldsWith(errors, rs[i])));
    assert |entries| == 1 && entries[0] == reason + ": " + PyList([name]);
    assert JoinSpace(entries) == entries[0];
  }

  /** The save-time message when exactly one field fails. */
  lemma SaveErrorOne(className: string, name: string, reason: string)
    ensures SaveErrorMessage(className, [(name, reason)])
         == "ValidationError (" + className + ":None) (" + reason + ": ['" + name + "'])"
  {
    FormatOneError(name, reason);
  }

  /** The message of the ValidationError a document's `save()` raises for these field errors. */
  function SaveErrorMessage(className: string, errors: seq<(string, string)>): string
  {
    "ValidationError (" + className + ":None) (" + FormatErrors(errors) + ")"
  }
}
