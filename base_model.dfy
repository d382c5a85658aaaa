/**
 * The inheritance root of the User and Posts documents: the collection name
 * they share and the check that keyword arguments name only declared fields.
 */
module BaseModel {
  import opened Wrappers
  import opened Common

  /** `get_table_name`: every document inheriting from the root is stored in the root's collection. */
  const COLLECTION := "base_model"

  function NotAValidField(key: string): string
  {
    "'" + key + "' is not a valid field"
  }

  /** The first key, in iteration order, that is not one of the declared fields. */
  function FirstUnknownKey(keys: seq<string>, declared: seq<string>): (r: Option<string>)
    ensures r.None? <==> forall k :: k in keys ==> k in declared
    ensures r.Some? ==> r.value in keys && r.value !in declared
  {
    if keys == [] then None
    else if keys[0] !in declared then Some(keys[0])
    else
      assert forall k :: k in keys ==> k == keys[0] || k in keys[1..];
      FirstUnknownKey(keys[1..], declared)
  }

  /**
   * `are_fields_valid`: walks the keyword arguments in order and fails on the
   * first key that is not a declared field of the model.
   */
  function AreFieldsValid(declared: seq<string>, fields: Fields): (r: Outcome<string>)
    ensures r.Pass? <==> forall i :: 0 <= i < |fields| ==> fields[i].0 in declared
    ensures r.Fail? ==> exists i :: 0 <= i < |fields| && fields[i].0 !in declared && r.error == NotAValidField(fields[i].0)
  {
    match FirstUnknownKey(Keys(fields), declared)
    case None =>
      assert forall i :: 0 <= i < |fields| ==> Keys(fields)[i] in Keys(fields);
      Pass
    case Some(k) => Fail(NotAValidField(k))
  }

  /**
   * The first keyword argument, in order, that names a parameter the call
   * already binds (a class method's `cls`, a method's `self`, or one passed
   * explicitly). Python refuses such a call with a TypeError before the body
   * runs.
   */
  function BoundParameter(fields: Fields, bound: seq<string>): (r: Option<string>)
    ensures r.None? <==> forall i :: 0 <= i < |fields| ==> fields[i].0 !in bound
    ensures r.Some? ==> r.value in bound && r.value in Keys(fields)
  {
    if fields == [] then None
    else if fields[0].0 in bound then Some(fields[0].0)
    else
      var r := BoundParameter(fields[1..], bound);
      assert forall i :: 1 <= i < |fields| ==> fields[i] == fields[1..][i - 1];
      assert r.Some? ==> r.value in Keys(fields[1..]) ==> r.value in Keys(fields) by {
        assert Keys(fields) == [fields[0].0] + Keys(fields[1..]);
      }
      r
  }

  /** `are_fields_valid(cls, **fields)` binds `cls` itself. */
  const ARE_FIELDS_VALID_BOUND := ["cls"]

  /** Only the keys are inspected: two argument lists with the same keys get the same verdict. */
  lemma ValuesAreIgnored(declared: seq<string>, a: Fields, b: Fields)
    requires Keys(a) == Keys(b)
    ensures AreFieldsValid(declared, a) == AreFieldsValid(declared, b)
  {
  }

  /** An empty set of keyword arguments is always valid. */
  lemma EmptyIsValid(declared: seq<string>)
    ensures AreFieldsValid(declared, []) == Pass
  {
  }

  /**
   * The reported key is the first unknown one: whatever follows it, and
   * whatever declared keys come before it, the message names that key.
   */
  lemma {:induction false} ReportsFirstUnknown(declared: seq<string>, known: Fields, key: string, v: Value, rest: Fields)
    requires forall i :: 0 <= i < |known| ==> known[i].0 in declared
    requires key !in declared
    ensures AreFieldsValid(declared, known + [(key, v)] + rest) == Fail(NotAValidField(key))
  {
    var tail := [(key, v)] + rest;
    assert known + [(key, v)] + rest == known + tail;
    KeysOfConcat(known, tail);
    KeysOfConcat([(key, v)], rest);
    assert Keys(tail)[0] == key;
    FirstUnknownAfterKnown(Keys(known), Keys(tail), declared);
  }

  lemma KeysOfConcat(a: Fields, b: Fields)
    ensures Keys(a + b) == Keys(a) + Keys(b)
  {
    assert Keys(a + b) == Keys(a) + Keys(b);
  }

  lemma {:induction false} FirstUnknownAfterKnown(known: seq<string>, rest: seq<string>, declared: seq<string>)
    requires forall i :: 0 <= i < |known| ==> known[i] in declared
    ensures FirstUnknownKey(known + rest, declared) == FirstUnknownKey(rest, declared)
  {
    if known != [] {
      assert (known + rest)[0] == known[0] && known[0] in declared;
      assert (known + rest)[1..] == known[1..] + rest;
      assert FirstUnknownKey(known + rest, declared) == FirstUnknownKey(known[1..] + rest, declared);
      FirstUnknownAfterKnown(known[1..], rest, declared);
    } else {
      assert known + rest == rest;
    }
  }
}
