/**
 * The extra information carried by a WouldChangeOwningShard error: the
 * original query predicate and the post-image of the update, each
 * optional. It is written into the error's BSON object under two field
 * names and read back from a command error's object.
 *
 * A BSON object is modelled as its sequence of (field name, value) pairs;
 * a value is either an embedded object or some other BSON value.
 */
module WouldChangeOwningShard {
  import opened Base

  datatype Value =
    | Object(fields: seq<Field>)
    | Scalar(tag: nat)

  datatype Field = Field(name: string, value: Value)

  type BSONObj = seq<Field>

  const OriginalQueryPredicateKey: string := "originalQueryPredicate"
  const PostImageKey: string := "postImage"

  /** `WouldChangeOwningShardInfo`. */
  datatype Info = Info(originalQueryPredicate: Option<BSONObj>, postImage: Option<BSONObj>)

  /**
   * The error `BSONElement::Obj()` raises on an element that is not an
   * embedded object. It is defined outside this model; its code and
   * reason are assumed.
   */
  const NotAnObjectStatus: Status := Status(Coded(10065, {}), "invalid parameter: expected an object")

  /** `obj[name]`: the first field with that name, if any. */
  function Lookup(obj: BSONObj, name: string): (r: Option<Value>)
    ensures r.None? <==> forall i :: 0 <= i < |obj| ==> obj[i].name != name
    ensures r.Some? ==> exists i :: 0 <= i < |obj| && obj[i].name == name && obj[i].value == r.value &&
                                   forall j :: 0 <= j < i ==> obj[j].name != name
    decreases |obj|
  {
    if obj == [] then None
    else if obj[0].name == name then Some(obj[0].value)
    else
      var r := Lookup(obj[1..], name);
      assert r.Some? ==> exists i :: 1 <= i < |obj| && obj[i].name == name && obj[i].value == r.value &&
                                     forall j :: 0 <= j < i ==> obj[j].name != name by {
        if r.Some? {
          var k :| 0 <= k < |obj[1..]| && obj[1..][k].name == name && obj[1..][k].value == r.value &&
                   forall j :: 0 <= j < k ==> obj[1..][j].name != name;
          assert obj[k + 1].name == name && obj[k + 1].value == r.value;
          assert forall j :: 0 <= j < k + 1 ==> obj[j].name != name by {
            forall j | 0 <= j < k + 1 ensures obj[j].name != name {
              if j > 0 { assert obj[j] == obj[1..][j - 1]; }
            }
          }
        }
      }
      r
  }

  /** A BSON object builder: the fields appended so far, in order. */
  class BSONObjBuilder {
    var fields: seq<Field>

    constructor ()
      ensures fields == []
    {
      fields := [];
    }

    /** `append(name, obj)`: adds one field holding an embedded object. */
    method Append(name: string, obj: BSONObj)
      modifies this
      ensures fields == old(fields) + [Field(name, Object(obj))]
    {
      fields := fields + [Field(name, Object(obj))];
    }
  }

  /**
   * The fields `serialize` appends: the query predicate, then the
   * post-image, each only when present.
   */
  function Serialized(info: Info): (fields: seq<Field>)
    ensures |fields| <= 2
    ensures forall i :: 0 <= i < |fields| ==> fields[i].name in {OriginalQueryPredicateKey, PostImageKey}
    ensures Lookup(fields, OriginalQueryPredicateKey) ==
      (if info.originalQueryPredicate.Some? then Some(Object(info.originalQueryPredicate.value)) else None)
    ensures Lookup(fields, PostImageKey) ==
      (if info.postImage.Some? then Some(Object(info.postImage.value)) else None)
  {
    (if info.originalQueryPredicate.Some? then [Field(OriginalQueryPredicateKey, Object(info.originalQueryPredicate.value))] else []) +
    (if info.postImage.Some? then [Field(PostImageKey, Object(info.postImage.value))] else [])
  }

  /** `WouldChangeOwningShardInfo::serialize`. */
  method Serialize(info: Info, bob: BSONObjBuilder)
    modifies bob
    ensures bob.fields == old(bob.fields) + Serialized(info)
  {
    if info.originalQueryPredicate.Some? {
      bob.Append(OriginalQueryPredicateKey, info.originalQueryPredicate.value);
    }
    if info.postImage.Some? {
      bob.Append(PostImageKey, info.postImage.value);
    }
  }

  /**
   * Reads one optional field: absent gives none, an embedded object gives
   * that object, any other value is an error.
   */
  function ReadOptionalObject(obj: BSONObj, name: string): (r: Result<Option<BSONObj>, Status>)
    ensures r.Ok? && r.value.None? <==> Lookup(obj, name).None?
    ensures r.Ok? && r.value.Some? <==> Lookup(obj, name).Some? && Lookup(obj, name).value.Object?
    ensures r.Ok? && r.value.Some? ==> Lookup(obj, name) == Some(Object(r.value.value))
    ensures r.Err? ==> r.error == NotAnObjectStatus
  {
    match Lookup(obj, name)
    case None => Ok(None)
    case Some(Object(fields)) => Ok(Some(fields))
    case Some(Scalar(_)) => Err(NotAnObjectStatus)
  }

  /**
   * `WouldChangeOwningShardInfo::parseFromCommandError`: each field is
   * taken when present and must then be an object; the query predicate is
   * read first.
   */
  function ParseFromCommandError(obj: BSONObj): (r: Result<Info, Status>)
    ensures r.Ok? <==> ReadOptionalObject(obj, OriginalQueryPredicateKey).Ok? &&
                       ReadOptionalObject(obj, PostImageKey).Ok?
    ensures r.Ok? ==> r.value.originalQueryPredicate == ReadOptionalObject(obj, OriginalQueryPredicateKey).value &&
                      r.value.postImage == ReadOptionalObject(obj, PostImageKey).value
    ensures r.Err? ==> r.error == NotAnObjectStatus
  {
    match ReadOptionalObject(obj, OriginalQueryPredicateKey)
    case Err(e) => Err(e)
    case Ok(original) =>
      match ReadOptionalObject(obj, PostImageKey)
      case Err(e) => Err(e)
      case Ok(post) => Ok(Info(original, post))
  }

  /** `WouldChangeOwningShardInfo::parse`: the same reading, behind a shared pointer. */
  function Parse(obj: BSONObj): (r: Result<Info, Status>)
    ensures r.Ok? <==> ParseFromCommandError(obj).Ok?
    ensures r.Ok? ==> r.value == ParseFromCommandError(obj).value
  {
    ParseFromCommandError(obj)
  }

  /** Looking a name up past a prefix that does not hold it. */
  lemma {:induction false} LookupPastPrefix(prefix: BSONObj, rest: BSONObj, name: string)
    requires forall i :: 0 <= i < |prefix| ==> prefix[i].name != name
    ensures Lookup(prefix + rest, name) == Lookup(rest, name)
    decreases |prefix|
  {
    if prefix != [] {
      assert (prefix + rest)[0] == prefix[0];
      assert (prefix + rest)[1..] == prefix[1..] + rest;
      assert Lookup(prefix + rest, name) == Lookup(prefix[1..] + rest, name);
      LookupPastPrefix(prefix[1..], rest, name);
    } else {
      assert prefix + rest == rest;
    }
  }

  /**
   * What `serialize` writes, after any fields of the error that use
   * neither name (its code and message), is read back by
   * `parseFromCommandError` as the same information.
   */
  lemma SerializeThenParse(prefix: BSONObj, info: Info)
    requires forall i :: 0 <= i < |prefix| ==> prefix[i].name != OriginalQueryPredicateKey && prefix[i].name != PostImageKey
    ensures ParseFromCommandError(prefix + Serialized(info)) == Ok(info)
    ensures Parse(prefix + Serialized(info)) == Ok(info)
  {
    LookupPastPrefix(prefix, Serialized(info), OriginalQueryPredicateKey);
    LookupPastPrefix(prefix, Serialized(info), PostImageKey);
  }

  /** An object holding neither field parses as information with neither part. */
  lemma ParseWithoutFields(obj: BSONObj)
    requires forall i :: 0 <= i < |obj| ==> obj[i].name != OriginalQueryPredicateKey && obj[i].name != PostImageKey
    ensures ParseFromCommandError(obj) == Ok(Info(None, None))
  {
  }

  /** A field under either name that is not an object makes parsing fail. */
  lemma ParseRejectsNonObject(obj: BSONObj, name: string)
    requires name == OriginalQueryPredicateKey || name == PostImageKey
    requires Lookup(obj, name).Some? && Lookup(obj, name).value.Scalar?
    ensures ParseFromCommandError(obj) == Err(NotAnObjectStatus)
  {
  }

  /**
   * Whatever a command error holds, the information read from it, written
   * out again into a fresh builder, reads back the same.
   */
  lemma ParseSerializeParse(obj: BSONObj)
    requires ParseFromCommandError(obj).Ok?
    ensures ParseFromCommandError(Serialized(ParseFromCommandError(obj).value)) == ParseFromCommandError(obj)
  {
    SerializeThenParse([], ParseFromCommandError(obj).value);
    assert [] + Serialized(ParseFromCommandError(obj).value) == Serialized(ParseFromCommandError(obj).value);
  }
}
