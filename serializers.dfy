/**
 * gpio_controller/serializers.py: the two action serializers (one bounded
 * float field each, with a default) and the field lists of the two model
 * serializers. Request bodies are maps from keys to JSON values.
 */
module Serializers {

  import opened Wrappers
  import opened Models

  datatype Json =
    | JNull
    | JBool(b: bool)
    | JNum(n: real)
    | JStr(s: string)
    | JArray(items: seq<Json>)
    | JObject(members: map<string, Json>)

  type Body = map<string, Json>

  /** Why a float field refused its input. */
  datatype FieldError = NullValue | InvalidNumber | BelowMinimum | AboveMaximum

  /** A FloatField(default, min_value, max_value). */
  datatype FloatSpec = FloatSpec(key: string, default: real, minimum: real, maximum: real)

  const Duration: FloatSpec := FloatSpec("duration", 0.5, 0.1, 5.0)
  const HoldTime: FloatSpec := FloatSpec("hold_time", 2.0, 0.5, 10.0)

  /**
   * The number a FloatField reads from a JSON value: Python's float() of a
   * number or of a bool (true reads as 1.0); null is refused as null, and
   * strings, arrays and objects as not a number.
   */
  function AsFloat(j: Json): (r: Result<real, FieldError>)
    ensures r.Success? <==> j.JNum? || j.JBool?
    ensures j.JNum? ==> r == Success(j.n)
    ensures j.JBool? ==> r == Success(if j.b then 1.0 else 0.0)
    ensures j.JNull? ==> r == Failure(NullValue)
  {
    match j
    case JNum(n) => Success(n)
    case JBool(b) => Success(if b then 1.0 else 0.0)
    case JNull => Failure(NullValue)
    case _ => Failure(InvalidNumber)
  }

  /** A bounded float field: a missing key takes the default; a given value must lie in [minimum, maximum]. */
  function ValidateFloat(spec: FloatSpec, body: Body): (r: Result<real, FieldError>)
    ensures spec.key !in body ==> r == Success(spec.default)
    ensures spec.key in body && r.Success? ==> AsFloat(body[spec.key]) == r
    ensures spec.key in body ==>
      (r.Success? <==> AsFloat(body[spec.key]).Success? && spec.minimum <= AsFloat(body[spec.key]).value <= spec.maximum)
  {
    if spec.key !in body then Success(spec.default)
    else match AsFloat(body[spec.key])
      case Failure(e) => Failure(e)
      case Success(x) =>
        if x < spec.minimum then Failure(BelowMinimum)
        else if x > spec.maximum then Failure(AboveMaximum)
        else Success(x)
  }

  /** ResetActionSerializer: the validated pulse duration. */
  function ValidateReset(body: Body): Result<real, FieldError> {
    ValidateFloat(Duration, body)
  }

  /** ForceRecoveryActionSerializer: the validated hold time. */
  function ValidateForceRecovery(body: Body): Result<real, FieldError> {
    ValidateFloat(HoldTime, body)
  }

  /** Whatever the body holds, an accepted duration lies in [0.1, 5.0], 0.5 when none is given. */
  lemma ResetDurationBounded(body: Body)
    ensures ValidateReset(body).Success? ==> 0.1 <= ValidateReset(body).value <= 5.0
    ensures "duration" !in body ==> ValidateReset(body) == Success(0.5)
  {
  }

  /** A number given as the duration is accepted exactly when it lies in [0.1, 5.0], and used as given. */
  lemma ResetDurationAcceptedIff(body: Body, d: real)
    requires "duration" in body && body["duration"] == JNum(d)
    ensures ValidateReset(body).Success? <==> 0.1 <= d <= 5.0
    ensures ValidateReset(body).Success? ==> ValidateReset(body).value == d
  {
  }

  /** Whatever the body holds, an accepted hold time lies in [0.5, 10.0], 2.0 when none is given. */
  lemma HoldTimeBounded(body: Body)
    ensures ValidateForceRecovery(body).Success? ==> 0.5 <= ValidateForceRecovery(body).value <= 10.0
    ensures "hold_time" !in body ==> ValidateForceRecovery(body) == Success(2.0)
  {
  }

  /** A number given as the hold time is accepted exactly when it lies in [0.5, 10.0], and used as given. */
  lemma HoldTimeAcceptedIff(body: Body, h: real)
    requires "hold_time" in body && body["hold_time"] == JNum(h)
    ensures ValidateForceRecovery(body).Success? <==> 0.5 <= h <= 10.0
    ensures ValidateForceRecovery(body).Success? ==> ValidateForceRecovery(body).value == h
  {
  }

  /** Only the field's own key matters: the read-only `success` and `message`, and any other key, are ignored. */
  lemma ValidateFloatIgnoresOtherKeys(spec: FloatSpec, body: Body, key: string, v: Json)
    requires key != spec.key
    ensures ValidateFloat(spec, body[key := v]) == ValidateFloat(spec, body)
  {
    assert (spec.key in body[key := v]) == (spec.key in body);
  }

  // ---------------------------------------------------------------------------
  // The model serializers

  datatype ModelSerializer = ConnectionSerializer | DeviceSerializer

  function Fields(s: ModelSerializer): seq<string> {
    match s
    case ConnectionSerializer =>
      ["id", "name", "reset", "force_recovery", "description", "is_enabled", "created_at", "updated_at"]
    case DeviceSerializer =>
      ["id", "name", "connected_to", "connected_to_name", "usb_connection", "description", "is_active",
       "created_at", "updated_at"]
  }

  /** The fields declared read-only in each serializer's Meta. */
  function DeclaredReadOnly(s: ModelSerializer): seq<string> {
    ["created_at", "updated_at"]
  }

  /**
   * Every field a client cannot write: the declared ones, the primary key
   * (an auto field), and the device's `connected_to_name` (declared
   * read-only on the field itself).
   */
  function ReadOnly(s: ModelSerializer): (r: set<string>)
    ensures forall f :: f in DeclaredReadOnly(s) ==> f in r
  {
    {"created_at", "updated_at", "id"} + (if s == DeviceSerializer then {"connected_to_name"} else {})
  }

  /** The fields accepted from a request body, in declaration order. */
  function Writable(s: ModelSerializer): (r: seq<string>)
    ensures forall f :: f in r <==> f in Fields(s) && f !in ReadOnly(s)
  {
    Keep(Fields(s), ReadOnly(s))
  }

  /** The elements of `xs` outside `drop`, in their order. */
  function Keep(xs: seq<string>, drop: set<string>): (r: seq<string>)
    ensures forall f :: f in r <==> f in xs && f !in drop
    ensures |r| <= |xs|
    decreases |xs|
  {
    if xs == [] then []
    else if xs[0] in drop then Keep(xs[1..], drop)
    else [xs[0]] + Keep(xs[1..], drop)
  }

  /** The part of a request body a model serializer reads: writable keys only. */
  function WritableInput(s: ModelSerializer, body: Body): (r: Body)
    ensures r.Keys == body.Keys * (set f | f in Writable(s))
    ensures forall k :: k in r ==> r[k] == body[k]
  {
    map k | k in body.Keys && k in Writable(s) :: body[k]
  }

  /** The timestamps and the id can never be set from a request, on either serializer. */
  lemma TimestampsReadOnly(s: ModelSerializer, body: Body)
    ensures "created_at" !in WritableInput(s, body)
    ensures "updated_at" !in WritableInput(s, body)
    ensures "id" !in WritableInput(s, body)
  {
  }

  /** What a client may write to a connection: its name, pins, description and enabled flag. */
  lemma ConnectionWritable()
    ensures Writable(ConnectionSerializer) == ["name", "reset", "force_recovery", "description", "is_enabled"]
  {
    var ro := ReadOnly(ConnectionSerializer);
    var tail := ["created_at", "updated_at"];
    assert Keep(tail[1..], ro) == [];
    assert Keep(tail, ro) == [];
    var fs := ["name", "reset", "force_recovery", "description", "is_enabled"];
    KeepKeeps(fs, tail, ro);
    assert Fields(ConnectionSerializer) == ["id"] + (fs + tail);
  }

  /** Dropping nothing from `xs` and everything from `ys`. */
  lemma {:induction false} KeepKeeps(xs: seq<string>, ys: seq<string>, drop: set<string>)
    requires forall i :: 0 <= i < |xs| ==> xs[i] !in drop
    requires Keep(ys, drop) == []
    ensures Keep(xs + ys, drop) == xs
    decreases |xs|
  {
    if xs != [] {
      assert (xs + ys)[1..] == xs[1..] + ys;
      KeepKeeps(xs[1..], ys, drop);
    } else {
      assert xs + ys == ys;
    }
  }

  /** A connection as the connection serializer shows it; the timestamps are given as text. */
  function ConnectionJson(c: Connection, createdAt: string, updatedAt: string): (r: map<string, Json>)
    ensures forall f :: f in r <==> f in Fields(ConnectionSerializer)
  {
    map[
      "id" := JNum(c.id as real),
      "name" := JStr(c.name),
      "reset" := JNum(c.reset as real),
      "force_recovery" := JNum(c.forceRecovery as real),
      "description" := JStr(c.description),
      "is_enabled" := JBool(c.isEnabled),
      "created_at" := JStr(createdAt),
      "updated_at" := JStr(updatedAt)
    ]
  }

  /** Every stored column reads back from a connection's representation: pins as whole numbers. */
  lemma ConnectionJsonReadsBack(c: Connection, createdAt: string, updatedAt: string)
    ensures var j := ConnectionJson(c, createdAt, updatedAt);
      && "id" in j && j["id"] == JNum(c.id as real)
      && "name" in j && j["name"] == JStr(c.name)
      && "description" in j && j["description"] == JStr(c.description)
      && "is_enabled" in j && j["is_enabled"] == JBool(c.isEnabled)
      && "reset" in j && j["reset"].JNum? && j["reset"].n.Floor == c.reset && j["reset"].n == c.reset as real
      && "force_recovery" in j && j["force_recovery"].JNum? && j["force_recovery"].n.Floor == c.forceRecovery
      && j["force_recovery"].n == c.forceRecovery as real
  {
  }
}
