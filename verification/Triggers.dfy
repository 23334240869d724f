/** Parsed JSON, as untrusted input reaches the enclave. */
module Json {
  /** `Absent` is a property that is not there; `NotFinite` is a number such as 1e999. */
  datatype Json =
    | Absent
    | Null
    | Bool(b: bool)
    | Num(value: real)
    | NotFinite
    | Str(text: string)
    | Arr(items: seq<Json>)
    | Obj(fields: map<string, Json>)

  /** Property access; only a plain object has properties. */
  function Get(j: Json, key: string): Json {
    if j.Obj? && key in j.fields then j.fields[key] else Absent
  }
}

/** Parsing and evaluating the condition an intent waits for. */
module Triggers {
  import opened Results
  import opened Json
  import opened Hex

  datatype Comparator = GTE | LTE

  datatype Trigger =
    | Price(feedId: string, op: Comparator, value: string)
    | Time(notBefore: real)

  datatype Reading = Reading(value: int, decimals: int, timestamp: int)

  datatype TriggerError = NotAnObject | BadFeedId | BadOp | BadValue | BadNotBefore | UnsupportedKind

  predicate IsDecimal(s: string) {
    s != "" && forall i :: 0 <= i < |s| ==> '0' <= s[i] <= '9'
  }

  function Decimal(s: string): nat
    requires forall i :: 0 <= i < |s| ==> '0' <= s[i] <= '9'
  {
    if s == "" then 0 else 10 * Decimal(s[..|s| - 1]) + (s[|s| - 1] - '0') as int
  }

  /** The triggers the enclave will hold. */
  predicate WellFormed(t: Trigger) {
    match t
    case Price(feedId, _, value) => IsHex(feedId) && |feedId| == 44 && IsDecimal(value)
    case Time(notBefore) => notBefore > 0.0
  }

  function ParseTrigger(raw: Json): Result<Trigger, TriggerError> {
    if !raw.Obj? && !raw.Arr? then
      Err(NotAnObject)
    else if Get(raw, "kind") == Str("PRICE") then
      var feedId, op, value := Get(raw, "feedId"), Get(raw, "op"), Get(raw, "value");
      if !(feedId.Str? && IsHex(feedId.text) && |feedId.text| == 44) then Err(BadFeedId)
      else if op != Str("GTE") && op != Str("LTE") then Err(BadOp)
      else if !(value.Str? && IsDecimal(value.text)) then Err(BadValue)
      else Ok(Price(feedId.text, if op == Str("GTE") then GTE else LTE, value.text))
    else if Get(raw, "kind") == Str("TIME") then
      var notBefore := Get(raw, "notBefore");
      if !(notBefore.Num? && notBefore.value > 0.0) then Err(BadNotBefore)
      else Ok(Time(notBefore.value))
    else
      Err(UnsupportedKind)
  }

  /** The JSON a client sends for a trigger. */
  function TriggerJson(t: Trigger): Json {
    match t
    case Price(feedId, op, value) =>
      Obj(map["kind" := Str("PRICE"), "feedId" := Str(feedId),
              "op" := Str(if op == GTE then "GTE" else "LTE"), "value" := Str(value)])
    case Time(notBefore) =>
      Obj(map["kind" := Str("TIME"), "notBefore" := Num(notBefore)])
  }

  /** A trigger reads back from its own JSON exactly when it is well formed. */
  lemma TriggerRoundTrip(t: Trigger)
    ensures ParseTrigger(TriggerJson(t)) == Ok(t) <==> WellFormed(t)
  {
    var j := TriggerJson(t);
    match t
    case Price(feedId, op, value) =>
      assert Get(j, "kind") == Str("PRICE") && Get(j, "feedId") == Str(feedId) && Get(j, "value") == Str(value);
      assert Get(j, "op") == Str(if op == GTE then "GTE" else "LTE");
    case Time(notBefore) =>
      assert Get(j, "kind") == Str("TIME") && Get(j, "notBefore") == Num(notBefore);
  }

  /** Whatever untrusted input is accepted becomes a well-formed trigger. */
  lemma ParsedIsWellFormed(raw: Json)
    requires ParseTrigger(raw).Ok?
    ensures WellFormed(ParseTrigger(raw).value)
  {
  }

  /** Has the condition been met? A feed that could not be read never meets it. */
  function IsTriggered(t: Trigger, now: real, reading: Option<Reading>): (fired: bool)
    requires WellFormed(t)
    ensures t.Price? && reading.None? ==> !fired
    ensures t.Price? && reading.Some? && reading.value.value == Decimal(t.value) ==> fired
    ensures t.Price? && reading.Some? && reading.value.value != Decimal(t.value) ==>
              (fired <==> (t.op == GTE <==> reading.value.value > Decimal(t.value)))
    ensures t.Time? ==> (fired <==> t.notBefore <= now)
  {
    match t
    case Time(notBefore) => now >= notBefore
    case Price(_, op, value) =>
      reading.Some? &&
      (if op == GTE then reading.value.value >= Decimal(value) else reading.value.value <= Decimal(value))
  }
}
