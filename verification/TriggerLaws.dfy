/**
 * What a trigger is and when it is met, over the fields of the JSON it comes in
 * and of the reading it is held against.
 */
module TriggerLaws {
  import opened Results
  import opened Json
  import opened Hex
  import opened Triggers
  import W = WireFormat

  /** A plain object with this property. */
  predicate Has(j: Json, key: string, v: Json) {
    j.Obj? && key in j.fields && j.fields[key] == v
  }

  predicate Digits(s: string) {
    s != "" && forall k :: 0 <= k < |s| ==> 48 <= s[k] as int <= 57
  }

  /** The number a run of digits spells, the first digit weighing most. */
  function Spelling(s: string): int {
    if s == "" then 0 else (s[0] as int - 48) * Ten(|s| - 1) + Spelling(s[1..])
  }

  function Ten(n: nat): int {
    if n == 0 then 1 else 10 * Ten(n - 1)
  }

  /** A request for the trigger t. */
  predicate AsksFor(raw: Json, t: Trigger) {
    match t
    case Price(feedId, op, value) =>
      && Has(raw, "kind", Str("PRICE")) && Has(raw, "feedId", Str(feedId)) && Has(raw, "value", Str(value))
      && Has(raw, "op", Str(if op.GTE? then "GTE" else "LTE"))
      && W.HexText(feedId, 21) && Digits(value)
    case Time(notBefore) =>
      Has(raw, "kind", Str("TIME")) && Has(raw, "notBefore", Num(notBefore)) && notBefore > 0.0
  }

  /** Which requests are understood, and as what. */
  lemma ParsesExactlyWhen(raw: Json, t: Trigger)
    ensures ParseTrigger(raw) == Ok(t) <==> AsksFor(raw, t)
  {
    if t.Price? {
      W.HexTextIs(t.feedId, 21);
      assert Digits(t.value) <==> IsDecimal(t.value);
    }
  }

  /** Why the others are refused, first reason first. */
  lemma RefusesBecause(raw: Json)
    ensures ParseTrigger(raw) == Err(NotAnObject) <==> !raw.Obj? && !raw.Arr?
    ensures ParseTrigger(raw) == Err(UnsupportedKind) <==>
              (raw.Obj? || raw.Arr?) && !Has(raw, "kind", Str("PRICE")) && !Has(raw, "kind", Str("TIME"))
    ensures ParseTrigger(raw) == Err(BadNotBefore) <==>
              Has(raw, "kind", Str("TIME")) && forall t: real :: t > 0.0 ==> !Has(raw, "notBefore", Num(t))
  {
  }

  /** And of the price triggers. */
  lemma PriceRefusedBecause(raw: Json)
    ensures ParseTrigger(raw) == Err(BadFeedId) <==>
              Has(raw, "kind", Str("PRICE")) && forall s :: W.HexText(s, 21) ==> !Has(raw, "feedId", Str(s))
    ensures ParseTrigger(raw) == Err(BadOp) ==>
              && Has(raw, "kind", Str("PRICE"))
              && !Has(raw, "op", Str("GTE")) && !Has(raw, "op", Str("LTE"))
    ensures ParseTrigger(raw) == Err(BadValue) ==>
              && Has(raw, "kind", Str("PRICE")) && (Has(raw, "op", Str("GTE")) || Has(raw, "op", Str("LTE")))
              && forall s :: Digits(s) ==> !Has(raw, "value", Str(s))
  {
    forall s: string ensures W.HexText(s, 21) <==> IsHex(s) && |s| == 44 {
      W.HexTextIs(s, 21);
    }
    assert forall s :: Digits(s) <==> IsDecimal(s);
  }

  /** What the digits of a price trigger stand for. */
  lemma {:induction false} DecimalIs(s: string)
    requires forall k :: 0 <= k < |s| ==> '0' <= s[k] <= '9'
    ensures Decimal(s) == Spelling(s)
    decreases |s|
  {
    if |s| == 1 {
      assert s[1..] == "" && s[..0] == "";
    } else if s != "" {
      var init := s[..|s| - 1];
      DecimalIs(s[1..]);
      DecimalIs(init);
      DecimalIs(init[1..]);
      assert init[1..] == s[1..][..|s[1..]| - 1];
      TenTimes(s[0] as int - 48, Ten(|s| - 2));
    }
  }

  lemma TenTimes(d: int, t: int)
    ensures 10 * (d * t) == d * (10 * t)
  {
  }

  /** The condition holds: the time has come, or the feed was read and is on the right side of the value. */
  predicate Met(t: Trigger, now: real, reading: Option<Reading>) {
    || (t.Time? && now >= t.notBefore)
    || (t.Price? && reading.Some? && t.op.GTE? && reading.value.value >= Spelling(t.value))
    || (t.Price? && reading.Some? && t.op.LTE? && reading.value.value <= Spelling(t.value))
  }

  lemma MetExactlyWhen(t: Trigger, now: real, reading: Option<Reading>)
    requires WellFormed(t)
    ensures IsTriggered(t, now, reading) <==> Met(t, now, reading)
  {
    if t.Price? {
      DecimalIs(t.value);
    }
  }
}
