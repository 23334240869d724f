/**
 * What each command and each half of a tick does, over the fields of the request,
 * of the intent concerned and of the answer: a second account of LATCH, which
 * none of the definitions it is checked against takes part in.
 */
module LatchLaws {
  import opened Results
  import opened Json
  import opened Hex
  import opened Triggers
  import opened TriggerLaws
  import opened LatchModel
  import opened LatchRuns
  import W = WireFormat

  // ------------------------------------------------------------------ requests

  /** Bytes to arm: 0x and at least two hex digits. */
  predicate Operation(req: Json, op: string) {
    && Has(req, "userOpData", Str(op)) && |op| >= 4
    && op[0] == '0' && op[1] == 'x' && forall k :: 2 <= k < |op| ==> W.HexChar(op[k])
  }

  lemma OperationIs(req: Json, op: string)
    ensures Operation(req, op) <==> req.Obj? && Get(req, "userOpData") == Str(op) && GoodUserOp(Str(op))
  {
    if |op| >= 4 {
      forall k | 2 <= k < |op| ensures W.HexChar(op[k]) <==> IsDigit(op[2..][k - 2]) {
        W.DigitValue(op[k]);
      }
      if forall k :: 2 <= k < |op| ==> W.HexChar(op[k]) {
        assert forall k :: 0 <= k < |op[2..]| ==> op[2..][k] == op[k + 2] && W.HexChar(op[k + 2]);
      }
    }
  }

  /** A commitment may be claimed; if it is, it must be the hash of the bytes, in any case. */
  predicate Claims(req: Json, hash: string) {
    req.Obj? && "commitment" in req.fields && req.fields["commitment"].Str? ==>
      W.SameIgnoringCase(req.fields["commitment"].text, hash)
  }

  predicate On(req: Json, t: Trigger) {
    req.Obj? && "trigger" in req.fields && AsksFor(req.fields["trigger"], t)
  }

  /** A request to arm op on the trigger t until d that passes every check. */
  predicate Passes(cfg: Config, req: Json, now: real, op: string, t: Trigger, d: real) {
    && Operation(req, op) && Claims(req, cfg.keccak(op)) && On(req, t)
    && Has(req, "deadline", Num(d)) && now < d <= now + cfg.maxDeadline
  }

  // ----------------------------------------------------------------------- ARM

  /** An entry whose intent still waits. */
  predicate Waits(e: Enclave, c: string) {
    c in e.table && e.table[c] < |e.objs| && e.objs[e.table[c]].state == Armed
  }

  /**
   * A request that passes every check arms a new intent, with exactly what it
   * carries, unless the intent under its hash still waits: then it changes nothing.
   * So what was cancelled, or has expired, fired or been collected can be armed again.
   */
  lemma ArmExactly(cfg: Config, e: Enclave, req: Json, now: real, op: string, t: Trigger, d: real)
    requires TableOk(e) && Passes(cfg, req, now, op, t, d)
    ensures var (f, r) := Arm(cfg, e, req, now);
            var c := cfg.keccak(op);
            && (Waits(e, c) ==> f == e && r == ArmedReply(c, true))
            && (!Waits(e, c) ==>
                  && r == ArmedReply(c, false)
                  && f.armedTotal == e.armedTotal + 1 && f.firedTotal == e.firedTotal
                  && f.objs == e.objs + [IntentRecord(c, op, t, d, Armed, now, None)]
                  && f.table == e.table[c := |e.objs|])
  {
    OperationIs(req, op);
    ParsesExactlyWhen(req.fields["trigger"], t);
    ClaimsIs(req, cfg.keccak(op));
  }

  lemma ClaimsIs(req: Json, hash: string)
    requires req.Obj?
    ensures var claimed := Get(req, "commitment");
            Claims(req, hash) <==> !(claimed.Str? && Lower(claimed.text) != Lower(hash))
  {
    if Get(req, "commitment").Str? {
      W.LowerOnce(req.fields["commitment"].text, hash);
    }
  }

  /** A refused request changes nothing, and it is refused exactly when some check fails. */
  lemma ArmRefuses(cfg: Config, e: Enclave, req: Json, now: real)
    requires TableOk(e)
    ensures var (f, r) := Arm(cfg, e, req, now);
            && (r.Refused? ==> f == e)
            && (r.Refused? <==> forall op, t, d :: !Passes(cfg, req, now, op, t, d))
  {
    var (f, r) := Arm(cfg, e, req, now);
    if r.Refused? {
      forall op, t, d ensures !Passes(cfg, req, now, op, t, d) {
        if Passes(cfg, req, now, op, t, d) {
          ArmExactly(cfg, e, req, now, op, t, d);
        }
      }
    } else {
      var i := NewIntent(cfg, req, now);
      OperationIs(req, i.userOpData);
      ParsesExactlyWhen(Get(req, "trigger"), i.trigger);
      ClaimsIs(req, i.commitment);
      assert Passes(cfg, req, now, i.userOpData, i.trigger, i.deadline);
    }
  }

  /** Which check is reported: the first that fails, the clock being read last. */
  lemma ArmRefusesBecause(cfg: Config, e: Enclave, req: Json, now: real)
    requires TableOk(e)
    ensures var r := Arm(cfg, e, req, now).1;
            && (!req.Obj? ==> r == Refused(NotJsonObject))
            && (req.Obj? && (forall op :: !Operation(req, op)) ==> r == Refused(BadUserOpData))
            && forall op :: Operation(req, op) ==> Answers(cfg, req, now, op, r)
  {
    forall op ensures Operation(req, op) <==> req.Obj? && Get(req, "userOpData") == Str(op) && GoodUserOp(Str(op)) {
      OperationIs(req, op);
    }
    forall op | Operation(req, op) ensures Answers(cfg, req, now, op, Arm(cfg, e, req, now).1) {
      ClaimsIs(req, cfg.keccak(op));
      forall t ensures ParseTrigger(Get(req, "trigger")) == Ok(t) <==> On(req, t) {
        ParsesExactlyWhen(Get(req, "trigger"), t);
      }
    }
  }

  /** The error is the one its trigger is refused with; a trigger that is missing is no object. */
  predicate Blames(req: Json, error: TriggerError)
    requires req.Obj?
  {
    if "trigger" in req.fields then ParseTrigger(req.fields["trigger"]) == Err(error) else error == NotAnObject
  }

  /** The answer to a request whose operation is in order. */
  ghost predicate Answers(cfg: Config, req: Json, now: real, op: string, r: Response)
    requires Operation(req, op)
  {
    var hash := cfg.keccak(op);
    && (!Claims(req, hash) ==> r == Refused(CommitmentMismatch(req.fields["commitment"].text, hash)))
    && (Claims(req, hash) ==>
          && ((forall t :: !On(req, t)) ==> r.Refused? && r.reason.BadTrigger? && Blames(req, r.reason.e))
          && forall t :: On(req, t) ==>
               && ((forall d :: !Has(req, "deadline", Num(d))) ==> r == Refused(BadDeadline))
               && forall d :: Has(req, "deadline", Num(d)) ==>
                    && (d <= now ==> r == Refused(DeadlinePast))
                    && (now < d && d > now + cfg.maxDeadline ==> r == Refused(DeadlineTooFar)))
  }

  // ------------------------------------------------------------- the other three

  /** A request that names a commitment. */
  predicate Names(req: Json, c: string) {
    Has(req, "commitment", Str(c))
  }

  /** STATUS finds the entry in lower case before it looks for the spelling given. */
  lemma StatusExactly(e: Enclave, req: Json, c: string, low: string)
    requires TableOk(e) && Names(req, c) && W.SameIgnoringCase(c, low) && W.InLowerCase(low)
    ensures var r := Status(e, req);
            && (low in e.table ==> Tells(r, e.objs[e.table[low]]))
            && (low !in e.table && c in e.table ==> Tells(r, e.objs[e.table[c]]))
            && (low !in e.table && c !in e.table ==> r == UnknownReply)
  {
    W.LowerOnce(c, low);
  }

  /** The lifecycle of an intent; a firing time of 0 is not shown. */
  predicate Tells(r: Response, i: IntentRecord) {
    && r.StatusReply? && r.state == i.state && r.armedAt == i.armedAt && r.deadline == i.deadline
    && (i.firedAt != Some(0.0) ==> r.firedAt == i.firedAt)
    && (i.firedAt == Some(0.0) ==> r.firedAt == None)
  }

  /** CANCEL erases an intent that waits, and does nothing to any other. */
  lemma CancelExactly(e: Enclave, req: Json, c: string)
    requires TableOk(e) && Names(req, c)
    ensures var (f, r) := Cancel(e, req);
            && (c !in e.table ==> f == e && r == Refused(NoSuchIntent))
            && (c in e.table && e.objs[e.table[c]].state != Armed ==>
                  f == e && r == Refused(NotArmed(e.objs[e.table[c]].state)))
            && (Waits(e, c) ==>
                  && r == CancelledReply(c)
                  && Changed(e, f, e.table[c], e.objs[e.table[c]].(state := Cancelled, userOpData := "0x")))
  {
  }

  /** One object is changed and nothing else. */
  predicate Changed(e: Enclave, f: Enclave, ref: nat, i: IntentRecord) {
    && ref < |e.objs| && |f.objs| == |e.objs| && f.objs[ref] == i
    && (forall k :: 0 <= k < |e.objs| && k != ref ==> f.objs[k] == e.objs[k])
    && f.table == e.table && f.armedTotal == e.armedTotal && f.firedTotal == e.firedTotal
  }

  /** COLLECT hands out the bytes of an intent that was fired, and says of any other why it does not. */
  lemma CollectExactly(e: Enclave, req: Json, c: string)
    requires TableOk(e) && Names(req, c)
    ensures var (f, r) := Collect(e, req);
            && (c !in e.table ==> f == e && r == Refused(NoSuchIntent))
            && (c in e.table ==>
                  var i := e.objs[e.table[c]];
                  && (i.state == Armed ==> f == e && r == Refused(NotFiredYet))
                  && (i.state == Cancelled ==> f == e && r == Refused(WasCancelled))
                  && (i.state == Expired ==> f == e && r == Refused(ExpiredUnfired))
                  && (i.state == Fired || i.state == Collected ==>
                        r == Released(i.userOpData, i.firedAt) && Changed(e, f, e.table[c], i.(state := Collected))))
  {
  }

  /** The three refuse a message that is no object, or names no commitment. */
  lemma NamelessRefused(e: Enclave, req: Json)
    requires TableOk(e) && forall c :: !Names(req, c)
    ensures var reason := if req.Obj? then BadCommitment else NotJsonObject;
            && Status(e, req) == Refused(reason)
            && Cancel(e, req) == (e, Refused(reason))
            && Collect(e, req) == (e, Refused(reason))
  {
    var c := Get(req, "commitment");
    if c.Str? {
      assert Names(req, c.text);
    }
  }

  /** GET /state counts the entries that wait and those that wait to be collected. */
  lemma ReportExactly(e: Enclave)
    requires TableOk(e)
    ensures var r := ReportState(e);
            && r.Counts?
            && r.armed == |set c | c in e.table && e.objs[e.table[c]].state == Armed|
            && r.awaitingCollection == |set c | c in e.table && e.objs[e.table[c]].state == Fired|
            && r.armedTotal == e.armedTotal && r.firedTotal == e.firedTotal
  {
    assert Entries(e, Armed) == set c | c in e.table && e.objs[e.table[c]].state == Armed;
    assert Entries(e, Fired) == set c | c in e.table && e.objs[e.table[c]].state == Fired;
  }

  // ---------------------------------------------------------------------- ticks

  /** A tick reaches an entry: it skips it, expires it, or asks for a reading and is suspended. */
  lemma VisitExactly(cfg: Config, m: Machine, c: string, now: real)
    requires Formed(m)
    ensures var (n, r) := Step(cfg, m, DoVisit(c, now));
            && r == None && n.hits == m.hits && n.repeats == m.repeats
            && (c !in m.enclave.table ==> n == m)
            && (c in m.enclave.table ==>
                  var ref := m.enclave.table[c];
                  var i := m.enclave.objs[ref];
                  && (i.state != Armed ==> n == m)
                  && (i.state == Armed && now >= i.deadline ==>
                        && n.pending == m.pending && n.revoked == m.revoked + {ref}
                        && Changed(m.enclave, n.enclave, ref, i.(state := Expired, userOpData := "0x")))
                  && (i.state == Armed && now < i.deadline ==>
                        && n.enclave == m.enclave && n.revoked == m.revoked
                        && |n.pending| == |m.pending| + 1 && n.pending[..|m.pending|] == m.pending
                        && n.pending[|m.pending|].ref == ref && n.pending[|m.pending|].now == now))
  {
    if c in m.enclave.table {
      var ref := m.enclave.table[c];
      var i := m.enclave.objs[ref];
      if i.state == Armed && now >= i.deadline {
        assert Visit(m.enclave, ref, now).0.objs[ref] != i;
      }
    }
  }

  /**
   * A reading arrives: if the condition is met at the time the tick began, the
   * object is fired at that time, whatever its state is by now; if not, nothing
   * happens to it. Either way the check is no longer in flight.
   */
  lemma SettleExactly(cfg: Config, m: Machine, k: nat, reading: Option<Reading>)
    requires Formed(m)
    ensures var (n, r) := Step(cfg, m, DoSettle(k, reading));
            && r == None && n.revoked == m.revoked
            && (k >= |m.pending| ==> n == m)
            && (k < |m.pending| ==>
                  var check := m.pending[k];
                  var i := m.enclave.objs[check.ref];
                  && n.pending == m.pending[..k] + m.pending[k + 1..]
                  && (!Met(i.trigger, check.now, reading) ==>
                        n.enclave == m.enclave && n.hits == m.hits && n.repeats == m.repeats)
                  && (Met(i.trigger, check.now, reading) ==>
                        && n.enclave.firedTotal == m.enclave.firedTotal + 1
                        && Changed(m.enclave, n.enclave.(firedTotal := m.enclave.firedTotal), check.ref,
                                   i.(state := Fired, firedAt := Some(check.now)))
                        && n.hits == m.hits + [Hit(check, reading)]
                        && n.repeats == m.repeats + if i.state == Fired || i.state == Collected then 1 else 0))
  {
    if k < |m.pending| {
      MetExactlyWhen(m.enclave.objs[m.pending[k].ref].trigger, m.pending[k].now, reading);
    }
  }

  /** What a whole tick makes of an intent, from the intent, the time and the reading for its commitment. */
  predicate After(i: IntentRecord, j: IntentRecord, now: real, reading: Option<Reading>) {
    && (i.state != Armed ==> j == i)
    && (i.state == Armed && now >= i.deadline ==> j == i.(state := Expired, userOpData := "0x"))
    && (i.state == Armed && now < i.deadline && Met(i.trigger, now, reading) ==>
          j == i.(state := Fired, firedAt := Some(now)))
    && (i.state == Armed && now < i.deadline && !Met(i.trigger, now, reading) ==> j == i)
  }

  function ReadingFor(c: string, readings: map<string, Reading>): Option<Reading> {
    if c in readings then Some(readings[c]) else None
  }

  /**
   * A whole tick fires the intents that wait, are within their deadline and whose
   * condition is met, and no other; it erases those past their deadline; and it
   * counts what it fired.
   */
  lemma TickExactly(cfg: Config, e: Enclave, now: real, readings: map<string, Reading>)
    requires Inv(cfg, e)
    ensures var f := Tick(e, now, readings);
            && |f.objs| == |e.objs| && f.table == e.table && f.armedTotal == e.armedTotal
            && (forall k :: 0 <= k < |e.objs| ==>
                  After(e.objs[k], f.objs[k], now, ReadingFor(e.objs[k].commitment, readings)))
            && f.firedTotal == e.firedTotal
                 + |set k: nat | k < |e.objs| && e.objs[k].state == Armed && f.objs[k].state == Fired|
  {
    var f := Tick(e, now, readings);
    forall k | 0 <= k < |e.objs|
      ensures After(e.objs[k], f.objs[k], now, ReadingFor(e.objs[k].commitment, readings))
      ensures FiresAt(e.objs[k], now, readings) <==> e.objs[k].state == Armed && f.objs[k].state == Fired
    {
      assert IntentOk(cfg, e.objs[k]);
      MetExactlyWhen(e.objs[k].trigger, now, ReadingFor(e.objs[k].commitment, readings));
      assert f.objs[k] == Ticked(e.objs[k], now, readings);
    }
    assert NewlyFired(e, now, readings) ==
           set k: nat | k < |e.objs| && e.objs[k].state == Armed && f.objs[k].state == Fired;
  }

  /** So for every intent: it is fired by the tick if and only if it is due. */
  lemma FiredByTick(cfg: Config, e: Enclave, now: real, readings: map<string, Reading>, k: nat)
    requires Inv(cfg, e) && k < |e.objs|
    ensures var i, f := e.objs[k], Tick(e, now, readings);
            && |f.objs| == |e.objs|
            && (i.state == Armed && f.objs[k].state == Fired <==>
                  && i.state == Armed && now < i.deadline
                  && Met(i.trigger, now, ReadingFor(i.commitment, readings)))
            && (i.state == Armed && f.objs[k].state == Fired ==>
                  f.objs[k].firedAt == Some(now) && f.objs[k].userOpData == i.userOpData)
  {
    TickExactly(cfg, e, now, readings);
    assert After(e.objs[k], Tick(e, now, readings).objs[k], now, ReadingFor(e.objs[k].commitment, readings));
  }
}
