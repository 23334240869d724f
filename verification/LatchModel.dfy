/**
 * LATCH on values: what each command and each half of a tick does to the
 * enclave. An intent is an object, so it is named by its place among all the
 * intents ever armed: re-arming replaces the table entry and leaves the old
 * object where a pending check can still reach it.
 */
module LatchModel {
  import opened Results
  import opened Json
  import opened Hex
  import opened Triggers

  datatype IntentState = Armed | Fired | Collected | Cancelled | Expired

  datatype IntentRecord = IntentRecord(
    commitment: string,
    userOpData: string,
    trigger: Trigger,
    deadline: real,
    state: IntentState,
    armedAt: real,
    firedAt: Option<real>)

  datatype Enclave = Enclave(
    objs: seq<IntentRecord>,
    table: map<string, nat>,
    armedTotal: nat,
    firedTotal: nat)

  /** What the machine runs with: the hash and the ceiling on deadlines. */
  datatype Config = Config(keccak: string -> string, maxDeadline: real)

  datatype Refusal =
    | NotJsonObject | BadUserOpData | CommitmentMismatch(claimed: string, actual: string)
    | BadTrigger(e: TriggerError) | BadDeadline | DeadlinePast | DeadlineTooFar
    | BadCommitment | NoSuchIntent | NotArmed(s: IntentState)
    | NotFiredYet | WasCancelled | ExpiredUnfired

  datatype Response =
    | Refused(reason: Refusal)
    | ArmedReply(commitment: string, alreadyArmed: bool)
    | UnknownReply
    | StatusReply(state: IntentState, armedAt: real, deadline: real, firedAt: Option<real>)
    | CancelledReply(commitment: string)
    | Released(userOpData: string, firedAt: Option<real>)
    | Counts(armed: nat, awaitingCollection: nat, armedTotal: nat, firedTotal: nat)

  const EMPTY: Enclave := Enclave([], map[], 0, 0)

  predicate TableOk(e: Enclave) {
    forall c :: c in e.table ==> e.table[c] < |e.objs|
  }

  // ------------------------------------------------------------------ commands

  predicate GoodUserOp(j: Json) {
    j.Str? && IsHex(j.text) && |j.text| >= 4
  }

  /** Why ARM refuses; the clock is read after the other checks. */
  function ArmRefusal(cfg: Config, req: Json, now: real): Option<Refusal> {
    var op, claimed, deadline := Get(req, "userOpData"), Get(req, "commitment"), Get(req, "deadline");
    if !req.Obj? then Some(NotJsonObject)
    else if !GoodUserOp(op) then Some(BadUserOpData)
    else
      var commitment := cfg.keccak(op.text);
      var parsed := ParseTrigger(Get(req, "trigger"));
      if claimed.Str? && Lower(claimed.text) != Lower(commitment) then
        Some(CommitmentMismatch(claimed.text, commitment))
      else if parsed.Err? then Some(BadTrigger(parsed.error))
      else if !deadline.Num? then Some(BadDeadline)
      else if deadline.value <= now then Some(DeadlinePast)
      else if deadline.value > now + cfg.maxDeadline then Some(DeadlineTooFar)
      else None
  }

  predicate StillArmed(e: Enclave, c: string)
    requires TableOk(e)
  {
    c in e.table && e.objs[e.table[c]].state == Armed
  }

  function NewIntent(cfg: Config, req: Json, now: real): IntentRecord
    requires ArmRefusal(cfg, req, now).None?
  {
    var op := Get(req, "userOpData").text;
    IntentRecord(cfg.keccak(op), op, ParseTrigger(Get(req, "trigger")).value, Get(req, "deadline").value,
                 Armed, now, None)
  }

  function Arm(cfg: Config, e: Enclave, req: Json, now: real): (Enclave, Response)
    requires TableOk(e)
  {
    var refusal := ArmRefusal(cfg, req, now);
    if refusal.Some? then (e, Refused(refusal.value))
    else
      var i := NewIntent(cfg, req, now);
      if StillArmed(e, i.commitment) then (e, ArmedReply(i.commitment, true))
      else
        (Enclave(e.objs + [i], e.table[i.commitment := |e.objs|], e.armedTotal + 1, e.firedTotal),
         ArmedReply(i.commitment, false))
  }

  function Status(e: Enclave, req: Json): Response
    requires TableOk(e)
  {
    var c := Get(req, "commitment");
    if !req.Obj? then Refused(NotJsonObject)
    else if !c.Str? then Refused(BadCommitment)
    else
      var key := if Lower(c.text) in e.table then Lower(c.text) else c.text;
      if key !in e.table then UnknownReply
      else
        var i := e.objs[e.table[key]];
        StatusReply(i.state, i.armedAt, i.deadline, if i.firedAt == Some(0.0) then None else i.firedAt)
  }

  function Lookup(e: Enclave, req: Json): Result<nat, Refusal> {
    var c := Get(req, "commitment");
    if !req.Obj? then Err(NotJsonObject)
    else if !c.Str? then Err(BadCommitment)
    else if c.text !in e.table then Err(NoSuchIntent)
    else Ok(e.table[c.text])
  }

  function Erased(i: IntentRecord, s: IntentState): IntentRecord {
    i.(state := s, userOpData := "0x")
  }

  function Cancel(e: Enclave, req: Json): (Enclave, Response)
    requires TableOk(e)
  {
    var r := Lookup(e, req);
    if r.Err? then (e, Refused(r.error))
    else
      var i := e.objs[r.value];
      if i.state != Armed then (e, Refused(NotArmed(i.state)))
      else (e.(objs := e.objs[r.value := Erased(i, Cancelled)]), CancelledReply(Get(req, "commitment").text))
  }

  function CollectRefusal(s: IntentState): Option<Refusal> {
    match s
    case Armed => Some(NotFiredYet)
    case Cancelled => Some(WasCancelled)
    case Expired => Some(ExpiredUnfired)
    case _ => None
  }

  function Collect(e: Enclave, req: Json): (Enclave, Response)
    requires TableOk(e)
  {
    var r := Lookup(e, req);
    if r.Err? then (e, Refused(r.error))
    else
      var i := e.objs[r.value];
      if CollectRefusal(i.state).Some? then (e, Refused(CollectRefusal(i.state).value))
      else (e.(objs := e.objs[r.value := i.(state := Collected)]), Released(i.userOpData, i.firedAt))
  }

  /** The commitments whose current intent is in state s. */
  ghost function Entries(e: Enclave, s: IntentState): set<string>
    requires TableOk(e)
  {
    set c | c in e.table && e.objs[e.table[c]].state == s
  }

  ghost function ReportState(e: Enclave): Response
    requires TableOk(e)
  {
    Counts(|Entries(e, Armed)|, |Entries(e, Fired)|, e.armedTotal, e.firedTotal)
  }

  // ------------------------------------------------- a tick, split at its await

  /** Up to the await: skip, expire, or ask for a reading. */
  function Visit(e: Enclave, ref: nat, now: real): (Enclave, bool)
    requires ref < |e.objs|
  {
    var i := e.objs[ref];
    if i.state != Armed then (e, false)
    else if now >= i.deadline then (e.(objs := e.objs[ref := Erased(i, Expired)]), false)
    else (e, true)
  }

  /** After the await: the object is fired whatever has become of it meanwhile. */
  function Settle(e: Enclave, ref: nat, now: real, fired: bool): Enclave
    requires ref < |e.objs|
  {
    if !fired then e
    else e.(objs := e.objs[ref := e.objs[ref].(state := Fired, firedAt := Some(now))],
            firedTotal := e.firedTotal + 1)
  }

  // ------------------------------------------------------------- an atomic tick

  predicate FiresAt(i: IntentRecord, now: real, readings: map<string, Reading>) {
    i.state == Armed && now < i.deadline && WellFormed(i.trigger) &&
    IsTriggered(i.trigger, now, if i.commitment in readings then Some(readings[i.commitment]) else None)
  }

  /** What one tick leaves of an intent, when nothing runs during its awaits. */
  function Ticked(i: IntentRecord, now: real, readings: map<string, Reading>): IntentRecord {
    if i.state != Armed then i
    else if now >= i.deadline then Erased(i, Expired)
    else if FiresAt(i, now, readings) then i.(state := Fired, firedAt := Some(now))
    else i
  }

  function NewlyFired(e: Enclave, now: real, readings: map<string, Reading>): set<nat> {
    set k: nat | k < |e.objs| && FiresAt(e.objs[k], now, readings)
  }

  function Tick(e: Enclave, now: real, readings: map<string, Reading>): Enclave {
    e.(objs := seq(|e.objs|, k requires 0 <= k < |e.objs| => Ticked(e.objs[k], now, readings)),
       firedTotal := e.firedTotal + |NewlyFired(e, now, readings)|)
  }

  // ------------------------------------------------------- what always holds

  /** Holds of every intent object ever armed, under every interleaving. */
  predicate IntentOk(cfg: Config, i: IntentRecord) {
    && WellFormed(i.trigger)
    && (i.userOpData == "0x" || cfg.keccak(i.userOpData) == i.commitment)
    && i.armedAt < i.deadline <= i.armedAt + cfg.maxDeadline
    && (i.state == Armed ==> i.userOpData != "0x")
    && (i.state == Cancelled || i.state == Expired ==> i.userOpData == "0x")
    && (i.state == Fired || i.state == Collected ==> i.firedAt.Some?)
    && (i.firedAt.Some? ==> i.firedAt.value < i.deadline)
  }

  predicate Inv(cfg: Config, e: Enclave) {
    && TableOk(e)
    && (forall c :: c in e.table ==> e.objs[e.table[c]].commitment == c)
    && (forall k :: 0 <= k < |e.objs| ==> IntentOk(cfg, e.objs[k]))
    && (forall k :: 0 <= k < |e.objs| && e.objs[k].state == Armed ==>
          e.objs[k].commitment in e.table && e.table[e.objs[k].commitment] == k)
    && |e.objs| == e.armedTotal
  }

  lemma ArmKeeps(cfg: Config, e: Enclave, req: Json, now: real)
    requires Inv(cfg, e)
    ensures Inv(cfg, Arm(cfg, e, req, now).0)
  {
    if ArmRefusal(cfg, req, now).None? {
      ParsedIsWellFormed(Get(req, "trigger"));
    }
  }

  lemma CancelKeeps(cfg: Config, e: Enclave, req: Json)
    requires Inv(cfg, e)
    ensures Inv(cfg, Cancel(e, req).0)
  {
  }

  lemma CollectKeeps(cfg: Config, e: Enclave, req: Json)
    requires Inv(cfg, e)
    ensures Inv(cfg, Collect(e, req).0)
  {
  }

  lemma VisitKeeps(cfg: Config, e: Enclave, ref: nat, now: real)
    requires Inv(cfg, e) && ref < |e.objs|
    ensures Inv(cfg, Visit(e, ref, now).0)
    ensures Visit(e, ref, now).1 ==> now < e.objs[ref].deadline
  {
  }

  /** A check that was asked for before the deadline may settle at any later moment. */
  lemma SettleKeeps(cfg: Config, e: Enclave, ref: nat, now: real, fired: bool)
    requires Inv(cfg, e) && ref < |e.objs| && now < e.objs[ref].deadline
    ensures Inv(cfg, Settle(e, ref, now, fired))
  {
  }

  lemma TickedOk(cfg: Config, i: IntentRecord, now: real, readings: map<string, Reading>)
    requires IntentOk(cfg, i)
    ensures var t := Ticked(i, now, readings);
            IntentOk(cfg, t) && t.commitment == i.commitment && (t.state == Armed ==> t == i)
  {
  }

  lemma TickKeeps(cfg: Config, e: Enclave, now: real, readings: map<string, Reading>)
    requires Inv(cfg, e)
    ensures Inv(cfg, Tick(e, now, readings))
  {
    var f := Tick(e, now, readings);
    forall k | 0 <= k < |e.objs|
      ensures IntentOk(cfg, f.objs[k]) && f.objs[k].commitment == e.objs[k].commitment
      ensures f.objs[k].state == Armed ==> f.objs[k] == e.objs[k]
    {
      TickedOk(cfg, e.objs[k], now, readings);
    }
  }
}
