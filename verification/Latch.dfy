/**
 * LATCH in place: the module's map of intent objects and its two counters. Each
 * handler, and each half of a tick, does to the objects what the function of the
 * same name in LatchModel says.
 */
module Latch {
  import opened Results
  import opened Json
  import opened Hex
  import opened Triggers
  import M = LatchModel

  class Intent {
    const commitment: string
    var userOpData: string
    const trigger: Trigger
    const deadline: real
    var state: M.IntentState
    const armedAt: real
    var firedAt: Option<real>

    constructor (commitment: string, userOpData: string, trigger: Trigger, deadline: real, armedAt: real)
      ensures Snapshot() == M.IntentRecord(commitment, userOpData, trigger, deadline, M.Armed, armedAt, None)
    {
      this.commitment := commitment;
      this.userOpData := userOpData;
      this.trigger := trigger;
      this.deadline := deadline;
      this.state := M.Armed;
      this.armedAt := armedAt;
      this.firedAt := None;
    }

    function Snapshot(): M.IntentRecord
      reads this
    {
      M.IntentRecord(commitment, userOpData, trigger, deadline, state, armedAt, firedAt)
    }
  }

  class Enclave {
    const cfg: M.Config
    var intents: map<string, Intent>
    var armedTotal: nat
    var firedTotal: nat

    /** Every intent ever armed, in order, and where the map's entries are among them. */
    ghost var objs: seq<Intent>
    ghost var refs: map<string, nat>

    ghost function Abs(): M.Enclave
      reads this, objs
    {
      M.Enclave(seq(|objs|, k requires 0 <= k < |objs| reads this, objs => objs[k].Snapshot()),
                refs, armedTotal, firedTotal)
    }

    ghost predicate Valid()
      reads this, objs
    {
      && refs.Keys == intents.Keys
      && (forall c :: c in refs ==> refs[c] < |objs| && objs[refs[c]] == intents[c])
      && (forall j, k :: 0 <= j < k < |objs| ==> objs[j] != objs[k])
      && M.Inv(cfg, Abs())
    }

    constructor (cfg: M.Config)
      ensures Valid() && this.cfg == cfg && Abs() == M.EMPTY && objs == []
    {
      this.cfg := cfg;
      intents := map[];
      armedTotal, firedTotal := 0, 0;
      objs, refs := [], map[];
    }

    method HandleArm(req: Json, now: real) returns (r: M.Response)
      requires Valid()
      modifies this
      ensures Valid() && (Abs(), r) == M.Arm(cfg, old(Abs()), req, now)
      ensures old(objs) <= objs && forall k :: |old(objs)| <= k < |objs| ==> fresh(objs[k])
    {
      M.ArmKeeps(cfg, Abs(), req, now);
      if !req.Obj? {
        return M.Refused(M.NotJsonObject);
      }
      var userOpData := Get(req, "userOpData");
      if !userOpData.Str? || !IsHex(userOpData.text) || |userOpData.text| < 4 {
        return M.Refused(M.BadUserOpData);
      }
      var commitment := cfg.keccak(userOpData.text);
      var claimed := Get(req, "commitment");
      if claimed.Str? && Lower(claimed.text) != Lower(commitment) {
        return M.Refused(M.CommitmentMismatch(claimed.text, commitment));
      }
      var parsed := ParseTrigger(Get(req, "trigger"));
      if parsed.Err? {
        return M.Refused(M.BadTrigger(parsed.error));
      }
      var deadline := Get(req, "deadline");
      if !deadline.Num? {
        return M.Refused(M.BadDeadline);
      }
      if deadline.value <= now {
        return M.Refused(M.DeadlinePast);
      }
      if deadline.value > now + cfg.maxDeadline {
        return M.Refused(M.DeadlineTooFar);
      }
      assert M.NewIntent(cfg, req, now) ==
             M.IntentRecord(commitment, userOpData.text, parsed.value, deadline.value, M.Armed, now, None);
      r := Enlist(commitment, userOpData.text, parsed.value, deadline.value, now);
    }

    /** The end of ARM, for a request that has passed every check. */
    method Enlist(commitment: string, userOpData: string, trigger: Trigger, deadline: real, now: real)
        returns (r: M.Response)
      requires Valid()
      requires M.Inv(cfg, Enlisted(Abs(), Listed(commitment, userOpData, trigger, deadline, now)).0)
      modifies this
      ensures Valid()
      ensures (Abs(), r) == Enlisted(old(Abs()), Listed(commitment, userOpData, trigger, deadline, now))
      ensures old(objs) <= objs && forall k :: |old(objs)| <= k < |objs| ==> fresh(objs[k])
    {
      assert commitment in refs ==> Abs().objs[refs[commitment]] == intents[commitment].Snapshot();
      if commitment in intents && intents[commitment].state == M.Armed {
        return M.ArmedReply(commitment, true);
      }
      ghost var before := Abs();
      var intent := new Intent(commitment, userOpData, trigger, deadline, now);
      assert Abs() == before;
      Insert(intent);
      return M.ArmedReply(commitment, false);
    }

    method Insert(intent: Intent)
      requires Valid() && intent !in objs
      requires M.Inv(cfg, Inserted(Abs(), intent.Snapshot()))
      modifies this
      ensures Valid() && Abs() == Inserted(old(Abs()), intent.Snapshot()) && objs == old(objs) + [intent]
    {
      ghost var before, n := Abs(), |objs|;
      intents := intents[intent.commitment := intent];
      armedTotal := armedTotal + 1;
      objs, refs := objs + [intent], refs[intent.commitment := n];
      assert objs[..n] == old(objs);
      forall c | c in refs ensures refs[c] < |objs| && objs[refs[c]] == intents[c] {
        if c != intent.commitment {
          assert c in old(refs) && old(objs)[old(refs)[c]] == old(intents)[c];
        }
      }
      assert Abs() == Inserted(before, intent.Snapshot()) by {
        assert Abs().objs == before.objs + [intent.Snapshot()];
      }
    }

    /** Moves one intent to a state, with the bytes that go with it; every other object stays. */
    method Mark(intent: Intent, ghost ref: nat, state: M.IntentState, userOpData: string)
      requires Valid() && ref < |objs| && objs[ref] == intent
      requires M.Inv(cfg, Marked(Abs(), ref, state, userOpData))
      modifies intent
      ensures Valid() && Abs() == Marked(old(Abs()), ref, state, userOpData)
      ensures intent.userOpData == userOpData && intent.firedAt == old(intent.firedAt)
    {
      ghost var before := Abs();
      intent.state := state;
      intent.userOpData := userOpData;
      assert Abs().objs == before.objs[ref := intent.Snapshot()];
    }

    method HandleStatus(req: Json) returns (r: M.Response)
      requires Valid()
      ensures r == M.Status(Abs(), req)
    {
      if !req.Obj? {
        return M.Refused(M.NotJsonObject);
      }
      var commitment := Get(req, "commitment");
      if !commitment.Str? {
        return M.Refused(M.BadCommitment);
      }
      var key := if Lower(commitment.text) in intents then Lower(commitment.text) else commitment.text;
      if key !in intents {
        return M.UnknownReply;
      }
      var intent := intents[key];
      assert Abs().objs[refs[key]] == intent.Snapshot();
      return M.StatusReply(intent.state, intent.armedAt, intent.deadline,
                           if intent.firedAt == Some(0.0) then None else intent.firedAt);
    }

    method HandleCancel(req: Json) returns (r: M.Response)
      requires Valid()
      modifies this, objs
      ensures Valid() && objs == old(objs) && (Abs(), r) == M.Cancel(old(Abs()), req)
    {
      M.CancelKeeps(cfg, Abs(), req);
      if !req.Obj? {
        return M.Refused(M.NotJsonObject);
      }
      var commitment := Get(req, "commitment");
      if !commitment.Str? {
        return M.Refused(M.BadCommitment);
      }
      if commitment.text !in intents {
        return M.Refused(M.NoSuchIntent);
      }
      var intent := intents[commitment.text];
      ghost var ref := refs[commitment.text];
      assert Abs().objs[ref] == intent.Snapshot();
      if intent.state != M.Armed {
        return M.Refused(M.NotArmed(intent.state));
      }
      Mark(intent, ref, M.Cancelled, "0x");
      return M.CancelledReply(commitment.text);
    }

    method HandleCollect(req: Json) returns (r: M.Response)
      requires Valid()
      modifies this, objs
      ensures Valid() && objs == old(objs) && (Abs(), r) == M.Collect(old(Abs()), req)
    {
      M.CollectKeeps(cfg, Abs(), req);
      if !req.Obj? {
        return M.Refused(M.NotJsonObject);
      }
      var commitment := Get(req, "commitment");
      if !commitment.Str? {
        return M.Refused(M.BadCommitment);
      }
      if commitment.text !in intents {
        return M.Refused(M.NoSuchIntent);
      }
      var intent := intents[commitment.text];
      ghost var ref := refs[commitment.text];
      assert Abs().objs[ref] == intent.Snapshot();
      if intent.state == M.Armed {
        return M.Refused(M.NotFiredYet);
      }
      if intent.state == M.Cancelled {
        return M.Refused(M.WasCancelled);
      }
      if intent.state == M.Expired {
        return M.Refused(M.ExpiredUnfired);
      }
      Mark(intent, ref, M.Collected, intent.userOpData);
      return M.Released(intent.userOpData, intent.firedAt);
    }

    method ReportState() returns (r: M.Response)
      requires Valid()
      ensures r == M.ReportState(Abs())
    {
      forall c | c in intents ensures Abs().objs[refs[c]].state == intents[c].state {
        assert Abs().objs[refs[c]] == intents[c].Snapshot();
      }
      var armed, fired := CountStates(Abs());
      return M.Counts(armed, fired, armedTotal, firedTotal);
    }

    /** The loop of reportState; e is the enclave the map's objects make up. */
    method CountStates(ghost e: M.Enclave) returns (armed: nat, fired: nat)
      requires M.TableOk(e) && e.table.Keys == intents.Keys
      requires forall c :: c in intents ==> e.objs[e.table[c]].state == intents[c].state
      ensures armed == |M.Entries(e, M.Armed)| && fired == |M.Entries(e, M.Fired)|
    {
      armed, fired := 0, 0;
      var todo := intents.Keys;
      CountNone(e, todo, M.Armed);
      CountNone(e, todo, M.Fired);
      while todo != {}
        invariant todo <= intents.Keys
        invariant CountedTo(e, todo, M.Armed, armed) && CountedTo(e, todo, M.Fired, fired)
        decreases |todo|
      {
        var c :| c in todo;
        var state := intents[c].state;
        CountOne(e, todo, c, M.Armed, armed);
        CountOne(e, todo, c, M.Fired, fired);
        if state == M.Armed {
          armed := armed + 1;
        }
        if state == M.Fired {
          fired := fired + 1;
        }
        todo := todo - {c};
      }
    }

    // ------------------------------------------------------------------ the tick

    /** A tick reaches an intent; true when it must now await a reading. */
    method Visit(intent: Intent, ghost ref: nat, now: real) returns (ask: bool)
      requires Valid() && ref < |objs| && objs[ref] == intent
      modifies intent
      ensures Valid() && (Abs(), ask) == M.Visit(old(Abs()), ref, now)
    {
      M.VisitKeeps(cfg, Abs(), ref, now);
      assert Abs().objs[ref] == intent.Snapshot();
      if intent.state != M.Armed {
        return false;
      }
      if now >= intent.deadline {
        Mark(intent, ref, M.Expired, "0x");
        return false;
      }
      return true;
    }

    /** The reading arrives. Only the check's own result is looked at, not the intent's state. */
    method Settle(intent: Intent, ghost ref: nat, now: real, reading: Option<Reading>)
      requires Valid() && ref < |objs| && objs[ref] == intent && now < intent.deadline
      requires WellFormed(intent.trigger)
      modifies this, intent
      ensures objs == old(objs) && intents == old(intents) && refs == old(refs)
      ensures Valid() && Abs() == M.Settle(old(Abs()), ref, now, IsTriggered(intent.trigger, now, reading))
    {
      assert Abs().objs[ref] == intent.Snapshot();
      M.SettleKeeps(cfg, Abs(), ref, now, IsTriggered(intent.trigger, now, reading));
      if !IsTriggered(intent.trigger, now, reading) {
        return;
      }
      intent.state := M.Fired;
      intent.firedAt := Some(now);
      firedTotal := firedTotal + 1;
      assert Abs().objs == old(Abs()).objs[ref := intent.Snapshot()];
    }

    /** One turn of a tick nothing interrupts. */
    method TickOne(c: string, now: real, readings: map<string, Reading>)
      requires Valid() && c in intents
      modifies this, objs
      ensures objs == old(objs) && intents == old(intents) && refs == old(refs) && Valid()
      ensures Abs() == OneTicked(old(Abs()), c, now, readings)
    {
      var intent := intents[c];
      ghost var e := Abs();
      assert e.objs[refs[c]] == intent.Snapshot() && e.objs[refs[c]].commitment == c;
      assert M.IntentOk(cfg, e.objs[refs[c]]);
      var ask := Visit(intent, refs[c], now);
      if ask {
        var reading := if c in readings then Some(readings[c]) else None;
        Settle(intent, refs[c], now, reading);
      }
      assert Abs().objs == OneTicked(e, c, now, readings).objs;
    }

    /**
     * A tick nothing interrupts. The map's entries are taken in any order; the
     * source takes them in the order of insertion.
     */
    method Tick(now: real, readings: map<string, Reading>)
      requires Valid()
      modifies this, objs
      ensures objs == old(objs) && Valid() && Abs() == M.Tick(old(Abs()), now, readings)
    {
      ghost var before := Abs();
      var todo := intents.Keys;
      PartStart(before, now, readings);
      while todo != {}
        invariant objs == old(objs) && intents == old(intents) && refs == old(refs) && Valid()
        invariant todo <= intents.Keys && refs == before.table
        invariant Abs() == PartTicked(before, todo, now, readings)
        decreases todo
      {
        var c :| c in todo;
        TickOne(c, now, readings);
        PartStep(cfg, before, todo, c, now, readings);
        todo := todo - {c};
      }
      PartEnd(before, now, readings);
    }
  }

  function Inserted(e: M.Enclave, i: M.IntentRecord): M.Enclave {
    M.Enclave(e.objs + [i], e.table[i.commitment := |e.objs|], e.armedTotal + 1, e.firedTotal)
  }

  function Listed(commitment: string, userOpData: string, trigger: Trigger, deadline: real, now: real)
    : M.IntentRecord
  {
    M.IntentRecord(commitment, userOpData, trigger, deadline, M.Armed, now, None)
  }

  /** ARM of a request that has passed every check. */
  function Enlisted(e: M.Enclave, i: M.IntentRecord): (M.Enclave, M.Response)
    requires M.TableOk(e)
  {
    if M.StillArmed(e, i.commitment) then (e, M.ArmedReply(i.commitment, true))
    else (Inserted(e, i), M.ArmedReply(i.commitment, false))
  }

  function Marked(e: M.Enclave, ref: nat, state: M.IntentState, userOpData: string): M.Enclave
    requires ref < |e.objs|
  {
    e.(objs := e.objs[ref := e.objs[ref].(state := state, userOpData := userOpData)])
  }

  /** n entries in state s lie outside todo. */
  ghost predicate CountedTo(e: M.Enclave, todo: set<string>, s: M.IntentState, n: nat)
    requires M.TableOk(e)
  {
    n == |M.Entries(e, s) - todo|
  }

  lemma CountNone(e: M.Enclave, todo: set<string>, s: M.IntentState)
    requires M.TableOk(e) && e.table.Keys <= todo
    ensures CountedTo(e, todo, s, 0)
  {
    assert M.Entries(e, s) - todo == {};
  }

  lemma CountOne(e: M.Enclave, todo: set<string>, c: string, s: M.IntentState, n: nat)
    requires M.TableOk(e) && c in todo && c in e.table && CountedTo(e, todo, s, n)
    ensures CountedTo(e, todo - {c}, s, if e.objs[e.table[c]].state == s then n + 1 else n)
  {
    if c in M.Entries(e, s) {
      assert M.Entries(e, s) - (todo - {c}) == (M.Entries(e, s) - todo) + {c};
    } else {
      assert M.Entries(e, s) - (todo - {c}) == M.Entries(e, s) - todo;
    }
  }

  // ------------------------------------------------- a tick, entry by entry

  function OneTicked(e: M.Enclave, c: string, now: real, readings: map<string, Reading>): M.Enclave
    requires M.TableOk(e) && c in e.table
  {
    var i := e.objs[e.table[c]];
    e.(objs := e.objs[e.table[c] := M.Ticked(i, now, readings)],
       firedTotal := e.firedTotal + if M.FiresAt(i, now, readings) then 1 else 0)
  }

  /** The armed objects a tick has still to reach. */
  function Waiting(e: M.Enclave, todo: set<string>): set<nat> {
    set k: nat | k < |e.objs| && e.objs[k].state == M.Armed && e.objs[k].commitment in todo
  }

  /** A tick that has still to reach the entries in todo. */
  function PartTicked(e: M.Enclave, todo: set<string>, now: real, readings: map<string, Reading>): M.Enclave {
    e.(objs := seq(|e.objs|, k requires 0 <= k < |e.objs| =>
         if k in Waiting(e, todo) then e.objs[k] else M.Ticked(e.objs[k], now, readings)),
       firedTotal := e.firedTotal + |M.NewlyFired(e, now, readings) - Waiting(e, todo)|)
  }

  lemma PartStart(e: M.Enclave, now: real, readings: map<string, Reading>)
    requires forall k :: 0 <= k < |e.objs| && e.objs[k].state == M.Armed ==> e.objs[k].commitment in e.table
    ensures PartTicked(e, e.table.Keys, now, readings) == e
  {
    var p := PartTicked(e, e.table.Keys, now, readings);
    assert M.NewlyFired(e, now, readings) - Waiting(e, e.table.Keys) == {};
    assert p.objs == e.objs;
  }

  lemma PartEnd(e: M.Enclave, now: real, readings: map<string, Reading>)
    ensures PartTicked(e, {}, now, readings) == M.Tick(e, now, readings)
  {
    assert Waiting(e, {}) == {};
    assert M.NewlyFired(e, now, readings) - {} == M.NewlyFired(e, now, readings);
    assert PartTicked(e, {}, now, readings).objs == M.Tick(e, now, readings).objs;
  }

  lemma PartStep(cfg: M.Config, e: M.Enclave, todo: set<string>, c: string, now: real, readings: map<string, Reading>)
    requires M.Inv(cfg, e) && c in todo && c in e.table
    ensures OneTicked(PartTicked(e, todo, now, readings), c, now, readings) == PartTicked(e, todo - {c}, now, readings)
  {
    var ref := e.table[c];
    var p, q := PartTicked(e, todo, now, readings), PartTicked(e, todo - {c}, now, readings);
    WaitingLess(cfg, e, todo, c);
    MetLess(e, todo, c, now, readings);
    var before, after := Waiting(e, todo), Waiting(e, todo - {c});
    assert p.objs[ref] == e.objs[ref] && q.objs[ref] == M.Ticked(e.objs[ref], now, readings);
    forall k | 0 <= k < |e.objs| && k != ref ensures p.objs[k] == q.objs[k] {
      assert k in before <==> k in after;
    }
    assert p.objs[ref := q.objs[ref]] == q.objs;
  }

  lemma WaitingLess(cfg: M.Config, e: M.Enclave, todo: set<string>, c: string)
    requires M.Inv(cfg, e) && c in todo && c in e.table
    ensures Waiting(e, todo - {c}) == Waiting(e, todo) - {e.table[c]}
    ensures e.table[c] in Waiting(e, todo) <==> e.objs[e.table[c]].state == M.Armed
  {
  }

  lemma MetLess(e: M.Enclave, todo: set<string>, c: string, now: real, readings: map<string, Reading>)
    requires M.TableOk(e) && c in todo && c in e.table
    requires Waiting(e, todo - {c}) == Waiting(e, todo) - {e.table[c]}
    requires e.table[c] in Waiting(e, todo) <==> e.objs[e.table[c]].state == M.Armed
    ensures |M.NewlyFired(e, now, readings) - Waiting(e, todo - {c})|
            == |M.NewlyFired(e, now, readings) - Waiting(e, todo)|
               + if M.FiresAt(e.objs[e.table[c]], now, readings) then 1 else 0
  {
    var ref := e.table[c];
    var met := M.NewlyFired(e, now, readings);
    if ref in met {
      assert met - Waiting(e, todo - {c}) == (met - Waiting(e, todo)) + {ref};
    } else {
      assert met - Waiting(e, todo - {c}) == met - Waiting(e, todo);
    }
  }
}
