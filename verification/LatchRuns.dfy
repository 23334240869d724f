/**
 * Whole runs of LATCH. Timers start ticks outside the server's queue, so a
 * tick can be suspended at its read of the feed while commands and other ticks
 * run; a run is any sequence of commands, visits and settlements.
 */
module LatchRuns {
  import opened Results
  import opened Json
  import opened Triggers
  import opened LatchModel

  /** A tick that has asked for a reading for an object and waits for the answer. */
  datatype Check = Check(ref: nat, now: real)

  /** A check that came back met, with the reading it came back with. */
  datatype Hit = Hit(check: Check, reading: Option<Reading>)

  /**
   * The enclave, the checks in flight, and history: which checks were met, which
   * objects were ever cancelled or expired, and how many checks fired an object
   * that had been fired before.
   */
  datatype Machine = Machine(
    enclave: Enclave,
    pending: seq<Check>,
    hits: seq<Hit>,
    revoked: set<nat>,
    repeats: nat)

  const START: Machine := Machine(EMPTY, [], [], {}, 0)

  datatype Action =
    | DoArm(req: Json, now: real)
    | DoStatus(req: Json)
    | DoCancel(req: Json)
    | DoCollect(req: Json)
    | DoReport
    | DoVisit(c: string, now: real)               // a tick at time now reaches the entry for c
    | DoSettle(k: nat, reading: Option<Reading>)  // the k-th check in flight gets its reading

  predicate Spent(s: IntentState) {
    s == Fired || s == Collected
  }

  /** What the handlers need to run at all: entries and checks name objects, and triggers were parsed. */
  predicate Formed(m: Machine) {
    && TableOk(m.enclave)
    && (forall k :: 0 <= k < |m.pending| ==> m.pending[k].ref < |m.enclave.objs|)
    && (forall k :: 0 <= k < |m.enclave.objs| ==> WellFormed(m.enclave.objs[k].trigger))
  }

  ghost function Step(cfg: Config, m: Machine, a: Action): (Machine, Option<Response>)
    requires Formed(m)
  {
    match a
    case DoArm(req, now) =>
      var (e, r) := Arm(cfg, m.enclave, req, now);
      (m.(enclave := e), Some(r))
    case DoStatus(req) => (m, Some(Status(m.enclave, req)))
    case DoCancel(req) =>
      var (e, r) := Cancel(m.enclave, req);
      (m.(enclave := e,
          revoked := if r.CancelledReply? then m.revoked + {Lookup(m.enclave, req).value} else m.revoked),
       Some(r))
    case DoCollect(req) =>
      var (e, r) := Collect(m.enclave, req);
      (m.(enclave := e), Some(r))
    case DoReport => (m, Some(ReportState(m.enclave)))
    case DoVisit(c, now) =>
      if c !in m.enclave.table then (m, None)
      else
        var ref := m.enclave.table[c];
        var (e, ask) := Visit(m.enclave, ref, now);
        (m.(enclave := e,
            pending := if ask then m.pending + [Check(ref, now)] else m.pending,
            revoked := if e != m.enclave then m.revoked + {ref} else m.revoked),
         None)
    case DoSettle(k, reading) =>
      if k >= |m.pending| then (m, None)
      else
        var check := m.pending[k];
        var i := m.enclave.objs[check.ref];
        var fired := IsTriggered(i.trigger, check.now, reading);
        (m.(enclave := Settle(m.enclave, check.ref, check.now, fired),
            pending := m.pending[..k] + m.pending[k + 1..],
            hits := if fired then m.hits + [Hit(check, reading)] else m.hits,
            repeats := if fired && Spent(i.state) then m.repeats + 1 else m.repeats),
         None)
  }

  predicate CheckOk(e: Enclave, c: Check) {
    c.ref < |e.objs| && c.now < e.objs[c.ref].deadline
  }

  predicate HitOk(e: Enclave, h: Hit) {
    CheckOk(e, h.check) && WellFormed(e.objs[h.check.ref].trigger) &&
    IsTriggered(e.objs[h.check.ref].trigger, h.check.now, h.reading)
  }

  /** Some check of this very object, made at this very time, came back met. */
  ghost predicate WasHit(hits: seq<Hit>, ref: nat, now: real) {
    exists h :: 0 <= h < |hits| && hits[h].check == Check(ref, now)
  }

  predicate ChecksOk(e: Enclave, pending: seq<Check>) {
    forall k :: 0 <= k < |pending| ==> CheckOk(e, pending[k])
  }

  predicate HitsOk(e: Enclave, hits: seq<Hit>) {
    forall k :: 0 <= k < |hits| ==> HitOk(e, hits[k])
  }

  predicate RevokedExactly(e: Enclave, revoked: set<nat>) {
    && (forall ref :: ref in revoked ==> ref < |e.objs| && e.objs[ref].userOpData == "0x")
    && (forall ref :: 0 <= ref < |e.objs| && e.objs[ref].userOpData == "0x" ==> ref in revoked)
  }

  /** Every firing on record was a hit. */
  ghost predicate Witnessed(e: Enclave, hits: seq<Hit>) {
    forall k :: 0 <= k < |e.objs| && e.objs[k].firedAt.Some? ==> WasHit(hits, k, e.objs[k].firedAt.value)
  }

  ghost predicate Good(cfg: Config, m: Machine) {
    && Inv(cfg, m.enclave)
    && ChecksOk(m.enclave, m.pending)
    && HitsOk(m.enclave, m.hits)
    && RevokedExactly(m.enclave, m.revoked)
    && Witnessed(m.enclave, m.hits)
  }

  lemma GoodIsFormed(cfg: Config, m: Machine)
    requires Good(cfg, m)
    ensures Formed(m)
  {
    forall k | 0 <= k < |m.pending| ensures m.pending[k].ref < |m.enclave.objs| {
      assert CheckOk(m.enclave, m.pending[k]);
    }
    forall k | 0 <= k < |m.enclave.objs| ensures WellFormed(m.enclave.objs[k].trigger) {
      assert IntentOk(cfg, m.enclave.objs[k]);
    }
  }

  lemma StepFormed(cfg: Config, m: Machine, a: Action)
    requires Formed(m)
    ensures Formed(Step(cfg, m, a).0)
  {
    match a
    case DoArm(req, now) =>
      if ArmRefusal(cfg, req, now).None? {
        ParsedIsWellFormed(Get(req, "trigger"));
      }
    case _ =>
  }

  lemma CancelGood(cfg: Config, m: Machine, req: Json)
    requires Good(cfg, m)
    ensures Formed(m) && Good(cfg, Step(cfg, m, DoCancel(req)).0)
  {
    GoodIsFormed(cfg, m);
    CancelKeeps(cfg, m.enclave, req);
    EditGood(m, Step(cfg, m, DoCancel(req)).0);
  }

  lemma CollectGood(cfg: Config, m: Machine, req: Json)
    requires Good(cfg, m)
    ensures Formed(m) && Good(cfg, Step(cfg, m, DoCollect(req)).0)
  {
    GoodIsFormed(cfg, m);
    CollectKeeps(cfg, m.enclave, req);
    EditGood(m, Step(cfg, m, DoCollect(req)).0);
  }

  lemma StepKeeps(cfg: Config, m: Machine, a: Action)
    requires Good(cfg, m)
    ensures Formed(m) && Good(cfg, Step(cfg, m, a).0)
  {
    GoodIsFormed(cfg, m);
    match a
    case DoArm(req, now) => ArmGood(cfg, m, req, now);
    case DoStatus(_) =>
    case DoCancel(req) => CancelGood(cfg, m, req);
    case DoCollect(req) => CollectGood(cfg, m, req);
    case DoReport =>
    case DoVisit(c, now) =>
      if c in m.enclave.table {
        VisitGood(cfg, m, c, now);
      }
    case DoSettle(k, reading) =>
      if k < |m.pending| {
        SettleGood(cfg, m, k, reading);
      }
  }

  /** Objects keep their trigger, deadline and firing time; some may be added, unfired. */
  predicate Extends(e: Enclave, f: Enclave) {
    && |e.objs| <= |f.objs|
    && (forall k :: 0 <= k < |e.objs| ==>
          f.objs[k].trigger == e.objs[k].trigger && f.objs[k].deadline == e.objs[k].deadline &&
          f.objs[k].firedAt == e.objs[k].firedAt)
    && (forall k :: |e.objs| <= k < |f.objs| ==> f.objs[k].firedAt.None?)
  }

  lemma ExtendsKeeps(e: Enclave, f: Enclave, pending: seq<Check>, hits: seq<Hit>)
    requires Extends(e, f) && ChecksOk(e, pending) && HitsOk(e, hits) && Witnessed(e, hits)
    ensures ChecksOk(f, pending) && HitsOk(f, hits) && Witnessed(f, hits)
  {
    forall k | 0 <= k < |pending| ensures CheckOk(f, pending[k]) {
      assert CheckOk(e, pending[k]);
    }
    forall k | 0 <= k < |hits| ensures HitOk(f, hits[k]) {
      assert HitOk(e, hits[k]);
    }
  }

  lemma ArmGood(cfg: Config, m: Machine, req: Json, now: real)
    requires Good(cfg, m)
    ensures Formed(m) && Good(cfg, Step(cfg, m, DoArm(req, now)).0)
  {
    GoodIsFormed(cfg, m);
    var n := Step(cfg, m, DoArm(req, now)).0;
    ArmKeeps(cfg, m.enclave, req, now);
    ExtendsKeeps(m.enclave, n.enclave, m.pending, m.hits);
  }

  /** CANCEL and COLLECT write to one object, and neither to its times nor to its trigger. */
  lemma EditGood(m: Machine, n: Machine)
    requires TableOk(m.enclave) && Extends(m.enclave, n.enclave) && |n.enclave.objs| == |m.enclave.objs|
    requires ChecksOk(m.enclave, m.pending) && HitsOk(m.enclave, m.hits) && Witnessed(m.enclave, m.hits)
    requires n.pending == m.pending && n.hits == m.hits
    ensures ChecksOk(n.enclave, n.pending) && HitsOk(n.enclave, n.hits) && Witnessed(n.enclave, n.hits)
  {
    ExtendsKeeps(m.enclave, n.enclave, m.pending, m.hits);
  }

  lemma VisitGood(cfg: Config, m: Machine, c: string, now: real)
    requires Good(cfg, m) && c in m.enclave.table
    ensures Formed(m) && Good(cfg, Step(cfg, m, DoVisit(c, now)).0)
  {
    GoodIsFormed(cfg, m);
    var n := Step(cfg, m, DoVisit(c, now)).0;
    var ref := m.enclave.table[c];
    VisitKeeps(cfg, m.enclave, ref, now);
    ExtendsKeeps(m.enclave, n.enclave, m.pending, m.hits);
    var i := m.enclave.objs[ref];
    if i.state == Armed && now >= i.deadline {
      assert IntentOk(cfg, i);
      assert n.enclave.objs[ref] != i;
    }
  }

  lemma SettleGood(cfg: Config, m: Machine, k: nat, reading: Option<Reading>)
    requires Good(cfg, m) && k < |m.pending|
    ensures Formed(m) && Good(cfg, Step(cfg, m, DoSettle(k, reading)).0)
  {
    GoodIsFormed(cfg, m);
    var n := Step(cfg, m, DoSettle(k, reading)).0;
    var check := m.pending[k];
    assert CheckOk(m.enclave, check);
    var fired := IsTriggered(m.enclave.objs[check.ref].trigger, check.now, reading);
    SettleKeeps(cfg, m.enclave, check.ref, check.now, fired);
    assert ChecksOk(n.enclave, n.pending) by {
      forall j | 0 <= j < |n.pending| ensures CheckOk(n.enclave, n.pending[j]) {
        assert CheckOk(m.enclave, m.pending[if j < k then j else j + 1]);
      }
    }
    assert HitsOk(n.enclave, n.hits) by {
      forall j | 0 <= j < |n.hits| ensures HitOk(n.enclave, n.hits[j]) {
        assert j < |m.hits| ==> HitOk(m.enclave, m.hits[j]);
      }
    }
    SettleWitnessed(m.enclave, n.enclave, check, reading, m.hits, n.hits);
  }

  lemma SettleWitnessed(e: Enclave, f: Enclave, check: Check, reading: Option<Reading>, hits: seq<Hit>, hits': seq<Hit>)
    requires Witnessed(e, hits) && check.ref < |e.objs|
    requires (f == e && hits' == hits) ||
             (f == Settle(e, check.ref, check.now, true) && hits' == hits + [Hit(check, reading)])
    ensures Witnessed(f, hits')
  {
    forall j | 0 <= j < |f.objs| && f.objs[j].firedAt.Some?
      ensures WasHit(hits', j, f.objs[j].firedAt.value)
    {
      if f != e && j == check.ref {
        assert hits'[|hits|] == Hit(check, reading);
      } else {
        assert WasHit(hits, j, e.objs[j].firedAt.value);
        var h :| 0 <= h < |hits| && hits[h].check == Check(j, e.objs[j].firedAt.value);
        assert hits'[h] == hits[h];
      }
    }
  }

  // ------------------------------------------------------------------- runs

  ghost function Run(cfg: Config, actions: seq<Action>): (r: (Machine, seq<Response>))
    ensures Formed(r.0)
  {
    if actions == [] then (START, [])
    else
      var (m, rs) := Run(cfg, actions[..|actions| - 1]);
      StepFormed(cfg, m, actions[|actions| - 1]);
      var (n, r) := Step(cfg, m, actions[|actions| - 1]);
      (n, if r.Some? then rs + [r.value] else rs)
  }

  /** The invariant holds in every reachable state. */
  lemma {:induction false} RunGood(cfg: Config, actions: seq<Action>)
    ensures Good(cfg, Run(cfg, actions).0)
  {
    if actions != [] {
      RunGood(cfg, actions[..|actions| - 1]);
      StepKeeps(cfg, Run(cfg, actions[..|actions| - 1]).0, actions[|actions| - 1]);
    }
  }

  /**
   * Release safety, in every interleaving. If COLLECT hands out bytes for c, they
   * hash to c or are the empty "0x"; they are empty exactly when that very object
   * was cancelled or expired at some time; and a check of that very object, at a
   * tick time before its deadline, found its trigger met.
   */
  lemma ReleaseSafety(cfg: Config, actions: seq<Action>, req: Json)
    ensures
      var m := Run(cfg, actions).0;
      var (e, r) := Collect(m.enclave, req);
      r.Released? ==>
        var c := Get(req, "commitment").text;
        var ref := m.enclave.table[c];
        && (r.userOpData == "0x" || cfg.keccak(r.userOpData) == c)
        && (r.userOpData == "0x" <==> ref in m.revoked)
        && r.firedAt.Some?
        && r.firedAt.value < m.enclave.objs[ref].deadline
        && exists h :: 0 <= h < |m.hits| && m.hits[h].check == Check(ref, r.firedAt.value)
             && IsTriggered(m.enclave.objs[ref].trigger, r.firedAt.value, m.hits[h].reading)
  {
    RunGood(cfg, actions);
    var m := Run(cfg, actions).0;
    var (e, r) := Collect(m.enclave, req);
    if r.Released? {
      var ref := m.enclave.table[Get(req, "commitment").text];
      assert WasHit(m.hits, ref, r.firedAt.value);
      var h :| 0 <= h < |m.hits| && m.hits[h].check == Check(ref, r.firedAt.value);
      assert HitOk(m.enclave, m.hits[h]);
    }
  }

  lemma {:induction false} RevokedStays(cfg: Config, actions: seq<Action>, more: seq<Action>)
    ensures Run(cfg, actions).0.revoked <= Run(cfg, actions + more).0.revoked
    decreases |more|
  {
    if more == [] {
      assert actions + more == actions;
    } else {
      var shorter := more[..|more| - 1];
      RevokedStays(cfg, actions, shorter);
      assert (actions + more)[..|actions + more| - 1] == actions + shorter;
      RevokedGrows(cfg, Run(cfg, actions + shorter).0, more[|more| - 1]);
    }
  }

  /** Erased bytes never come back: the objects revoked so far stay revoked and stay empty. */
  lemma RevokedForever(cfg: Config, actions: seq<Action>, more: seq<Action>, ref: nat)
    requires ref in Run(cfg, actions).0.revoked
    ensures ref in Run(cfg, actions + more).0.revoked
    ensures ref < |Run(cfg, actions + more).0.enclave.objs|
    ensures Run(cfg, actions + more).0.enclave.objs[ref].userOpData == "0x"
  {
    RevokedStays(cfg, actions, more);
    RunGood(cfg, actions + more);
  }

  lemma RevokedGrows(cfg: Config, m: Machine, a: Action)
    requires Formed(m)
    ensures m.revoked <= Step(cfg, m, a).0.revoked
  {
  }

  /** Bounded holding, in every interleaving. */
  lemma BoundedHolding(cfg: Config, actions: seq<Action>, ref: nat)
    requires ref < |Run(cfg, actions).0.enclave.objs|
    ensures
      var i := Run(cfg, actions).0.enclave.objs[ref];
      i.armedAt < i.deadline <= i.armedAt + cfg.maxDeadline && (i.firedAt.Some? ==> i.firedAt.value < i.deadline)
  {
    RunGood(cfg, actions);
    assert IntentOk(cfg, Run(cfg, actions).0.enclave.objs[ref]);
  }

  // ------------------------------------------- what the bytes cannot influence

  predicate SameIntent(i: IntentRecord, j: IntentRecord) {
    i.(userOpData := "") == j.(userOpData := "") && (i.userOpData == "0x" <==> j.userOpData == "0x")
  }

  /** The two enclaves differ, if at all, in bytes that were not erased. */
  predicate AlikeEnclaves(e: Enclave, f: Enclave) {
    && e.table == f.table && e.armedTotal == f.armedTotal && e.firedTotal == f.firedTotal
    && |e.objs| == |f.objs|
    && forall k :: 0 <= k < |e.objs| ==> SameIntent(e.objs[k], f.objs[k])
  }

  predicate Alike(m: Machine, n: Machine) {
    m.(enclave := EMPTY) == n.(enclave := EMPTY) && AlikeEnclaves(m.enclave, n.enclave)
  }

  /** Two ARM requests that agree on everything but the operation, whose commitments agree. */
  predicate AlikeArm(c1: Config, c2: Config, r1: Json, r2: Json) {
    && (r1.Obj? <==> r2.Obj?)
    && Get(r1, "commitment") == Get(r2, "commitment")
    && Get(r1, "trigger") == Get(r2, "trigger")
    && Get(r1, "deadline") == Get(r2, "deadline")
    && (GoodUserOp(Get(r1, "userOpData")) <==> GoodUserOp(Get(r2, "userOpData")))
    && (GoodUserOp(Get(r1, "userOpData")) ==>
          c1.keccak(Get(r1, "userOpData").text) == c2.keccak(Get(r2, "userOpData").text))
  }

  predicate AlikeAction(c1: Config, c2: Config, a: Action, b: Action) {
    if a.DoArm? && b.DoArm? then a.now == b.now && AlikeArm(c1, c2, a.req, b.req) else a == b
  }

  /** Responses agree, a released operation excepted. */
  predicate AlikeResponse(r: Option<Response>, s: Option<Response>) {
    if r.Some? && s.Some? && r.value.Released? && s.value.Released?
    then r.value.firedAt == s.value.firedAt
    else r == s
  }

  lemma AlikeStep(c1: Config, c2: Config, m: Machine, n: Machine, a: Action, b: Action)
    requires Good(c1, m) && Good(c2, n) && Formed(m) && Formed(n) && c1.maxDeadline == c2.maxDeadline
    requires Alike(m, n) && AlikeAction(c1, c2, a, b)
    ensures Alike(Step(c1, m, a).0, Step(c2, n, b).0)
    ensures AlikeResponse(Step(c1, m, a).1, Step(c2, n, b).1)
  {
    match a
    case DoArm(r1, now) =>
      AlikeArming(c1, c2, m, n, r1, b.req, now);
    case DoStatus(req) =>
      AlikeReplies(m.enclave, n.enclave, req);
    case DoCancel(req) =>
      AlikeCancel(m.enclave, n.enclave, req);
    case DoCollect(req) =>
      AlikeReplies(m.enclave, n.enclave, req);
    case DoReport =>
      AlikeReplies(m.enclave, n.enclave, Absent);
    case DoVisit(c, now) =>
      if c in m.enclave.table {
        AlikeVisit(m.enclave, n.enclave, m.enclave.table[c], now);
      }
    case DoSettle(k, reading) =>
      if k < |m.pending| {
        var check := m.pending[k];
        assert CheckOk(m.enclave, check);
        var i := m.enclave.objs[check.ref];
        assert SameIntent(i, n.enclave.objs[check.ref]);
        AlikeSettle(m.enclave, n.enclave, check.ref, check.now, IsTriggered(i.trigger, check.now, reading));
      }
  }

  lemma AlikeReplies(e: Enclave, f: Enclave, req: Json)
    requires TableOk(e) && AlikeEnclaves(e, f)
    ensures TableOk(f)
    ensures Status(e, req) == Status(f, req)
    ensures AlikeEnclaves(Collect(e, req).0, Collect(f, req).0)
    ensures AlikeResponse(Some(Collect(e, req).1), Some(Collect(f, req).1))
    ensures ReportState(e) == ReportState(f)
  {
    var key := Get(req, "commitment");
    assert forall c :: c in e.table ==> SameIntent(e.objs[e.table[c]], f.objs[f.table[c]]);
    assert Entries(e, Armed) == Entries(f, Armed);
    assert Entries(e, Fired) == Entries(f, Fired);
  }

  lemma AlikeCancel(e: Enclave, f: Enclave, req: Json)
    requires TableOk(e) && AlikeEnclaves(e, f)
    ensures TableOk(f)
    ensures AlikeEnclaves(Cancel(e, req).0, Cancel(f, req).0) && Cancel(e, req).1 == Cancel(f, req).1
  {
    assert forall c :: c in e.table ==> SameIntent(e.objs[e.table[c]], f.objs[f.table[c]]);
  }

  lemma AlikeVisit(e: Enclave, f: Enclave, ref: nat, now: real)
    requires ref < |e.objs| && AlikeEnclaves(e, f)
    ensures AlikeEnclaves(Visit(e, ref, now).0, Visit(f, ref, now).0) && Visit(e, ref, now).1 == Visit(f, ref, now).1
    ensures Visit(e, ref, now).0 == e <==> Visit(f, ref, now).0 == f
  {
    var i := e.objs[ref];
    assert SameIntent(i, f.objs[ref]);
    if i.state == Armed && now >= i.deadline {
      assert Visit(e, ref, now).0.objs[ref].state == Expired;
      assert Visit(f, ref, now).0.objs[ref].state == Expired;
    }
  }

  lemma AlikeSettle(e: Enclave, f: Enclave, ref: nat, now: real, fired: bool)
    requires ref < |e.objs| && AlikeEnclaves(e, f)
    ensures AlikeEnclaves(Settle(e, ref, now, fired), Settle(f, ref, now, fired))
  {
    assert SameIntent(e.objs[ref], f.objs[ref]);
  }

  lemma AlikeArming(c1: Config, c2: Config, m: Machine, n: Machine, r1: Json, r2: Json, now: real)
    requires Good(c1, m) && Good(c2, n) && Formed(m) && Formed(n) && c1.maxDeadline == c2.maxDeadline
    requires Alike(m, n) && AlikeArm(c1, c2, r1, r2)
    ensures Alike(Step(c1, m, DoArm(r1, now)).0, Step(c2, n, DoArm(r2, now)).0)
    ensures Step(c1, m, DoArm(r1, now)).1 == Step(c2, n, DoArm(r2, now)).1
  {
    assert ArmRefusal(c1, r1, now) == ArmRefusal(c2, r2, now);
    if ArmRefusal(c1, r1, now).None? {
      assert SameIntent(NewIntent(c1, r1, now), NewIntent(c2, r2, now));
    }
  }

  predicate AlikeResponses(rs: seq<Response>, ss: seq<Response>) {
    |rs| == |ss| && forall k :: 0 <= k < |rs| ==> AlikeResponse(Some(rs[k]), Some(ss[k]))
  }

  /**
   * Noninterference. Run the enclave twice, over operations and hashes that agree
   * only in their commitments, with everything else the same: every response is
   * the same, except the bytes a successful COLLECT releases.
   */
  lemma {:induction false} BytesStaySealed(c1: Config, c2: Config, actions1: seq<Action>, actions2: seq<Action>)
    requires c1.maxDeadline == c2.maxDeadline
    requires |actions1| == |actions2|
    requires forall k :: 0 <= k < |actions1| ==> AlikeAction(c1, c2, actions1[k], actions2[k])
    ensures Alike(Run(c1, actions1).0, Run(c2, actions2).0)
    ensures AlikeResponses(Run(c1, actions1).1, Run(c2, actions2).1)
    decreases |actions1|
  {
    if actions1 != [] {
      var last := |actions1| - 1;
      BytesStaySealed(c1, c2, actions1[..last], actions2[..last]);
      RunGood(c1, actions1[..last]);
      RunGood(c2, actions2[..last]);
      AlikeStep(c1, c2, Run(c1, actions1[..last]).0, Run(c2, actions2[..last]).0, actions1[last], actions2[last]);
    }
  }
}
