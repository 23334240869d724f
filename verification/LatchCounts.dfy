/**
 * The counters GET /state publishes. With ticks that nothing interrupts they
 * balance exactly; when ticks overlap they drift by the number of repeated
 * firings, and by nothing else.
 */
module LatchCounts {
  import opened Results
  import opened Json
  import opened Triggers
  import opened LatchModel
  import opened LatchRuns
  import opened LatchSample

  /** Every object ever armed that is in state s now. */
  ghost function InState(e: Enclave, s: IntentState): set<nat> {
    set k: nat | k < |e.objs| && e.objs[k].state == s
  }

  ghost function SpentObjects(e: Enclave): set<nat> {
    set k: nat | k < |e.objs| && Spent(e.objs[k].state)
  }

  ghost function Below(n: nat): (r: set<nat>)
    ensures |r| == n && forall k: nat :: k in r <==> k < n
  {
    if n == 0 then {} else Below(n - 1) + {n - 1}
  }

  /** Every object ever armed is in exactly one state. */
  lemma Partition(e: Enclave)
    ensures |e.objs| == |InState(e, Armed)| + |InState(e, Cancelled)| + |InState(e, Expired)| + |SpentObjects(e)|
  {
    Covered(e);
    StatesDisjoint(e);
    DisjointSizes(InState(e, Armed), InState(e, Cancelled), InState(e, Expired), SpentObjects(e));
  }

  lemma Covered(e: Enclave)
    ensures Below(|e.objs|) == InState(e, Armed) + InState(e, Cancelled) + InState(e, Expired) + SpentObjects(e)
  {
    forall k: nat | k < |e.objs|
      ensures k in InState(e, Armed) + InState(e, Cancelled) + InState(e, Expired) + SpentObjects(e)
    {
      var s := e.objs[k].state;
      assert s == Armed || s == Cancelled || s == Expired || Spent(s);
    }
  }

  lemma StatesDisjoint(e: Enclave)
    ensures InState(e, Armed) !! InState(e, Cancelled) && InState(e, Armed) !! InState(e, Expired)
    ensures InState(e, Armed) !! SpentObjects(e) && InState(e, Cancelled) !! InState(e, Expired)
    ensures InState(e, Cancelled) !! SpentObjects(e) && InState(e, Expired) !! SpentObjects(e)
  {
  }

  lemma DisjointSizes(a: set<nat>, b: set<nat>, c: set<nat>, d: set<nat>)
    requires a !! b && a !! c && a !! d && b !! c && b !! d && c !! d
    ensures |a + b + c + d| == |a| + |b| + |c| + |d|
  {
    assert |a + b| == |a| + |b|;
    assert |a + b + c| == |a + b| + |c|;
  }

  /** Counting table entries in a state never counts an object twice. */
  lemma {:induction false} EntriesAreObjects(e: Enclave, keys: set<string>, s: IntentState)
    requires TableOk(e) && keys <= Entries(e, s)
    requires forall c :: c in e.table ==> e.objs[e.table[c]].commitment == c
    ensures |keys| <= |InState(e, s)|
    ensures |keys| == |set c | c in keys :: e.table[c]|
    decreases keys
  {
    var refs := set c | c in keys :: e.table[c];
    if keys == {} {
      assert refs == {};
    } else {
      var c :| c in keys;
      EntriesAreObjects(e, keys - {c}, s);
      var fewer := set d | d in keys - {c} :: e.table[d];
      assert refs == fewer + {e.table[c]};
      assert e.table[c] !in fewer;
    }
    SubsetSize(refs, InState(e, s));
  }

  lemma SubsetSize(a: set<nat>, b: set<nat>)
    requires a <= b
    ensures |a| <= |b|
  {
    assert b == a + (b - a);
  }

  /** The armed count on the public endpoint counts every armed object, not only the reachable ones. */
  lemma ReportedArmed(cfg: Config, e: Enclave)
    requires Inv(cfg, e)
    ensures |Entries(e, Armed)| == |InState(e, Armed)|
  {
    EntriesAreObjects(e, Entries(e, Armed), Armed);
    var refs := set c | c in Entries(e, Armed) :: e.table[c];
    assert InState(e, Armed) <= refs by {
      forall k | k in InState(e, Armed) ensures k in refs {
        assert e.objs[k].commitment in Entries(e, Armed);
      }
    }
    assert refs == InState(e, Armed);
  }

  // ---------------------------------------------------------- any interleaving

  function IsSpent(i: IntentRecord): nat {
    if Spent(i.state) then 1 else 0
  }

  lemma SpentAfterEdit(e: Enclave, f: Enclave, ref: nat, i: IntentRecord)
    requires ref < |e.objs| && f.objs == e.objs[ref := i]
    ensures |SpentObjects(f)| == |SpentObjects(e)| + IsSpent(i) - IsSpent(e.objs[ref])
  {
    var rest := SpentObjects(e) - {ref};
    assert SpentObjects(e) == if Spent(e.objs[ref].state) then rest + {ref} else rest;
    assert SpentObjects(f) == if Spent(i.state) then rest + {ref} else rest;
  }

  ghost predicate Accounted(m: Machine) {
    m.enclave.firedTotal == |SpentObjects(m.enclave)| + m.repeats
  }

  lemma CancelAccounts(cfg: Config, m: Machine, req: Json)
    requires Good(cfg, m) && Formed(m) && Accounted(m)
    ensures Accounted(Step(cfg, m, DoCancel(req)).0)
  {
    var e, f := m.enclave, Step(cfg, m, DoCancel(req)).0.enclave;
    if Lookup(e, req).Ok? {
      SpentAfterEdit(e, f, Lookup(e, req).value, f.objs[Lookup(e, req).value]);
    }
  }

  lemma CollectAccounts(cfg: Config, m: Machine, req: Json)
    requires Good(cfg, m) && Formed(m) && Accounted(m)
    ensures Accounted(Step(cfg, m, DoCollect(req)).0)
  {
    var e, f := m.enclave, Step(cfg, m, DoCollect(req)).0.enclave;
    if Lookup(e, req).Ok? {
      SpentAfterEdit(e, f, Lookup(e, req).value, f.objs[Lookup(e, req).value]);
    }
  }

  lemma VisitAccounts(cfg: Config, m: Machine, c: string, now: real)
    requires Good(cfg, m) && Formed(m) && Accounted(m)
    ensures Accounted(Step(cfg, m, DoVisit(c, now)).0)
  {
    var e, f := m.enclave, Step(cfg, m, DoVisit(c, now)).0.enclave;
    if c in e.table {
      SpentAfterEdit(e, f, e.table[c], f.objs[e.table[c]]);
    }
  }

  lemma SettleAccounts(cfg: Config, m: Machine, k: nat, reading: Option<Reading>)
    requires Good(cfg, m) && Formed(m) && Accounted(m)
    ensures Accounted(Step(cfg, m, DoSettle(k, reading)).0)
  {
    var e, f := m.enclave, Step(cfg, m, DoSettle(k, reading)).0.enclave;
    if k < |m.pending| {
      assert CheckOk(e, m.pending[k]);
      SpentAfterEdit(e, f, m.pending[k].ref, f.objs[m.pending[k].ref]);
    }
  }

  lemma StepAccounts(cfg: Config, m: Machine, a: Action)
    requires Good(cfg, m) && Formed(m) && Accounted(m)
    ensures Accounted(Step(cfg, m, a).0)
  {
    match a
    case DoArm(_, _) =>
      assert SpentObjects(Step(cfg, m, a).0.enclave) == SpentObjects(m.enclave);
    case DoStatus(_) =>
    case DoCancel(req) => CancelAccounts(cfg, m, req);
    case DoCollect(req) => CollectAccounts(cfg, m, req);
    case DoReport =>
    case DoVisit(c, now) => VisitAccounts(cfg, m, c, now);
    case DoSettle(k, reading) => SettleAccounts(cfg, m, k, reading);
  }

  lemma {:induction false} FiredAccount(cfg: Config, actions: seq<Action>)
    ensures var m := Run(cfg, actions).0;
            m.enclave.firedTotal == |SpentObjects(m.enclave)| + m.repeats
  {
    if actions == [] {
      assert SpentObjects(EMPTY) == {};
    } else {
      FiredAccount(cfg, actions[..|actions| - 1]);
      RunGood(cfg, actions[..|actions| - 1]);
      StepAccounts(cfg, Run(cfg, actions[..|actions| - 1]).0, actions[|actions| - 1]);
    }
  }

  /**
   * The account of every run, however ticks overlap: arming is the only source,
   * and the counters are off by exactly the repeated firings. Hence they balance
   * if and only if no check fired an object that had been fired before.
   */
  lemma Accounting(cfg: Config, actions: seq<Action>)
    ensures var m := Run(cfg, actions).0;
            var e := m.enclave;
            e.armedTotal + m.repeats
              == e.firedTotal + |Entries(e, Armed)| + |InState(e, Cancelled)| + |InState(e, Expired)|
  {
    FiredAccount(cfg, actions);
    RunGood(cfg, actions);
    Partition(Run(cfg, actions).0.enclave);
    ReportedArmed(cfg, Run(cfg, actions).0.enclave);
  }

  /** Armed at 2; ticks at 3 and at 4 both ask for a reading before either gets it. */
  function OverlapActions(cfg: Config): seq<Action> {
    var c := cfg.keccak(OPERATION);
    [DoArm(ArmRequest(), 2.0)] + [DoVisit(c, 3.0)] + [DoVisit(c, 4.0)] + [DoSettle(0, None)] + [DoSettle(0, None)]
  }

  const TWO_CHECKS: seq<Check> := [Check(0, 3.0), Check(0, 4.0)]

  lemma OverlapSuspends(cfg: Config)
    requires cfg.maxDeadline >= 98.0
    ensures Run(cfg, OverlapActions(cfg)[..3]).0 == Only(cfg, Intent(cfg, Armed, None), 0, TWO_CHECKS, [], 0)
  {
    var suspended := [DoArm(ArmRequest(), 2.0)] + [DoVisit(cfg.keccak(OPERATION), 3.0)];
    var again := DoVisit(cfg.keccak(OPERATION), 4.0);
    Suspends(cfg);
    RunSnoc(cfg, suspended, again);
    Asks(cfg, [Check(0, 3.0)], 4.0);
    assert [Check(0, 3.0)] + [Check(0, 4.0)] == TWO_CHECKS;
    assert OverlapActions(cfg)[..3] == suspended + [again];
  }

  /** Two ticks suspended on the same intent fire it twice: more fired than were ever armed. */
  lemma OverlapOvercounts(cfg: Config)
    requires cfg.maxDeadline >= 98.0
    ensures var e := Run(cfg, OverlapActions(cfg)).0.enclave;
            e.armedTotal == 1 && e.firedTotal == 2
  {
    var actions, armed := OverlapActions(cfg), Intent(cfg, Armed, None);
    OverlapSuspends(cfg);
    var fired := armed.(state := Fired, firedAt := Some(3.0));
    assert actions[..4] == actions[..3] + [DoSettle(0, None)] && actions == actions[..4] + [DoSettle(0, None)];
    RunSnoc(cfg, actions[..3], DoSettle(0, None));
    Fires(cfg, armed, 0, TWO_CHECKS, [], 0);
    RunSnoc(cfg, actions[..4], DoSettle(0, None));
    Fires(cfg, fired, 1, TWO_CHECKS[1..], [] + [Hit(Check(0, 3.0), None)], 0);
  }

  // -------------------------------------------------------------- atomic ticks

  datatype AtomicAction =
    | Command(a: Action)
    | WholeTick(now: real, readings: map<string, Reading>)

  ghost function AtomicStep(cfg: Config, e: Enclave, a: AtomicAction): Enclave
    requires TableOk(e)
  {
    match a
    case WholeTick(now, readings) => Tick(e, now, readings)
    case Command(DoArm(req, now)) => Arm(cfg, e, req, now).0
    case Command(DoCancel(req)) => Cancel(e, req).0
    case Command(DoCollect(req)) => Collect(e, req).0
    case _ => e
  }

  ghost predicate Balanced(cfg: Config, e: Enclave) {
    Inv(cfg, e) && e.firedTotal == |SpentObjects(e)|
  }

  lemma TickSpends(e: Enclave, now: real, readings: map<string, Reading>)
    ensures |SpentObjects(Tick(e, now, readings))| == |SpentObjects(e)| + |NewlyFired(e, now, readings)|
  {
    var f := Tick(e, now, readings);
    var fired := NewlyFired(e, now, readings);
    forall k: nat | k < |e.objs|
      ensures Spent(f.objs[k].state) <==> Spent(e.objs[k].state) || FiresAt(e.objs[k], now, readings)
      ensures !(Spent(e.objs[k].state) && FiresAt(e.objs[k], now, readings))
    {
      assert f.objs[k] == Ticked(e.objs[k], now, readings);
    }
    assert SpentObjects(f) == SpentObjects(e) + fired;
    assert SpentObjects(e) !! fired;
  }

  lemma ArmBalances(cfg: Config, e: Enclave, req: Json, now: real)
    requires Balanced(cfg, e)
    ensures Balanced(cfg, Arm(cfg, e, req, now).0)
  {
    ArmKeeps(cfg, e, req, now);
    assert SpentObjects(Arm(cfg, e, req, now).0) == SpentObjects(e);
  }

  lemma CancelBalances(cfg: Config, e: Enclave, req: Json)
    requires Balanced(cfg, e)
    ensures Balanced(cfg, Cancel(e, req).0)
  {
    CancelKeeps(cfg, e, req);
    assert SpentObjects(Cancel(e, req).0) == SpentObjects(e);
  }

  lemma CollectBalances(cfg: Config, e: Enclave, req: Json)
    requires Balanced(cfg, e)
    ensures Balanced(cfg, Collect(e, req).0)
  {
    CollectKeeps(cfg, e, req);
    assert SpentObjects(Collect(e, req).0) == SpentObjects(e);
  }

  lemma AtomicKeeps(cfg: Config, e: Enclave, a: AtomicAction)
    requires Balanced(cfg, e)
    ensures Balanced(cfg, AtomicStep(cfg, e, a))
  {
    match a
    case WholeTick(now, readings) =>
      TickKeeps(cfg, e, now, readings);
      TickSpends(e, now, readings);
    case Command(DoArm(req, now)) => ArmBalances(cfg, e, req, now);
    case Command(DoCancel(req)) => CancelBalances(cfg, e, req);
    case Command(DoCollect(req)) => CollectBalances(cfg, e, req);
    case _ =>
  }

  ghost function AtomicRun(cfg: Config, actions: seq<AtomicAction>): (e: Enclave)
    ensures TableOk(e)
  {
    if actions == [] then EMPTY
    else
      var e := AtomicStep(cfg, AtomicRun(cfg, actions[..|actions| - 1]), actions[|actions| - 1]);
      assert TableOk(e);
      e
  }

  /** The counters balance, and the invariant holds, in every reachable state. */
  lemma {:induction false} AtomicBalanced(cfg: Config, actions: seq<AtomicAction>)
    ensures Balanced(cfg, AtomicRun(cfg, actions))
  {
    if actions == [] {
      assert SpentObjects(EMPTY) == {};
    } else {
      AtomicBalanced(cfg, actions[..|actions| - 1]);
      AtomicKeeps(cfg, AtomicRun(cfg, actions[..|actions| - 1]), actions[|actions| - 1]);
    }
  }

  /** The objects that were in state s after some action of the run. */
  ghost function EverIn(cfg: Config, actions: seq<AtomicAction>, s: IntentState): set<nat> {
    if actions == [] then {}
    else EverIn(cfg, actions[..|actions| - 1], s) + InState(AtomicRun(cfg, actions), s)
  }

  /** With whole ticks an object once cancelled or expired stays so. */
  lemma StaysRevoked(cfg: Config, e: Enclave, a: AtomicAction, s: IntentState)
    requires TableOk(e) && (s == Cancelled || s == Expired)
    ensures InState(e, s) <= InState(AtomicStep(cfg, e, a), s)
  {
  }

  lemma {:induction false} EverIsNow(cfg: Config, actions: seq<AtomicAction>, s: IntentState)
    requires s == Cancelled || s == Expired
    ensures EverIn(cfg, actions, s) == InState(AtomicRun(cfg, actions), s)
  {
    if actions == [] {
      assert InState(EMPTY, s) == {};
    } else {
      EverIsNow(cfg, actions[..|actions| - 1], s);
      StaysRevoked(cfg, AtomicRun(cfg, actions[..|actions| - 1]), actions[|actions| - 1], s);
    }
  }

  /**
   * Conservation with atomic ticks, across re-arms of the same commitment: every
   * intent ever armed was fired, or is armed, or was cancelled, or has expired.
   * What GET /state shows never exceeds what was armed.
   */
  lemma Conservation(cfg: Config, actions: seq<AtomicAction>)
    ensures var e := AtomicRun(cfg, actions);
            var r := ReportState(e);
            && r.armedTotal ==
               r.firedTotal + r.armed + |EverIn(cfg, actions, Cancelled)| + |EverIn(cfg, actions, Expired)|
            && r.awaitingCollection <= r.firedTotal
            && r.armed + r.firedTotal <= r.armedTotal
  {
    var e := AtomicRun(cfg, actions);
    AtomicBalanced(cfg, actions);
    EverIsNow(cfg, actions, Cancelled);
    EverIsNow(cfg, actions, Expired);
    Partition(e);
    ReportedArmed(cfg, e);
    EntriesAreObjects(e, Entries(e, Fired), Fired);
    SubsetSize(InState(e, Fired), SpentObjects(e));
  }

  /**
   * What one tick leaves armed is still within its deadline and its trigger is
   * unmet; in particular nothing stays armed past the ceiling.
   */
  lemma TickHolds(cfg: Config, actions: seq<AtomicAction>, now: real, readings: map<string, Reading>, k: nat)
    requires k < |AtomicRun(cfg, actions).objs|
    ensures var i := Tick(AtomicRun(cfg, actions), now, readings).objs[k];
            i.state == Armed ==>
              && now < i.deadline <= i.armedAt + cfg.maxDeadline
              && WellFormed(i.trigger)
              && !IsTriggered(i.trigger, now, if i.commitment in readings then Some(readings[i.commitment]) else None)
  {
    AtomicBalanced(cfg, actions);
    assert IntentOk(cfg, AtomicRun(cfg, actions).objs[k]);
  }
}
