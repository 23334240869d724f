/**
 * Whole ticks. A tick that nothing interrupts is a run of the split machine, so
 * what holds of every interleaving holds with whole ticks among the commands;
 * and then COLLECT releases exactly what some tick found due.
 */
module LatchAtomic {
  import opened Results
  import opened Json
  import opened Triggers
  import opened TriggerLaws
  import opened LatchModel
  import opened LatchRuns
  import opened LatchCounts
  import opened LatchLaws
  import L = Latch
  import S = LatchSample

  // ------------------------------------------------- a whole tick is a split run

  /** Halves of a tick that began at now. */
  predicate HalvesOf(actions: seq<Action>, now: real) {
    forall k :: 0 <= k < |actions| ==> actions[k].DoSettle? || (actions[k].DoVisit? && actions[k].now == now)
  }

  /** The same checks in flight and the same answers as before, and this enclave. */
  ghost predicate Reaches(cfg: Config, actions: seq<Action>, more: seq<Action>, e: Enclave) {
    var before, after := Run(cfg, actions), Run(cfg, actions + more);
    after.0.enclave == e && after.0.pending == before.0.pending && after.1 == before.1
  }

  lemma OneTurn(cfg: Config, actions: seq<Action>, c: string, now: real, readings: map<string, Reading>)
      returns (more: seq<Action>)
    requires c in Run(cfg, actions).0.enclave.table
    ensures HalvesOf(more, now)
    ensures Reaches(cfg, actions, more, L.OneTicked(Run(cfg, actions).0.enclave, c, now, readings))
  {
    RunGood(cfg, actions);
    var m := Run(cfg, actions).0;
    var visit, settle := DoVisit(c, now), DoSettle(|m.pending|, ReadingFor(c, readings));
    S.RunSnoc(cfg, actions, visit);
    if Visit(m.enclave, m.enclave.table[c], now).1 {
      S.RunSnoc(cfg, actions + [visit], settle);
      more := [visit, settle];
      assert actions + more == actions + [visit] + [settle];
      TurnAsks(cfg, m, c, now, readings);
    } else {
      more := [visit];
      TurnSkips(cfg, m, c, now, readings);
    }
  }

  /** The halves of a turn that asks come to a turn of a whole tick; the checks in flight are as they were. */
  lemma TurnAsks(cfg: Config, m: Machine, c: string, now: real, readings: map<string, Reading>)
    requires Good(cfg, m) && Formed(m) && c in m.enclave.table && Visit(m.enclave, m.enclave.table[c], now).1
    ensures var visited := Step(cfg, m, DoVisit(c, now)).0;
            && Formed(visited)
            && var (n, r) := Step(cfg, visited, DoSettle(|m.pending|, ReadingFor(c, readings)));
               n.enclave == L.OneTicked(m.enclave, c, now, readings) && n.pending == m.pending && r == None
  {
    StepFormed(cfg, m, DoVisit(c, now));
    var ref := m.enclave.table[c];
    assert IntentOk(cfg, m.enclave.objs[ref]);
    assert m.enclave.objs[ref := m.enclave.objs[ref]] == m.enclave.objs;
    assert (m.pending + [Check(ref, now)])[..|m.pending|] == m.pending;
  }

  lemma TurnSkips(cfg: Config, m: Machine, c: string, now: real, readings: map<string, Reading>)
    requires Good(cfg, m) && Formed(m) && c in m.enclave.table && !Visit(m.enclave, m.enclave.table[c], now).1
    ensures var n := Step(cfg, m, DoVisit(c, now)).0;
            n.enclave == L.OneTicked(m.enclave, c, now, readings) && n.pending == m.pending
  {
    var ref := m.enclave.table[c];
    assert m.enclave.objs[ref := m.enclave.objs[ref]] == m.enclave.objs;
  }

  lemma ReachesOn(cfg: Config, actions: seq<Action>, turn: seq<Action>, rest: seq<Action>, e: Enclave, f: Enclave)
    requires Reaches(cfg, actions, turn, e) && Reaches(cfg, actions + turn, rest, f)
    ensures Reaches(cfg, actions, turn + rest, f)
  {
    assert actions + (turn + rest) == actions + turn + rest;
  }

  lemma PartTable(e: Enclave, todo: set<string>, now: real, readings: map<string, Reading>)
    ensures L.PartTicked(e, todo, now, readings).table == e.table
  {
  }

  /** What a tick has made of the enclave when it has still to reach the entries in a set. */
  ghost predicate Parts(
    cfg: Config, e: Enclave, now: real, readings: map<string, Reading>, part: set<string> -> Enclave)
  {
    Inv(cfg, e) && forall todo {:trigger PartIs(e, todo, now, readings, part)} :: PartIs(e, todo, now, readings, part)
  }

  ghost predicate PartIs(
    e: Enclave, todo: set<string>, now: real, readings: map<string, Reading>, part: set<string> -> Enclave)
  {
    part(todo) == L.PartTicked(e, todo, now, readings)
  }

  lemma TurnOfTick(cfg: Config, actions: seq<Action>, e: Enclave, todo: set<string>, c: string, now: real,
                   readings: map<string, Reading>, part: set<string> -> Enclave)
      returns (turn: seq<Action>)
    requires Parts(cfg, e, now, readings, part) && c in todo && c in e.table
    requires Run(cfg, actions).0.enclave == part(todo)
    ensures HalvesOf(turn, now) && Reaches(cfg, actions, turn, part(todo - {c}))
  {
    assert PartIs(e, todo, now, readings, part) && PartIs(e, todo - {c}, now, readings, part);
    PartTable(e, todo, now, readings);
    turn := OneTurn(cfg, actions, c, now, readings);
    L.PartStep(cfg, e, todo, c, now, readings);
  }

  lemma {:induction false} RestOfTick(
      cfg: Config, actions: seq<Action>, e: Enclave, todo: set<string>, now: real, readings: map<string, Reading>,
      part: set<string> -> Enclave)
      returns (more: seq<Action>)
    requires Parts(cfg, e, now, readings, part) && todo <= e.table.Keys
    requires Run(cfg, actions).0.enclave == part(todo)
    ensures HalvesOf(more, now) && Reaches(cfg, actions, more, part({}))
    decreases |todo|
  {
    if todo == {} {
      more := [];
      assert actions + more == actions;
    } else {
      var c :| c in todo;
      var turn := TurnOfTick(cfg, actions, e, todo, c, now, readings, part);
      var rest := RestOfTick(cfg, actions + turn, e, todo - {c}, now, readings, part);
      ReachesOn(cfg, actions, turn, rest, part(todo - {c}), part({}));
      more := turn + rest;
    }
  }

  /** Whatever is in flight, the halves of one tick can follow one another with nothing between them. */
  lemma TickIsRun(cfg: Config, actions: seq<Action>, now: real, readings: map<string, Reading>)
      returns (more: seq<Action>)
    ensures HalvesOf(more, now)
    ensures Reaches(cfg, actions, more, Tick(Run(cfg, actions).0.enclave, now, readings))
  {
    RunGood(cfg, actions);
    var e := Run(cfg, actions).0.enclave;
    L.PartStart(e, now, readings);
    L.PartEnd(e, now, readings);
    var part := t => L.PartTicked(e, t, now, readings);
    assert PartIs(e, {}, now, readings, part) && PartIs(e, e.table.Keys, now, readings, part);
    more := RestOfTick(cfg, actions, e, e.table.Keys, now, readings, part);
  }

  /** So every state reached with whole ticks is a state of the split machine, with no check in flight. */
  lemma {:induction false} AtomicIsSplit(cfg: Config, actions: seq<AtomicAction>) returns (split: seq<Action>)
    ensures Run(cfg, split).0.enclave == AtomicRun(cfg, actions) && Run(cfg, split).0.pending == []
  {
    split := [];
    if actions != [] {
      var before := AtomicIsSplit(cfg, actions[..|actions| - 1]);
      var last := actions[|actions| - 1];
      match last
      case WholeTick(now, readings) =>
        var more := TickIsRun(cfg, before, now, readings);
        split := before + more;
      case Command(a) =>
        if a.DoVisit? || a.DoSettle? {
          split := before;
        } else {
          S.RunSnoc(cfg, before, a);
          split := before + [a];
        }
    }
  }

  // ------------------------------------------------------ what a tick found due

  /** The n-th action is a tick that found an intent waiting, within its deadline, and its condition met. */
  ghost predicate DueAt(cfg: Config, actions: seq<AtomicAction>, n: nat, ref: nat) {
    && n < |actions| && actions[n].WholeTick?
    && var e := AtomicRun(cfg, actions[..n]);
       && ref < |e.objs| && e.objs[ref].state == Armed
       && actions[n].now < e.objs[ref].deadline
       && Met(e.objs[ref].trigger, actions[n].now, ReadingFor(e.objs[ref].commitment, actions[n].readings))
  }

  /** What an action makes of an object that was there before. */
  lemma StepOfObject(cfg: Config, e: Enclave, a: AtomicAction, ref: nat)
    requires Inv(cfg, e) && ref < |e.objs|
    ensures var f := AtomicStep(cfg, e, a);
            && ref < |f.objs|
            && var i, j := e.objs[ref], f.objs[ref];
               && j.commitment == i.commitment && j.trigger == i.trigger && j.deadline == i.deadline
               && (a.WholeTick? ==> After(i, j, a.now, ReadingFor(i.commitment, a.readings)))
               && (a.Command? && i.state != Armed ==> j == i || (j == i.(state := Collected) && i.state == Fired))
               && (a.Command? && i.state == Armed ==> j == i || j.state == Cancelled)
  {
    if a.WholeTick? {
      TickExactly(cfg, e, a.now, a.readings);
    }
  }

  lemma ObjectIsNew(cfg: Config, e: Enclave, a: AtomicAction, ref: nat)
    requires Inv(cfg, e) && |e.objs| <= ref < |AtomicStep(cfg, e, a).objs|
    ensures AtomicStep(cfg, e, a).objs[ref].state == Armed
  {
  }

  /** Whatever has been fired, a tick found due, at the time it is recorded to have fired at; and it is whole. */
  lemma {:induction false} FiredWasDue(cfg: Config, actions: seq<AtomicAction>, ref: nat) returns (n: nat)
    requires ref < |AtomicRun(cfg, actions).objs|
    requires Spent(AtomicRun(cfg, actions).objs[ref].state)
    ensures DueAt(cfg, actions, n, ref)
    ensures var i := AtomicRun(cfg, actions).objs[ref];
            && i.firedAt == Some(actions[n].now) && actions[n].now < i.deadline
            && Met(i.trigger, actions[n].now, ReadingFor(i.commitment, actions[n].readings))
            && i.userOpData != "0x" && cfg.keccak(i.userOpData) == i.commitment
    decreases |actions|
  {
    var before, last := actions[..|actions| - 1], actions[|actions| - 1];
    var e := AtomicRun(cfg, before);
    AtomicBalanced(cfg, before);
    if ref >= |e.objs| {
      ObjectIsNew(cfg, e, last, ref);
    }
    StepOfObject(cfg, e, last, ref);
    if Spent(e.objs[ref].state) {
      n := FiredWasDue(cfg, before, ref);
      assert before[..n] == actions[..n];
    } else {
      n := |before|;
      assert IntentOk(cfg, e.objs[ref]);
    }
  }

  lemma {:induction false} DueIsFired(cfg: Config, actions: seq<AtomicAction>, n: nat, ref: nat)
    requires DueAt(cfg, actions, n, ref)
    ensures ref < |AtomicRun(cfg, actions).objs| && Spent(AtomicRun(cfg, actions).objs[ref].state)
    decreases |actions|
  {
    var before, last := actions[..|actions| - 1], actions[|actions| - 1];
    AtomicBalanced(cfg, before);
    if n < |before| {
      assert before[..n] == actions[..n];
      DueIsFired(cfg, before, n, ref);
    }
    StepOfObject(cfg, AtomicRun(cfg, before), last, ref);
  }

  /**
   * With whole ticks COLLECT releases the bytes under c exactly when some tick
   * found the intent there due; and the bytes hash to c.
   */
  lemma ReleasedExactlyWhenDue(cfg: Config, actions: seq<AtomicAction>, req: Json, c: string)
    requires Names(req, c)
    ensures var e := AtomicRun(cfg, actions);
            var r := Collect(e, req).1;
            && (r.Released? <==> c in e.table && exists n: nat :: DueAt(cfg, actions, n, e.table[c]))
            && (r.Released? ==>
                  && c in e.table && cfg.keccak(r.userOpData) == c && r.userOpData != "0x"
                  && exists n: nat :: DueAt(cfg, actions, n, e.table[c]) && r.firedAt == Some(actions[n].now))
  {
    var e := AtomicRun(cfg, actions);
    AtomicBalanced(cfg, actions);
    CollectExactly(e, req, c);
    if c in e.table {
      var ref := e.table[c];
      if Spent(e.objs[ref].state) {
        var n := FiredWasDue(cfg, actions, ref);
        assert DueAt(cfg, actions, n, ref);
      }
      forall n | DueAt(cfg, actions, n, ref) ensures Spent(e.objs[ref].state) {
        DueIsFired(cfg, actions, n, ref);
      }
    }
  }
}
