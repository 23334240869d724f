/**
 * One short history, for the results that need an input: an operation armed at
 * time 2 on a trigger met from time 1, with deadline 100.
 */
module LatchSample {
  import opened Results
  import opened Json
  import opened Hex
  import opened Triggers
  import opened LatchModel
  import opened LatchRuns

  const OPERATION := "0xab"

  function TimeTrigger(): (j: Json)
    ensures ParseTrigger(j) == Ok(Time(1.0))
  {
    TriggerJson(Time(1.0))
  }

  function ArmRequest(): Json {
    Obj(map["userOpData" := Str(OPERATION), "trigger" := TimeTrigger(), "deadline" := Num(100.0)])
  }

  function CollectRequest(cfg: Config): Json {
    Obj(map["commitment" := Str(cfg.keccak(OPERATION))])
  }

  function Intent(cfg: Config, state: IntentState, firedAt: Option<real>): IntentRecord {
    IntentRecord(cfg.keccak(OPERATION), OPERATION, Time(1.0), 100.0, state, 2.0, firedAt)
  }

  /** The machine that has armed this one intent and nothing else. */
  function Only(cfg: Config, i: IntentRecord, fired: nat, pending: seq<Check>, hits: seq<Hit>, repeats: nat): Machine {
    Machine(Enclave([i], map[cfg.keccak(OPERATION) := 0], 1, fired), pending, hits, {}, repeats)
  }

  lemma RunSnoc(cfg: Config, actions: seq<Action>, a: Action)
    ensures var (n, r) := Step(cfg, Run(cfg, actions).0, a);
            Run(cfg, actions + [a]) == (n, if r.Some? then Run(cfg, actions).1 + [r.value] else Run(cfg, actions).1)
  {
    assert (actions + [a])[..|actions|] == actions;
  }

  lemma Arms(cfg: Config)
    requires cfg.maxDeadline >= 98.0
    ensures Run(cfg, [DoArm(ArmRequest(), 2.0)]) ==
            (Only(cfg, Intent(cfg, Armed, None), 0, [], [], 0), [ArmedReply(cfg.keccak(OPERATION), false)])
  {
    var req := ArmRequest();
    assert IsHex(OPERATION) && Get(req, "commitment") == Absent;
    assert [] + [DoArm(req, 2.0)] == [DoArm(req, 2.0)];
    RunSnoc(cfg, [], DoArm(req, 2.0));
    var i := Intent(cfg, Armed, None);
    assert NewIntent(cfg, req, 2.0) == i;
    assert ArmRefusal(cfg, req, 2.0).None?;
    assert EMPTY.objs + [i] == [i] && EMPTY.table[i.commitment := 0] == map[i.commitment := 0];
    assert Run(cfg, []).1 + [ArmedReply(i.commitment, false)] == [ArmedReply(i.commitment, false)];
  }

  /** A tick within the deadline asks for a reading, as long as the intent is armed. */
  lemma Asks(cfg: Config, pending: seq<Check>, now: real)
    requires now < 100.0 && forall k :: 0 <= k < |pending| ==> pending[k].ref == 0
    ensures var m := Only(cfg, Intent(cfg, Armed, None), 0, pending, [], 0);
            Formed(m) && Step(cfg, m, DoVisit(cfg.keccak(OPERATION), now)) ==
            (Only(cfg, Intent(cfg, Armed, None), 0, pending + [Check(0, now)], [], 0), None)
  {
  }

  /** Armed, and a tick at 3 suspended on it. */
  lemma Suspends(cfg: Config)
    requires cfg.maxDeadline >= 98.0
    ensures Run(cfg, [DoArm(ArmRequest(), 2.0)] + [DoVisit(cfg.keccak(OPERATION), 3.0)]) ==
            (Only(cfg, Intent(cfg, Armed, None), 0, [Check(0, 3.0)], [], 0), [ArmedReply(cfg.keccak(OPERATION), false)])
  {
    Arms(cfg);
    RunSnoc(cfg, [DoArm(ArmRequest(), 2.0)], DoVisit(cfg.keccak(OPERATION), 3.0));
    Asks(cfg, [], 3.0);
    assert [] + [Check(0, 3.0)] == [Check(0, 3.0)];
  }

  /** The first check in flight fires the intent, whatever its state. */
  lemma Fires(cfg: Config, i: IntentRecord, fired: nat, pending: seq<Check>, hits: seq<Hit>, repeats: nat)
    requires i.trigger == Time(1.0) && pending != [] && pending[0].now >= 1.0
    requires forall k :: 0 <= k < |pending| ==> pending[k].ref == 0
    ensures var m := Only(cfg, i, fired, pending, hits, repeats);
            Formed(m) && Step(cfg, m, DoSettle(0, None)) ==
            (Only(cfg, i.(state := Fired, firedAt := Some(pending[0].now)), fired + 1, pending[1..],
                  hits + [Hit(pending[0], None)], if Spent(i.state) then repeats + 1 else repeats), None)
  {
    assert pending[..0] + pending[1..] == pending[1..];
    assert [i][0 := i.(state := Fired, firedAt := Some(pending[0].now))]
        == [i.(state := Fired, firedAt := Some(pending[0].now))];
  }

  lemma Collects(cfg: Config, i: IntentRecord, hits: seq<Hit>)
    requires WellFormed(i.trigger) && Spent(i.state)
    ensures var m := Only(cfg, i, 1, [], hits, 0);
            Formed(m) && Step(cfg, m, DoCollect(CollectRequest(cfg))) ==
            (Only(cfg, i.(state := Collected), 1, [], hits, 0), Some(Released(i.userOpData, i.firedAt)))
  {
    assert [i][0 := i.(state := Collected)] == [i.(state := Collected)];
  }
}
