/**
 * How often an operation is released. COLLECT does not release once: it goes on
 * answering with the same bytes until an ARM replaces the entry.
 */
module LatchCollects {
  import opened Results
  import opened Json
  import opened LatchModel
  import opened LatchRuns
  import opened LatchSample

  lemma StepSpent(cfg: Config, m: Machine, a: Action, ref: nat)
    requires Formed(m) && ref < |m.enclave.objs| && Spent(m.enclave.objs[ref].state)
    ensures var e, f := m.enclave, Step(cfg, m, a).0.enclave;
            ref < |f.objs| && Spent(f.objs[ref].state) && f.objs[ref].userOpData == e.objs[ref].userOpData
  {
  }

  /** Fired or collected once, fired or collected for ever, and with the same bytes. */
  lemma {:induction false} SpentForever(cfg: Config, actions: seq<Action>, more: seq<Action>, ref: nat)
    requires ref < |Run(cfg, actions).0.enclave.objs| && Spent(Run(cfg, actions).0.enclave.objs[ref].state)
    ensures var e, f := Run(cfg, actions).0.enclave, Run(cfg, actions + more).0.enclave;
            ref < |f.objs| && Spent(f.objs[ref].state) && f.objs[ref].userOpData == e.objs[ref].userOpData
    decreases |more|
  {
    if more == [] {
      assert actions + more == actions;
    } else {
      var shorter := more[..|more| - 1];
      SpentForever(cfg, actions, shorter, ref);
      assert (actions + more)[..|actions + more| - 1] == actions + shorter;
      StepSpent(cfg, Run(cfg, actions + shorter).0, more[|more| - 1], ref);
    }
  }

  // -------------------------------------------------------- which object an entry is

  /** After these actions, this one is an ARM that answers it has armed c anew. */
  ghost predicate Rearms(cfg: Config, actions: seq<Action>, a: Action, c: string) {
    a.DoArm? && Step(cfg, Run(cfg, actions).0, a).1 == Some(ArmedReply(c, false))
  }

  ghost predicate Rearmed(cfg: Config, actions: seq<Action>, more: seq<Action>, c: string) {
    exists k :: 0 <= k < |more| && Rearms(cfg, actions + more[..k], more[k], c)
  }

  lemma StepEntry(cfg: Config, m: Machine, a: Action, c: string)
    requires Formed(m) && c in m.enclave.table
    ensures var (n, r) := Step(cfg, m, a);
            && c in n.enclave.table && |m.enclave.objs| <= |n.enclave.objs|
            && n.enclave.table[c] ==
               if a.DoArm? && r == Some(ArmedReply(c, false)) then |m.enclave.objs| else m.enclave.table[c]
  {
  }

  /** The entry for c names the object it named, or a younger one if it has moved. */
  predicate EntryFrom(e: Enclave, f: Enclave, c: string, moved: bool) {
    && c in e.table && c in f.table && TableOk(e) && TableOk(f) && |e.objs| <= |f.objs|
    && (if moved then e.table[c] < f.table[c] else f.table[c] == e.table[c])
  }

  lemma EntryStep(cfg: Config, e: Enclave, m: Machine, a: Action, c: string, moved: bool)
    requires Formed(m) && EntryFrom(e, m.enclave, c, moved)
    ensures var (n, r) := Step(cfg, m, a);
            EntryFrom(e, n.enclave, c, moved || (a.DoArm? && r == Some(ArmedReply(c, false))))
  {
    StepEntry(cfg, m, a, c);
    StepFormed(cfg, m, a);
  }

  lemma RearmedSnoc(cfg: Config, actions: seq<Action>, more: seq<Action>, c: string)
    requires more != []
    ensures var init, last := more[..|more| - 1], more[|more| - 1];
            Rearmed(cfg, actions, more, c) <==>
            Rearmed(cfg, actions, init, c) || Rearms(cfg, actions + init, last, c)
  {
    var init := more[..|more| - 1];
    assert forall k :: 0 <= k < |init| ==> init[..k] == more[..k];
    if Rearmed(cfg, actions, init, c) {
      var k :| 0 <= k < |init| && Rearms(cfg, actions + init[..k], init[k], c);
      assert Rearms(cfg, actions + more[..k], more[k], c);
    }
    if Rearmed(cfg, actions, more, c) {
      var k :| 0 <= k < |more| && Rearms(cfg, actions + more[..k], more[k], c);
      if k < |init| {
        assert Rearms(cfg, actions + init[..k], init[k], c);
      }
    }
  }

  /** An entry names the same object until an ARM is accepted for it, and never again after. */
  lemma {:induction false} EntryMoves(cfg: Config, actions: seq<Action>, more: seq<Action>, c: string)
    requires c in Run(cfg, actions).0.enclave.table
    ensures EntryFrom(Run(cfg, actions).0.enclave, Run(cfg, actions + more).0.enclave, c,
                      Rearmed(cfg, actions, more, c))
    decreases |more|
  {
    if more == [] {
      assert actions + more == actions;
    } else {
      var init, last := more[..|more| - 1], more[|more| - 1];
      EntryMoves(cfg, actions, init, c);
      RearmedSnoc(cfg, actions, more, c);
      assert actions + more == (actions + init) + [last];
      RunSnoc(cfg, actions + init, last);
      EntryStep(cfg, Run(cfg, actions).0.enclave, Run(cfg, actions + init).0, last, c, Rearmed(cfg, actions, init, c));
    }
  }

  // ------------------------------------------------------------- which have fired

  /** Some check of this object came back met. */
  ghost predicate Met(hits: seq<Hit>, ref: nat) {
    exists h :: 0 <= h < |hits| && hits[h].check.ref == ref
  }

  ghost predicate HitsSpent(m: Machine) {
    forall h :: 0 <= h < |m.hits| ==>
      m.hits[h].check.ref < |m.enclave.objs| && Spent(m.enclave.objs[m.hits[h].check.ref].state)
  }

  lemma StepHitsSpent(cfg: Config, m: Machine, a: Action)
    requires Formed(m) && HitsSpent(m)
    ensures HitsSpent(Step(cfg, m, a).0)
  {
    var n := Step(cfg, m, a).0;
    forall h | 0 <= h < |n.hits|
      ensures n.hits[h].check.ref < |n.enclave.objs| && Spent(n.enclave.objs[n.hits[h].check.ref].state)
    {
      if h < |m.hits| {
        StepSpent(cfg, m, a, m.hits[h].check.ref);
      }
    }
  }

  lemma {:induction false} RunHitsSpent(cfg: Config, actions: seq<Action>)
    ensures HitsSpent(Run(cfg, actions).0)
  {
    if actions != [] {
      RunHitsSpent(cfg, actions[..|actions| - 1]);
      StepHitsSpent(cfg, Run(cfg, actions[..|actions| - 1]).0, actions[|actions| - 1]);
    }
  }

  /** An object is fired or collected if and only if some check of it came back met. */
  lemma SpentExactlyWhen(cfg: Config, actions: seq<Action>, ref: nat)
    requires ref < |Run(cfg, actions).0.enclave.objs|
    ensures var m := Run(cfg, actions).0;
            Spent(m.enclave.objs[ref].state) <==> Met(m.hits, ref)
  {
    RunGood(cfg, actions);
    RunHitsSpent(cfg, actions);
    var m := Run(cfg, actions).0;
    if Spent(m.enclave.objs[ref].state) {
      assert IntentOk(cfg, m.enclave.objs[ref]);
      assert WasHit(m.hits, ref, m.enclave.objs[ref].firedAt.value);
    }
  }

  // ----------------------------------------------------------------- main results

  /**
   * Releasing again, exactly. Once COLLECT(c) has released, a later COLLECT(c)
   * releases if and only if a check of the intent its entry now names has come back
   * met. As long as no ARM of c has been accepted since, that is the same intent, and
   * it releases the very same bytes, however many COLLECTs there were in between.
   */
  lemma CollectsAgain(cfg: Config, actions: seq<Action>, more: seq<Action>, req: Json)
    requires Collect(Run(cfg, actions).0.enclave, req).1.Released?
    ensures var c := Get(req, "commitment").text;
            var first := Collect(Run(cfg, actions).0.enclave, req).1;
            var m := Run(cfg, actions + more).0;
            var again := Collect(m.enclave, req).1;
            && c in m.enclave.table
            && (again.Released? <==> Met(m.hits, m.enclave.table[c]))
            && (!Rearmed(cfg, actions, more, c) ==> again.Released? && again.userOpData == first.userOpData)
  {
    var c := Get(req, "commitment").text;
    var ref := Run(cfg, actions).0.enclave.table[c];
    EntryMoves(cfg, actions, more, c);
    SpentForever(cfg, actions, more, ref);
    var m := Run(cfg, actions + more).0;
    SpentExactlyWhen(cfg, actions + more, m.enclave.table[c]);
    CollectReleases(m.enclave, req);
  }

  lemma CollectReleases(e: Enclave, req: Json)
    requires TableOk(e) && Lookup(e, req).Ok?
    ensures Collect(e, req).1.Released? <==> Spent(e.objs[Lookup(e, req).value].state)
    ensures Collect(e, req).1.Released? ==> Collect(e, req).1.userOpData == e.objs[Lookup(e, req).value].userOpData
  {
  }

  /** Arm, fire, and collect twice. */
  function TwiceActions(cfg: Config): seq<Action> {
    [DoArm(ArmRequest(), 2.0)] + [DoVisit(cfg.keccak(OPERATION), 3.0)] + [DoSettle(0, None)]
      + [DoCollect(CollectRequest(cfg))] + [DoCollect(CollectRequest(cfg))]
  }

  lemma TwiceFires(cfg: Config)
    requires cfg.maxDeadline >= 98.0
    ensures var i := Intent(cfg, Fired, Some(3.0));
            Run(cfg, TwiceActions(cfg)[..3]) ==
            (Only(cfg, i, 1, [], [Hit(Check(0, 3.0), None)], 0), [ArmedReply(cfg.keccak(OPERATION), false)])
  {
    var suspended := [DoArm(ArmRequest(), 2.0)] + [DoVisit(cfg.keccak(OPERATION), 3.0)];
    Suspends(cfg);
    RunSnoc(cfg, suspended, DoSettle(0, None));
    Fires(cfg, Intent(cfg, Armed, None), 0, [Check(0, 3.0)], [], 0);
    assert TwiceActions(cfg)[..3] == suspended + [DoSettle(0, None)];
    assert [Check(0, 3.0)][1..] == [] && [] + [Hit(Check(0, 3.0), None)] == [Hit(Check(0, 3.0), None)];
  }

  /** The bytes are not released exactly once: one intent, armed once and fired once, is collected twice. */
  lemma CollectedTwice(cfg: Config)
    requires cfg.maxDeadline >= 98.0
    ensures Run(cfg, TwiceActions(cfg)).1 ==
            [ArmedReply(cfg.keccak(OPERATION), false), Released(OPERATION, Some(3.0)), Released(OPERATION, Some(3.0))]
    ensures Run(cfg, TwiceActions(cfg)).0.enclave.armedTotal == Run(cfg, TwiceActions(cfg)).0.enclave.firedTotal == 1
  {
    var actions, collect := TwiceActions(cfg), DoCollect(CollectRequest(cfg));
    var i, hits := Intent(cfg, Fired, Some(3.0)), [Hit(Check(0, 3.0), None)];
    TwiceFires(cfg);
    assert actions[..4] == actions[..3] + [collect] && actions == actions[..4] + [collect];
    RunSnoc(cfg, actions[..3], collect);
    Collects(cfg, i, hits);
    RunSnoc(cfg, actions[..4], collect);
    Collects(cfg, i.(state := Collected), hits);
  }
}
