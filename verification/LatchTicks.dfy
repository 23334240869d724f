/**
 * When the counters can be relied on. They balance as long as no intent has two
 * checks in flight, in particular if no tick starts while another is unfinished;
 * and which checks in flight can still unbalance them is said exactly.
 */
module LatchTicks {
  import opened Results
  import opened Triggers
  import opened LatchModel
  import opened LatchRuns
  import opened LatchCounts

  // ------------------------------------------------------------- ticks one by one

  /** No object has two checks in flight. */
  predicate OneEach(m: Machine) {
    forall i, j :: 0 <= i < j < |m.pending| ==> m.pending[i].ref != m.pending[j].ref
  }

  ghost predicate NeverTwo(cfg: Config, actions: seq<Action>) {
    forall n :: 0 <= n <= |actions| ==> OneEach(Run(cfg, actions[..n]).0)
  }

  /** Nothing has been fired twice, and nothing in flight is about to do it. */
  predicate Calm(m: Machine)
    requires Formed(m)
  {
    && OneEach(m) && m.repeats == 0
    && forall k :: 0 <= k < |m.pending| ==> !Spent(m.enclave.objs[m.pending[k].ref].state)
  }

  lemma StepCalm(cfg: Config, m: Machine, a: Action)
    requires Formed(m) && Calm(m) && OneEach(Step(cfg, m, a).0)
    ensures Formed(Step(cfg, m, a).0) && Calm(Step(cfg, m, a).0)
  {
    StepFormed(cfg, m, a);
    var n := Step(cfg, m, a).0;
    if a.DoSettle? && a.k < |m.pending| {
      forall j | 0 <= j < |n.pending| ensures !Spent(n.enclave.objs[n.pending[j].ref].state) {
        var i := if j < a.k then j else j + 1;
        assert n.pending[j] == m.pending[i] && m.pending[i].ref != m.pending[a.k].ref;
      }
    }
  }

  lemma NeverTwoPrefix(cfg: Config, actions: seq<Action>)
    requires NeverTwo(cfg, actions) && actions != []
    ensures NeverTwo(cfg, actions[..|actions| - 1]) && OneEach(Run(cfg, actions).0)
  {
    var init := actions[..|actions| - 1];
    assert forall n :: 0 <= n <= |init| ==> init[..n] == actions[..n];
    assert actions[..|actions|] == actions;
  }

  lemma {:induction false} StaysCalm(cfg: Config, actions: seq<Action>)
    requires NeverTwo(cfg, actions)
    ensures Calm(Run(cfg, actions).0)
  {
    if actions != [] {
      NeverTwoPrefix(cfg, actions);
      StaysCalm(cfg, actions[..|actions| - 1]);
      StepCalm(cfg, Run(cfg, actions[..|actions| - 1]).0, actions[|actions| - 1]);
    }
  }

  /** The counters of the public endpoint account for every intent ever armed. */
  ghost predicate Balances(e: Enclave)
    requires TableOk(e)
  {
    e.armedTotal == e.firedTotal + |Entries(e, Armed)| + |InState(e, Cancelled)| + |InState(e, Expired)|
  }

  /**
   * While no object ever has two checks in flight the counters balance, and no
   * more is ever fired than was armed, with commands running between the halves
   * of any tick.
   */
  lemma BalancesUnlessTwo(cfg: Config, actions: seq<Action>)
    requires NeverTwo(cfg, actions)
    ensures var e := Run(cfg, actions).0.enclave;
            Balances(e) && e.firedTotal == |SpentObjects(e)| && e.firedTotal <= e.armedTotal
  {
    StaysCalm(cfg, actions);
    Accounting(cfg, actions);
    FiredAccount(cfg, actions);
  }

  /** So counters that do not balance show that two checks of one object were once in flight together. */
  lemma DriftNeedsTwo(cfg: Config, actions: seq<Action>)
    requires !Balances(Run(cfg, actions).0.enclave)
    ensures exists n :: 0 <= n <= |actions| && !OneEach(Run(cfg, actions[..n]).0)
  {
    if NeverTwo(cfg, actions) {
      BalancesUnlessTwo(cfg, actions);
    }
  }

  /** No check is asked for while another is in flight: a tick starts only when the last has finished. */
  ghost predicate OneTickAtATime(cfg: Config, actions: seq<Action>) {
    forall k :: 0 <= k < |actions| && actions[k].DoVisit? ==> Run(cfg, actions[..k]).0.pending == []
  }

  lemma StepOneCheck(cfg: Config, m: Machine, a: Action)
    requires Formed(m) && |m.pending| <= 1 && (a.DoVisit? ==> m.pending == [])
    ensures |Step(cfg, m, a).0.pending| <= 1
  {
  }

  lemma {:induction false} OneTickOneCheck(cfg: Config, actions: seq<Action>, n: nat)
    requires OneTickAtATime(cfg, actions) && n <= |actions|
    ensures |Run(cfg, actions[..n]).0.pending| <= 1
    decreases n
  {
    if n > 0 {
      OneTickOneCheck(cfg, actions, n - 1);
      assert actions[..n][..n - 1] == actions[..n - 1] && actions[..n][n - 1] == actions[n - 1];
      StepOneCheck(cfg, Run(cfg, actions[..n - 1]).0, actions[n - 1]);
    }
  }

  /** A guard against overlapping ticks is enough for the counters to balance. */
  lemma OneTickBalances(cfg: Config, actions: seq<Action>)
    requires OneTickAtATime(cfg, actions)
    ensures Balances(Run(cfg, actions).0.enclave)
    ensures Run(cfg, actions).0.enclave.firedTotal <= Run(cfg, actions).0.enclave.armedTotal
  {
    forall n | 0 <= n <= |actions| ensures OneEach(Run(cfg, actions[..n]).0) {
      OneTickOneCheck(cfg, actions, n);
    }
    BalancesUnlessTwo(cfg, actions);
  }

  // ------------------------------------------------------ what can still go wrong

  ghost function From(cfg: Config, m: Machine, actions: seq<Action>): (n: Machine)
    requires Formed(m)
    ensures Formed(n)
    decreases |actions|
  {
    if actions == [] then m
    else
      StepFormed(cfg, m, actions[0]);
      From(cfg, Step(cfg, m, actions[0]).0, actions[1..])
  }

  predicate OnlySettles(actions: seq<Action>) {
    forall k :: 0 <= k < |actions| ==> actions[k].DoSettle?
  }

  /** Some reading meets the trigger of the k-th check in flight. */
  predicate Meetable(m: Machine, k: nat)
    requires Formed(m) && k < |m.pending|
  {
    var t := m.enclave.objs[m.pending[k].ref].trigger;
    t.Price? || m.pending[k].now >= t.notBefore
  }

  function MeetingReading(m: Machine, k: nat): Option<Reading>
    requires Formed(m) && k < |m.pending|
  {
    var t := m.enclave.objs[m.pending[k].ref].trigger;
    if t.Price? then Some(Reading(Decimal(t.value), 0, 0)) else None
  }

  lemma MeetableExactlyWhen(m: Machine, k: nat)
    requires Formed(m) && k < |m.pending|
    ensures var t := m.enclave.objs[m.pending[k].ref].trigger;
            && (Meetable(m, k) <==> IsTriggered(t, m.pending[k].now, MeetingReading(m, k)))
            && (Meetable(m, k) <==> exists r :: IsTriggered(t, m.pending[k].now, r))
  {
    var t := m.enclave.objs[m.pending[k].ref].trigger;
    assert Meetable(m, k) ==> IsTriggered(t, m.pending[k].now, MeetingReading(m, k));
  }

  /** A check in flight that can be met is of an object already fired, or of one that another such check is of. */
  predicate Loose(m: Machine)
    requires Formed(m)
  {
    || (exists k :: 0 <= k < |m.pending| && Meetable(m, k) && Spent(m.enclave.objs[m.pending[k].ref].state))
    || (exists i, j ::
          0 <= i < j < |m.pending| && m.pending[i].ref == m.pending[j].ref && Meetable(m, i) && Meetable(m, j))
  }

  /** Settling does not change which checks can be met; it takes one away. */
  lemma SettleMeetable(cfg: Config, m: Machine, k: nat, reading: Option<Reading>, j: nat)
    requires Formed(m) && k < |m.pending| && j < |m.pending| - 1
    ensures var n := Step(cfg, m, DoSettle(k, reading)).0;
            var i := if j < k then j else j + 1;
            && Formed(n) && |n.pending| == |m.pending| - 1
            && n.pending[j] == m.pending[i] && (Meetable(n, j) <==> Meetable(m, i))
  {
    StepFormed(cfg, m, DoSettle(k, reading));
  }

  lemma SettleTight(cfg: Config, m: Machine, a: Action)
    requires Formed(m) && a.DoSettle? && !Loose(m)
    ensures var n := Step(cfg, m, a).0; Formed(n) && !Loose(n) && n.repeats == m.repeats
  {
    StepFormed(cfg, m, a);
    if a.k < |m.pending| {
      var n := Step(cfg, m, a).0;
      MeetableExactlyWhen(m, a.k);
      forall j | 0 <= j < |n.pending|
        ensures !(Meetable(n, j) && Spent(n.enclave.objs[n.pending[j].ref].state))
      {
        SettleMeetable(cfg, m, a.k, a.reading, j);
      }
      forall i, j | 0 <= i < j < |n.pending| && n.pending[i].ref == n.pending[j].ref
        ensures !(Meetable(n, i) && Meetable(n, j))
      {
        SettleMeetable(cfg, m, a.k, a.reading, i);
        SettleMeetable(cfg, m, a.k, a.reading, j);
      }
    }
  }

  lemma {:induction false} TightSettles(cfg: Config, m: Machine, settles: seq<Action>)
    requires Formed(m) && !Loose(m) && OnlySettles(settles)
    ensures From(cfg, m, settles).repeats == m.repeats
    decreases |settles|
  {
    if settles != [] {
      SettleTight(cfg, m, settles[0]);
      TightSettles(cfg, Step(cfg, m, settles[0]).0, settles[1..]);
    }
  }

  lemma SettleRepeats(cfg: Config, m: Machine, k: nat)
    requires Formed(m) && k < |m.pending| && Meetable(m, k)
    ensures var n := Step(cfg, m, DoSettle(k, MeetingReading(m, k))).0;
            var ref := m.pending[k].ref;
            && n.repeats == m.repeats + (if Spent(m.enclave.objs[ref].state) then 1 else 0)
            && ref < |n.enclave.objs| && Spent(n.enclave.objs[ref].state)
  {
    MeetableExactlyWhen(m, k);
  }

  /** Two checks of one object, both met: the second fires it again. */
  lemma TwoRepeat(cfg: Config, m: Machine, i: nat, j: nat) returns (settles: seq<Action>)
    requires Formed(m) && i < j < |m.pending| && m.pending[i].ref == m.pending[j].ref
    requires Meetable(m, i) && Meetable(m, j)
    ensures OnlySettles(settles) && From(cfg, m, settles).repeats > m.repeats
  {
    var first := DoSettle(i, MeetingReading(m, i));
    var n := Step(cfg, m, first).0;
    SettleRepeats(cfg, m, i);
    SettleMeetable(cfg, m, i, first.reading, j - 1);
    var rest := OneRepeats(cfg, n, j - 1);
    settles := [first] + rest;
    assert settles[1..] == rest;
  }

  lemma OneRepeats(cfg: Config, m: Machine, k: nat) returns (settles: seq<Action>)
    requires Formed(m) && k < |m.pending| && Meetable(m, k) && Spent(m.enclave.objs[m.pending[k].ref].state)
    ensures OnlySettles(settles) && From(cfg, m, settles).repeats > m.repeats
  {
    SettleRepeats(cfg, m, k);
    settles := [DoSettle(k, MeetingReading(m, k))];
    assert settles[1..] == [];
  }

  lemma LooseSettles(cfg: Config, m: Machine) returns (settles: seq<Action>)
    requires Formed(m) && Loose(m)
    ensures OnlySettles(settles) && From(cfg, m, settles).repeats > m.repeats
  {
    if k :| 0 <= k < |m.pending| && Meetable(m, k) && Spent(m.enclave.objs[m.pending[k].ref].state) {
      settles := OneRepeats(cfg, m, k);
    } else {
      var i, j :|
        0 <= i < j < |m.pending| && m.pending[i].ref == m.pending[j].ref && Meetable(m, i) && Meetable(m, j);
      settles := TwoRepeat(cfg, m, i, j);
    }
  }

  lemma {:induction false} RunFrom(cfg: Config, actions: seq<Action>, more: seq<Action>)
    ensures Run(cfg, actions + more).0 == From(cfg, Run(cfg, actions).0, more)
    decreases |more|
  {
    if more == [] {
      assert actions + more == actions;
    } else {
      assert actions + more == (actions + [more[0]]) + more[1..];
      assert (actions + [more[0]])[..|actions|] == actions;
      RunFrom(cfg, actions + [more[0]], more[1..]);
    }
  }

  /** The counters balance if and only if nothing was fired twice. */
  lemma BalancesExactlyWhen(cfg: Config, actions: seq<Action>)
    ensures var m := Run(cfg, actions).0; Balances(m.enclave) <==> m.repeats == 0
  {
    Accounting(cfg, actions);
  }

  /**
   * The exact condition. From a state whose counters balance, with the checks now
   * in flight, some outcome of their readings makes the counters drift if and only
   * if a check that can be met is of an object that has fired already, or two that
   * can be met are of one object.
   */
  lemma DriftsExactlyWhen(cfg: Config, actions: seq<Action>)
    requires Balances(Run(cfg, actions).0.enclave)
    ensures (exists settles :: OnlySettles(settles) && !Balances(Run(cfg, actions + settles).0.enclave)) <==>
            Loose(Run(cfg, actions).0)
  {
    var m := Run(cfg, actions).0;
    BalancesExactlyWhen(cfg, actions);
    if Loose(m) {
      var settles := LooseSettles(cfg, m);
      RunFrom(cfg, actions, settles);
      BalancesExactlyWhen(cfg, actions + settles);
    } else {
      forall settles | OnlySettles(settles) ensures Balances(Run(cfg, actions + settles).0.enclave) {
        TightSettles(cfg, m, settles);
        RunFrom(cfg, actions, settles);
        BalancesExactlyWhen(cfg, actions + settles);
      }
    }
  }
}
