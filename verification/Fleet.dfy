/**
 * Any number of executors, each with its own store and state directory, racing
 * on one chain with each other and with relayers of any other kind.
 */
module Fleet {
  import opened Results
  import opened Jobs
  import opened Executor
  import JobRuns

  /** The executors, and the payments the chain has consumed. */
  datatype Fleet = Fleet(execs: seq<State>, used: set<string>)

  datatype FleetAction =
    | By(i: nat, a: Action)
    | Consume(txId: string)   // the chain executes a payment, for whoever relayed it

  function FleetNext(env: Env, f: Fleet, a: FleetAction): Fleet
    requires forall i :: 0 <= i < |f.execs| ==> TasksRefer(f.execs[i])
  {
    match a
    case By(i, act) => if i < |f.execs| then f.(execs := f.execs[i := Next(env, f.execs[i], act)]) else f
    case Consume(txId) => f.(used := f.used + {txId})
  }

  predicate AllTruthful(env: Env, actions: seq<FleetAction>) {
    forall k :: 0 <= k < |actions| && actions[k].By? ==> Truthful(env, actions[k].a)
  }

  function FleetRun(env: Env, n: nat, actions: seq<FleetAction>): (f: Fleet)
    ensures |f.execs| == n && forall i :: 0 <= i < n ==> TasksRefer(f.execs[i])
  {
    if actions == [] then Fleet(seq(n, _ => FRESH), {})
    else
      var f := FleetRun(env, n, actions[..|actions| - 1]);
      var a := actions[|actions| - 1];
      FleetRefers(env, f, a);
      FleetNext(env, f, a)
  }

  lemma FleetRefers(env: Env, f: Fleet, a: FleetAction)
    requires forall i :: 0 <= i < |f.execs| ==> TasksRefer(f.execs[i])
    ensures var g := FleetNext(env, f, a);
            |g.execs| == |f.execs| && forall i :: 0 <= i < |g.execs| ==> TasksRefer(g.execs[i])
  {
    if a.By? && a.i < |f.execs| {
      NextRefers(env, f.execs[a.i], a.a);
    }
  }

  /** Every executor of the fleet keeps its invariant, in every run. */
  lemma {:induction false} FleetKeeps(env: Env, n: nat, actions: seq<FleetAction>)
    requires Store.LowerHash(env.keccak) && AllTruthful(env, actions)
    ensures forall i :: 0 <= i < n ==> Inv(env, FleetRun(env, n, actions).execs[i])
  {
    if actions != [] {
      var before, a := actions[..|actions| - 1], actions[|actions| - 1];
      FleetKeeps(env, n, before);
      if a.By? && a.i < n {
        NextKeeps(env, FleetRun(env, n, before).execs[a.i], a.a);
      }
    }
  }

  /**
   * End-to-end integrity, in every run of any number of executors. Whatever bytes
   * an executor passes to executeDirectMintingWithData for an XRPL transaction
   * hash to the commitment in that transaction's first decodable 0xFE memo, and
   * the proof passed with them was asked for with a request the verifier had
   * returned, before, for that same transaction.
   */
  lemma EndToEnd(env: Env, n: nat, actions: seq<FleetAction>, i: nat, k: nat)
    requires Store.LowerHash(env.keccak) && AllTruthful(env, actions) && i < n
    requires var trace := FleetRun(env, n, actions).execs[i].trace; k < |trace| && trace[k].Execute?
    ensures var trace := FleetRun(env, n, actions).execs[i].trace;
            var c := trace[k];
            && Watch.Commitment(env.ledger(c.txId)) == Some(env.keccak(c.userOpData))
            && c.proof.request.Some?
            && GotRequest(c.txId, c.proof.request.value) in trace[..k]
  {
    FleetKeeps(env, n, actions);
    var trace := FleetRun(env, n, actions).execs[i].trace;
    assert CallOk(env, trace[..k], trace[k]);
  }

  /**
   * Field safety under overlap. However steps on the same job objects interleave,
   * resets of failed jobs included, no call is made with a request or a round that
   * is missing; and every job, in memory or on disk, has the fields its state needs.
   */
  lemma FieldsPresent(env: Env, n: nat, actions: seq<FleetAction>, i: nat)
    requires Store.LowerHash(env.keccak) && AllTruthful(env, actions) && i < n
    ensures var s := FleetRun(env, n, actions).execs[i];
            && (forall k :: 0 <= k < |s.trace| ==>
                  (s.trace[k].Submit? ==> s.trace[k].wanted.Some?) &&
                  (s.trace[k].AskFinalized? ==> s.trace[k].round.Some?) &&
                  (s.trace[k].AskProof? ==> s.trace[k].about.Some? && s.trace[k].inRound.Some?))
            && (forall k :: 0 <= k < |s.jobs| ==> Complete(s.jobs[k]))
            && (forall id :: id in s.disk ==> Complete(s.disk[id]))
  {
    FleetKeeps(env, n, actions);
    var s := FleetRun(env, n, actions).execs[i];
    forall k | 0 <= k < |s.trace|
      ensures s.trace[k].Submit? ==> s.trace[k].wanted.Some?
      ensures s.trace[k].AskFinalized? ==> s.trace[k].round.Some?
      ensures s.trace[k].AskProof? ==> s.trace[k].about.Some? && s.trace[k].inRound.Some?
    {
      assert CallOk(env, s.trace[..k], s.trace[k]);
    }
    forall k | 0 <= k < |s.jobs| ensures Complete(s.jobs[k]) {
      assert JobOk(env, s.trace, s.jobs[k]);
    }
    forall id | id in s.disk ensures Complete(s.disk[id]) {
      assert JobOk(env, s.trace, s.disk[id]);
    }
  }

  /** From request_prepared on there is a request, and from request_submitted on a round. */
  predicate Complete(j: Job) {
    && (j.state != Observed && j.state != Failed ==> j.request.Some?)
    && (JobRuns.Stage(j.state) >= 2 && j.state != Failed ==> j.roundId.Some?)
  }

  // ------------------------------------------------------------- the relayer race

  /**
   * What the verifier and the chain can be relied on for: a request is for the
   * transaction it was prepared for; a mint that succeeds without delay, and a
   * positive answer to isTransactionIdUsed, mean that the payment is consumed.
   */
  predicate Honest(env: Env, used: set<string>, s: State, a: Action) {
    a.Resume? && a.k < |s.tasks| && s.tasks[a.k].Stepping? && s.tasks[a.k].ref < |s.jobs| ==>
      var j, pc, w := s.jobs[s.tasks[a.k].ref], s.tasks[a.k].pc, a.w;
      && (pc.Preparing? && w.prepared.Ok? ==> env.requestTx(w.prepared.value) == j.xrplTxId)
      && (pc.Mining? && MinesNow(w) && pc.proof.request.Some? ==> env.requestTx(pc.proof.request.value) in used)
      && (pc.Confirming? && w.used == Ok(true) ==> j.xrplTxId in used)
  }

  /** The receipt says the mint went through, without delay. */
  predicate MinesNow(w: World) {
    w.receipt.Ok? && !w.receipt.value.reverted && FirstDelay(w.receipt.value.logs).None?
  }

  predicate AllHonest(env: Env, n: nat, actions: seq<FleetAction>) {
    forall k :: 0 <= k < |actions| && actions[k].By? && actions[k].i < n ==>
      var f := FleetRun(env, n, actions[..k]);
      Honest(env, f.used, f.execs[actions[k].i], actions[k].a)
  }

  predicate Spent(used: set<string>, j: Job) {
    j.state == Executed ==> j.xrplTxId in used
  }

  ghost predicate RaceOk(env: Env, used: set<string>, s: State) {
    && (forall t, r {:trigger GotRequest(t, r)} :: GotRequest(t, r) in s.trace ==> env.requestTx(r) == t)
    && (forall k :: 0 <= k < |s.jobs| ==> Spent(used, s.jobs[k]))
    && (forall id :: id in s.disk ==> Spent(used, s.disk[id]))
    && (forall k :: 0 <= k < |s.tasks| && s.tasks[k].Stepping? && s.tasks[k].pc.Writing? ==>
          Spent(used, s.tasks[k].pc.snapshot))
  }

  lemma AdvanceSpends(env: Env, used: set<string>, s: State, k: nat, w: World)
    requires Inv(env, s) && RaceOk(env, used, s) && Honest(env, used, s, Resume(k, w))
    requires k < |s.tasks| && s.tasks[k].Stepping? && s.tasks[k].ref < |s.jobs|
    ensures var m := Advance(s.jobs[s.tasks[k].ref], s.tasks[k].pc, w);
            && Spent(used, m.job)
            && (m.pc.Writing? ==> Spent(used, m.pc.snapshot))
            && forall t, r {:trigger GotRequest(t, r)} :: GotRequest(t, r) in m.calls ==> env.requestTx(r) == t
  {
    assert TaskOk(env, s, s.tasks[k]);
    var j, pc := s.jobs[s.tasks[k].ref], s.tasks[k].pc;
    assert Spent(used, j);
    if pc.Mining? {
      assert GotRequest(j.xrplTxId, pc.proof.request.value) in s.trace;
    }
    MoveSpends(used, j, pc, w);
  }

  /** A move makes a job executed only from a mint that went through or a confirmed race. */
  lemma MoveSpends(used: set<string>, j: Job, pc: Pc, w: World)
    requires Spent(used, j) && (pc.Writing? ==> Spent(used, pc.snapshot))
    requires pc.Mining? && MinesNow(w) ==> j.xrplTxId in used
    requires pc.Confirming? && w.used == Ok(true) ==> j.xrplTxId in used
    ensures var m := Advance(j, pc, w);
            Spent(used, m.job) && (m.pc.Writing? ==> Spent(used, m.pc.snapshot))
  {
  }

  lemma RaceStepping(env: Env, used: set<string>, s: State, k: nat, w: World)
    requires Inv(env, s) && RaceOk(env, used, s) && Honest(env, used, s, Resume(k, w))
    requires k < |s.tasks| && s.tasks[k].Stepping? && s.tasks[k].ref < |s.jobs|
    ensures RaceOk(env, used, ResumeTask(env, s, k, w))
  {
    var n := ResumeTask(env, s, k, w);
    AdvanceSpends(env, used, s, k, w);
    forall t, r {:trigger GotRequest(t, r)} | GotRequest(t, r) in n.trace ensures env.requestTx(r) == t {
      var calls := Advance(s.jobs[s.tasks[k].ref], s.tasks[k].pc, w).calls;
      assert GotRequest(t, r) in s.trace || GotRequest(t, r) in calls;
    }
  }

  /** Everything but a step leaves the trace alone, and makes jobs only from the disk or not executed. */
  lemma RaceElsewhere(env: Env, used: set<string>, s: State, n: State)
    requires RaceOk(env, used, s) && n.trace == s.trace && n.disk == s.disk && |s.jobs| <= |n.jobs|
    requires forall k :: 0 <= k < |s.jobs| ==> n.jobs[k] == s.jobs[k]
    requires forall k :: |s.jobs| <= k < |n.jobs| ==>
      n.jobs[k].state == Observed || (exists id :: id in s.disk && s.disk[id] == n.jobs[k])
    requires forall k :: 0 <= k < |n.tasks| && n.tasks[k].Stepping? && n.tasks[k].pc.Writing? ==>
      k < |s.tasks| && n.tasks[k] == s.tasks[k]
    ensures RaceOk(env, used, n)
  {
  }

  lemma RaceLookup(env: Env, used: set<string>, s: State, k: nat, w: World)
    requires RaceOk(env, used, s) && k < |s.tasks| && !s.tasks[k].Stepping?
    ensures RaceOk(env, used, ResumeTask(env, s, k, w))
  {
    var n := ResumeTask(env, s, k, w);
    assert n.tasks == s.tasks[k := n.tasks[k]];
    RaceElsewhere(env, used, s, n);
  }

  lemma RaceStep(env: Env, used: set<string>, s: State, a: Action)
    requires TasksRefer(s) && Inv(env, s) && RaceOk(env, used, s) && Honest(env, used, s, a)
    ensures RaceOk(env, used, Next(env, s, a))
  {
    match a
    case Resume(k, w) =>
      if k < |s.tasks| {
        if s.tasks[k].Stepping? {
          RaceStepping(env, used, s, k, w);
        } else {
          RaceLookup(env, used, s, k, w);
        }
      }
    case Reopen(id, now) =>
      RaceReopen(env, used, s, id, now);
    case Crash(killed) =>
      RaceElsewhere(env, used, s, Next(env, s, a));
    case _ =>
      RaceElsewhere(env, used, s, Next(env, s, a));
  }

  lemma RaceReopen(env: Env, used: set<string>, s: State, id: string, now: int)
    requires TasksRefer(s) && RaceOk(env, used, s)
    ensures RaceOk(env, used, Next(env, s, Reopen(id, now)))
  {
    if id in s.disk {
      RaceElsewhere(env, used, s, Next(env, s, Reopen(id, now)));
    }
  }

  lemma SpentStays(env: Env, used: set<string>, more: set<string>, s: State)
    requires RaceOk(env, used, s) && used <= more
    ensures RaceOk(env, more, s)
  {
  }

  ghost predicate AllRaceOk(env: Env, f: Fleet) {
    forall i :: 0 <= i < |f.execs| ==> RaceOk(env, f.used, f.execs[i])
  }

  lemma RaceFleet(env: Env, f: Fleet, a: FleetAction)
    requires forall i :: 0 <= i < |f.execs| ==> TasksRefer(f.execs[i]) && Inv(env, f.execs[i])
    requires AllRaceOk(env, f)
    requires a.By? && a.i < |f.execs| ==> Honest(env, f.used, f.execs[a.i], a.a)
    ensures AllRaceOk(env, FleetNext(env, f, a))
  {
    var g := FleetNext(env, f, a);
    forall i | 0 <= i < |g.execs| ensures RaceOk(env, g.used, g.execs[i]) {
      if a.By? && a.i == i {
        RaceStep(env, f.used, f.execs[i], a.a);
      } else {
        SpentStays(env, f.used, g.used, f.execs[i]);
      }
    }
  }

  lemma {:induction false} RaceRun(env: Env, n: nat, actions: seq<FleetAction>)
    requires Store.LowerHash(env.keccak) && AllTruthful(env, actions) && AllHonest(env, n, actions)
    ensures AllRaceOk(env, FleetRun(env, n, actions))
  {
    if actions != [] {
      var last := |actions| - 1;
      var before := actions[..last];
      forall k | 0 <= k < last ensures before[..k] == actions[..k] {
      }
      RaceRun(env, n, before);
      FleetKeeps(env, n, before);
      RaceFleet(env, FleetRun(env, n, before), actions[last]);
    }
  }

  /**
   * The relayer race. With any number of executors on a chain others use too, a
   * job that says executed, in memory or on disk, is for a payment the chain has
   * consumed, whoever won it.
   */
  lemma ExecutedIsSpent(env: Env, n: nat, actions: seq<FleetAction>, i: nat, j: Job)
    requires Store.LowerHash(env.keccak) && AllTruthful(env, actions) && AllHonest(env, n, actions) && i < n
    requires var s := FleetRun(env, n, actions).execs[i];
             j in s.jobs || (j.id in s.disk && s.disk[j.id] == j)
    requires j.state == Executed
    ensures j.xrplTxId in FleetRun(env, n, actions).used
  {
    RaceRun(env, n, actions);
    var f := FleetRun(env, n, actions);
    assert RaceOk(env, f.used, f.execs[i]);
  }

  /** When a step makes a job executed: a mint without delay, or a lost race the chain itself confirms. */
  lemma ExecutedExactlyWhen(j: Job, w: World)
    requires !Terminal(j.state)
    ensures Step(j, w).state == Executed <==>
            j.state == ProofFetched &&
            var a := Try(j, w);
            || (w.proof.Ok? && w.sent.Ok? && w.receipt.Ok? && !w.receipt.value.reverted
                && forall k :: 0 <= k < |w.receipt.value.logs| ==> DelayOf(w.receipt.value.logs[k]).None?)
            || (a.Throws? && IsAlreadyConfirmed(a.error) && w.used == Ok(true))
  {
    if w.receipt.Ok? {
      NoDelay(w.receipt.value.logs);
    }
  }

  lemma {:induction false} NoDelay(logs: seq<Log>)
    ensures FirstDelay(logs).None? <==> forall k :: 0 <= k < |logs| ==> DelayOf(logs[k]).None?
  {
    if logs != [] {
      NoDelay(logs[1..]);
      assert forall k :: 1 <= k < |logs| ==> logs[k] == logs[1..][k - 1];
    }
  }
}
