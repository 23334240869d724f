/**
 * The fleet on a chain that decides. Here a transaction's outcome is not an answer
 * picked freely. Once sent, a transaction may be mined at any later moment, whether
 * or not the step that sent it still waits, has given up its receipt or has died.
 * It reverts if its payment has been consumed, or for some other reason, such as
 * an executor the payer has not pinned; and it consumes its payment otherwise,
 * unless rate limits put the mint off. Receipts and reads say what happened.
 */
module Chain {
  import opened Jobs
  import opened Executor
  import opened Fleet

  /** What mining a transaction came to. */
  datatype Verdict = Minted | Postponed | Reverted

  /** The transaction that one step of one executor has sent. */
  datatype Tx = Tx(exec: nat, task: nat)

  /** The fleet, the payment each sent transaction is for, and the verdicts of those mined. */
  datatype Net = Net(fleet: Fleet, sent: map<Tx, string>, verdicts: map<Tx, Verdict>)

  datatype ChainAction =
    | Act(i: nat, a: Action)                          // an executor does something
    | Mine(tx: Tx, delayed: bool, refused: bool)      // a transaction one of them has sent is mined
    | Relay(payment: string)                          // somebody else executes a payment

  /** A step waits for the receipt of its transaction. */
  predicate Waits(f: Fleet, tx: Tx) {
    && tx.exec < |f.execs| && tx.task < |f.execs[tx.exec].tasks|
    && var t := f.execs[tx.exec].tasks[tx.task]; t.Stepping? && t.pc.Mining?
  }

  /** The payment its request was prepared for. */
  function PaymentOf(env: Env, f: Fleet, tx: Tx): string
    requires Waits(f, tx)
  {
    var proof := f.execs[tx.exec].tasks[tx.task].pc.proof;
    if proof.request.Some? then env.requestTx(proof.request.value) else ""
  }

  predicate AllRefer(f: Fleet) {
    forall i :: 0 <= i < |f.execs| ==> TasksRefer(f.execs[i])
  }

  /** An executor acts; if that made a step wait for a receipt, it has just sent its transaction. */
  function Acted(env: Env, c: Net, i: nat, a: Action): Net
    requires AllRefer(c.fleet)
  {
    var f := FleetNext(env, c.fleet, By(i, a));
    if a.Resume? && Waits(f, Tx(i, a.k)) && !Waits(c.fleet, Tx(i, a.k))
    then Net(f, c.sent[Tx(i, a.k) := PaymentOf(env, f, Tx(i, a.k))], c.verdicts)
    else c.(fleet := f)
  }

  function Mined(c: Net, tx: Tx, delayed: bool, refused: bool): Net
    requires tx in c.sent
  {
    if refused || c.sent[tx] in c.fleet.used then c.(verdicts := c.verdicts[tx := Reverted])
    else if delayed then c.(verdicts := c.verdicts[tx := Postponed])
    else c.(fleet := c.fleet.(used := c.fleet.used + {c.sent[tx]}), verdicts := c.verdicts[tx := Minted])
  }

  function ChainNext(env: Env, c: Net, a: ChainAction): Net
    requires AllRefer(c.fleet)
  {
    match a
    case Act(i, act) => Acted(env, c, i, act)
    case Mine(tx, delayed, refused) =>
      if tx in c.sent && tx !in c.verdicts then Mined(c, tx, delayed, refused) else c
    case Relay(payment) => c.(fleet := FleetNext(env, c.fleet, Consume(payment)))
  }

  function ChainRun(env: Env, n: nat, actions: seq<ChainAction>): (c: Net)
    ensures |c.fleet.execs| == n && AllRefer(c.fleet)
  {
    if actions == [] then Net(Fleet(seq(n, _ => FRESH), {}), map[], map[])
    else
      var c := ChainRun(env, n, actions[..|actions| - 1]);
      var a := actions[|actions| - 1];
      ChainRefers(env, c, a);
      ChainNext(env, c, a)
  }

  lemma ChainRefers(env: Env, c: Net, a: ChainAction)
    requires AllRefer(c.fleet)
    ensures AllRefer(ChainNext(env, c, a).fleet) && |ChainNext(env, c, a).fleet.execs| == |c.fleet.execs|
  {
    if a.Act? {
      FleetRefers(env, c.fleet, By(a.i, a.a));
    }
  }

  /** What a step is told is what is so: by the verifier, in a receipt, and by isTransactionIdUsed. */
  predicate Told(env: Env, c: Net, a: ChainAction) {
    a.Act? && a.i < |c.fleet.execs| ==>
      var s := c.fleet.execs[a.i];
      Truthful(env, a.a) &&
      (a.a.Resume? && a.a.k < |s.tasks| && s.tasks[a.a.k].Stepping? && s.tasks[a.a.k].ref < |s.jobs| ==>
         var j, pc, w, tx := s.jobs[s.tasks[a.a.k].ref], s.tasks[a.a.k].pc, a.a.w, Tx(a.i, a.a.k);
         && (pc.Preparing? && w.prepared.Ok? ==> env.requestTx(w.prepared.value) == j.xrplTxId)
         && (pc.Mining? && w.receipt.Ok? ==>
               && tx in c.verdicts
               && (MinesNow(w) <==> c.verdicts[tx].Minted?)
               && (w.receipt.value.reverted <==> c.verdicts[tx].Reverted?))
         && (pc.Confirming? && w.used.Ok? ==> (w.used.value <==> j.xrplTxId in c.fleet.used)))
  }

  predicate AllTold(env: Env, n: nat, actions: seq<ChainAction>) {
    forall k :: 0 <= k < |actions| ==> Told(env, ChainRun(env, n, actions[..k]), actions[k])
  }

  // ------------------------------------------------------------------- invariant

  /** A step that has sent its transaction sends no other. */
  predicate Late(t: Task) {
    t.Finished? || (t.Stepping? && LatePc(t.pc))
  }

  predicate LatePc(pc: Pc) {
    pc.Mining? || pc.Confirming? || pc.Saving? || pc.Writing? || pc.Done?
  }

  lemma AdvanceLate(j: Job, pc: Pc, w: World)
    requires LatePc(pc)
    ensures LatePc(Advance(j, pc, w).pc) && !Advance(j, pc, w).pc.Mining?
  {
  }

  predicate SentOk(env: Env, f: Fleet, tx: Tx, payment: string) {
    && tx.exec < |f.execs| && tx.task < |f.execs[tx.exec].tasks| && Late(f.execs[tx.exec].tasks[tx.task])
    && (Waits(f, tx) ==> PaymentOf(env, f, tx) == payment)
  }

  /** Transactions are sent once and for one payment; whoever waits has sent; what has minted is consumed. */
  ghost predicate NetOk(env: Env, c: Net) {
    && (forall tx :: tx in c.sent ==> SentOk(env, c.fleet, tx, c.sent[tx]))
    && (forall tx :: Waits(c.fleet, tx) ==> tx in c.sent)
    && (forall tx :: tx in c.verdicts ==> tx in c.sent && (c.verdicts[tx].Minted? ==> c.sent[tx] in c.fleet.used))
  }

  /** A late task stays as it is, or ends, or no longer waits; and only a resumed task begins to wait. */
  lemma TaskAfter(env: Env, s: State, a: Action, k: nat)
    requires TasksRefer(s)
    ensures var n := Next(env, s, a);
            && (k < |s.tasks| && Late(s.tasks[k]) ==>
                  k < |n.tasks| && Late(n.tasks[k]) &&
                  (n.tasks[k] == s.tasks[k] || n.tasks[k].Finished? || !n.tasks[k].pc.Mining?))
            && (k < |n.tasks| && n.tasks[k].Stepping? && n.tasks[k].pc.Mining? ==>
                  k < |s.tasks| && (n.tasks[k] == s.tasks[k] || (a.Resume? && a.k == k)))
  {
    if a.Resume? && a.k == k && k < |s.tasks| && Late(s.tasks[k]) && s.tasks[k].Stepping? {
      AdvanceLate(s.jobs[s.tasks[k].ref], s.tasks[k].pc, a.w);
    }
  }

  lemma SentStays(env: Env, c: Net, i: nat, a: Action, tx: Tx)
    requires AllRefer(c.fleet) && tx in c.sent && SentOk(env, c.fleet, tx, c.sent[tx])
    requires Waits(c.fleet, tx) ==> tx in c.sent
    ensures var d := Acted(env, c, i, a);
            tx in d.sent && d.sent[tx] == c.sent[tx] && SentOk(env, d.fleet, tx, d.sent[tx])
  {
    if i < |c.fleet.execs| && tx.exec == i {
      TaskAfter(env, c.fleet.execs[i], a, tx.task);
    }
  }

  lemma WaitersSent(env: Env, c: Net, i: nat, a: Action, tx: Tx)
    requires AllRefer(c.fleet) && NetOk(env, c) && Waits(Acted(env, c, i, a).fleet, tx)
    ensures tx in Acted(env, c, i, a).sent
    ensures tx !in c.sent ==> SentOk(env, Acted(env, c, i, a).fleet, tx, Acted(env, c, i, a).sent[tx])
  {
    if i < |c.fleet.execs| && tx.exec == i {
      TaskAfter(env, c.fleet.execs[i], a, tx.task);
    }
  }

  lemma ActKeeps(env: Env, c: Net, i: nat, a: Action)
    requires AllRefer(c.fleet) && NetOk(env, c)
    ensures NetOk(env, Acted(env, c, i, a))
  {
    var d := Acted(env, c, i, a);
    forall tx | tx in d.sent ensures SentOk(env, d.fleet, tx, d.sent[tx]) {
      if tx in c.sent {
        SentStays(env, c, i, a, tx);
      } else {
        WaitersSent(env, c, i, a, tx);
      }
    }
    forall tx | Waits(d.fleet, tx) ensures tx in d.sent {
      WaitersSent(env, c, i, a, tx);
    }
    forall tx | tx in d.verdicts ensures tx in d.sent && (d.verdicts[tx].Minted? ==> d.sent[tx] in d.fleet.used) {
      SentStays(env, c, i, a, tx);
    }
  }

  lemma ConsumeKeeps(env: Env, c: Net, used: set<string>)
    requires NetOk(env, c) && c.fleet.used <= used
    ensures NetOk(env, c.(fleet := c.fleet.(used := used)))
  {
    var d := c.(fleet := c.fleet.(used := used));
    forall tx | tx in d.sent ensures SentOk(env, d.fleet, tx, d.sent[tx]) {
      assert SentOk(env, c.fleet, tx, c.sent[tx]);
    }
    forall tx | Waits(d.fleet, tx) ensures tx in d.sent {
      assert Waits(c.fleet, tx);
    }
  }

  ghost predicate ChainOk(env: Env, c: Net) {
    && NetOk(env, c) && AllRaceOk(env, c.fleet)
    && forall i :: 0 <= i < |c.fleet.execs| ==> Inv(env, c.fleet.execs[i])
  }

  /** A chain that decides is one an executor can rely on. */
  lemma ToldIsHonest(env: Env, c: Net, i: nat, a: Action)
    requires NetOk(env, c) && i < |c.fleet.execs| && Told(env, c, Act(i, a))
    ensures Honest(env, c.fleet.used, c.fleet.execs[i], a)
  {
    if a.Resume? && Waits(c.fleet, Tx(i, a.k)) {
      assert SentOk(env, c.fleet, Tx(i, a.k), c.sent[Tx(i, a.k)]);
    }
  }

  lemma ConsumeGood(env: Env, c: Net, payment: string)
    requires AllRefer(c.fleet) && ChainOk(env, c)
    ensures ChainOk(env, c.(fleet := FleetNext(env, c.fleet, Consume(payment))))
  {
    ConsumeKeeps(env, c, c.fleet.used + {payment});
    RaceFleet(env, c.fleet, Consume(payment));
  }

  lemma VerdictKeeps(env: Env, c: Net, tx: Tx, v: Verdict)
    requires NetOk(env, c) && tx in c.sent && (v.Minted? ==> c.sent[tx] in c.fleet.used)
    ensures NetOk(env, c.(verdicts := c.verdicts[tx := v]))
  {
    var d := c.(verdicts := c.verdicts[tx := v]);
    forall ty | ty in d.sent ensures SentOk(env, d.fleet, ty, d.sent[ty]) {
      assert SentOk(env, c.fleet, ty, c.sent[ty]);
    }
  }

  lemma MineGood(env: Env, c: Net, tx: Tx, delayed: bool, refused: bool)
    requires AllRefer(c.fleet) && ChainOk(env, c) && tx in c.sent && tx !in c.verdicts
    ensures ChainOk(env, Mined(c, tx, delayed, refused))
  {
    if refused || c.sent[tx] in c.fleet.used {
      VerdictKeeps(env, c, tx, Reverted);
    } else if delayed {
      VerdictKeeps(env, c, tx, Postponed);
    } else {
      ConsumeGood(env, c, c.sent[tx]);
      VerdictKeeps(env, c.(fleet := FleetNext(env, c.fleet, Consume(c.sent[tx]))), tx, Minted);
    }
  }

  lemma ActGood(env: Env, c: Net, i: nat, a: Action)
    requires Store.LowerHash(env.keccak) && AllRefer(c.fleet) && ChainOk(env, c) && Told(env, c, Act(i, a))
    ensures ChainOk(env, Acted(env, c, i, a))
  {
    ActKeeps(env, c, i, a);
    if i < |c.fleet.execs| {
      ToldIsHonest(env, c, i, a);
      NextKeeps(env, c.fleet.execs[i], a);
    }
    RaceFleet(env, c.fleet, By(i, a));
  }

  lemma ChainKeeps(env: Env, c: Net, a: ChainAction)
    requires Store.LowerHash(env.keccak) && AllRefer(c.fleet) && ChainOk(env, c) && Told(env, c, a)
    ensures ChainOk(env, ChainNext(env, c, a))
  {
    match a
    case Act(i, act) => ActGood(env, c, i, act);
    case Mine(tx, delayed, refused) =>
      if tx in c.sent && tx !in c.verdicts {
        MineGood(env, c, tx, delayed, refused);
      }
    case Relay(payment) => ConsumeGood(env, c, payment);
  }

  lemma {:induction false} ChainGood(env: Env, n: nat, actions: seq<ChainAction>)
    requires Store.LowerHash(env.keccak) && AllTold(env, n, actions)
    ensures ChainOk(env, ChainRun(env, n, actions))
  {
    if actions != [] {
      var before := actions[..|actions| - 1];
      assert forall k :: 0 <= k < |before| ==> before[..k] == actions[..k];
      ChainGood(env, n, before);
      ChainKeeps(env, ChainRun(env, n, before), actions[|actions| - 1]);
    }
  }

  // ----------------------------------------------------------------- main result

  /**
   * The relayer race, with nothing assumed of the chain's answers beyond what it
   * decided. A job that says executed, in memory or on disk, is for a consumed
   * payment: whether its executor won, lost the race, was refused, or lost its own
   * receipt and tried again.
   */
  lemma ExecutedIsConsumed(env: Env, n: nat, actions: seq<ChainAction>, i: nat, j: Job)
    requires Store.LowerHash(env.keccak) && AllTold(env, n, actions) && i < n
    requires var s := ChainRun(env, n, actions).fleet.execs[i];
             j in s.jobs || (j.id in s.disk && s.disk[j.id] == j)
    requires j.state == Executed
    ensures j.xrplTxId in ChainRun(env, n, actions).fleet.used
  {
    ChainGood(env, n, actions);
    var c := ChainRun(env, n, actions);
    assert RaceOk(env, c.fleet.used, c.fleet.execs[i]);
  }
}
