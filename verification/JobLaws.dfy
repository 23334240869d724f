/**
 * What a step of a job does, over the fields of the job and the answers it gets:
 * said without the step's own functions, so that it stands beside them as a
 * second account.
 */
module JobLaws {
  import opened Results
  import opened Hex
  import opened Jobs
  import opened JobRuns
  import LostRaces
  import W = WireFormat

  // --------------------------------------------------------------- hashes and errors

  /** What follows the 0x, if there is one. */
  function WithoutPrefix(hash: string): string {
    if |hash| >= 2 && hash[0] == '0' && hash[1] == 'x' then hash[2..] else hash
  }

  /** 64 hex digits of either case, with or without 0x. */
  predicate TxHash(hash: string) {
    |WithoutPrefix(hash)| == 64 && forall k :: 0 <= k < 64 ==> W.HexChar(WithoutPrefix(hash)[k])
  }

  /** They make a normal form, and nothing else does. */
  lemma NormalExactlyWhen(hash: string)
    ensures var body := WithoutPrefix(hash);
            var n := NormalizeXrplTxId(hash);
            && (n.Some? <==> TxHash(hash))
            && (n.Some? ==> |n.value| == 66 && n.value[0] == '0' && n.value[1] == 'x')
            && (n.Some? ==> forall k :: 0 <= k < 64 ==>
                  n.value[2 + k] as int == if 97 <= body[k] as int <= 122 then body[k] as int - 32 else body[k] as int)
  {
    var body := WithoutPrefix(hash);
    forall k | 0 <= k < |body| ensures IsDigit(body[k]) <==> W.HexChar(body[k]) {
      W.DigitValue(body[k]);
    }
  }

  /** The text of an error, letters in lower case, contains the selector of PaymentAlreadyConfirmed. */
  predicate NamesRace(e: StepError) {
    exists i :: 0 <= i <= |e.message| - 10 && SelectorAt(e.message, i)
  }

  predicate SelectorAt(message: string, i: nat)
    requires i + 10 <= |message|
  {
    forall k :: 0 <= k < 10 ==> (message[i + k] == "0x18dce79f"[k] || message[i + k] == "0X18DCE79F"[k])
  }

  lemma SelectorOccurs(message: string, i: nat)
    ensures i + 10 <= |message| && SelectorAt(message, i) <==>
            LostRaces.OccursAt(Lower(message), PAYMENT_ALREADY_CONFIRMED_SELECTOR, i)
  {
    var part, text := PAYMENT_ALREADY_CONFIRMED_SELECTOR, Lower(message);
    assert |part| == 10 && |text| == |message|;
    if i + 10 <= |message| {
      forall k | 0 <= k < 10
        ensures text[i..i + 10][k] == part[k] <==>
                (message[i + k] == "0x18dce79f"[k] || message[i + k] == "0X18DCE79F"[k])
      {
        assert text[i..i + 10][k] == LowerChar(message[i + k]);
        SelectorChar(message[i + k], k);
      }
    }
  }

  lemma SelectorChar(c: char, k: nat)
    requires k < 10
    ensures |PAYMENT_ALREADY_CONFIRMED_SELECTOR| == 10
    ensures LowerChar(c) == PAYMENT_ALREADY_CONFIRMED_SELECTOR[k] <==>
            (c == "0x18dce79f"[k] || c == "0X18DCE79F"[k])
  {
  }

  lemma RaceExactlyWhen(e: StepError)
    ensures IsAlreadyConfirmed(e) <==> NamesRace(e)
  {
    var part, text := PAYMENT_ALREADY_CONFIRMED_SELECTOR, Lower(e.message);
    LostRaces.ContainsExactlyWhen(text, part);
    if i: nat :| LostRaces.OccursAt(text, part, i) {
      SelectorOccurs(e.message, i);
    }
    if i :| 0 <= i <= |e.message| - 10 && SelectorAt(e.message, i) {
      SelectorOccurs(e.message, i);
      assert LostRaces.OccursAt(text, part, i);
    }
  }

  // --------------------------------------------------------------- one step

  /** A log that is no delay event with a time. */
  ghost predicate Untimed(l: Log) {
    forall t :: l != Event("DirectMintingDelayed", Some(t)) && l != Event("LargeDirectMintingDelayed", Some(t))
  }

  ghost predicate Undelayed(logs: seq<Log>) {
    forall l :: 0 <= l < |logs| ==> Untimed(logs[l])
  }

  /** The m-th log is the first delay event that carries a time, and the time is s seconds. */
  ghost predicate DelayedFirst(logs: seq<Log>, m: nat, s: int) {
    && m < |logs|
    && (logs[m] == Event("DirectMintingDelayed", Some(s)) || logs[m] == Event("LargeDirectMintingDelayed", Some(s)))
    && Undelayed(logs[..m])
  }

  lemma UntimedIs(l: Log)
    ensures Untimed(l) <==> DelayOf(l).None?
  {
    if DelayOf(l).Some? {
      var at := DelayOf(l).value;
      assert l == Event("DirectMintingDelayed", Some(at)) || l == Event("LargeDirectMintingDelayed", Some(at));
    }
  }

  lemma {:induction false} UndelayedIs(logs: seq<Log>)
    ensures Undelayed(logs) <==> FirstDelay(logs).None?
  {
    if logs != [] {
      UndelayedIs(logs[1..]);
      UntimedIs(logs[0]);
      assert forall l :: 0 <= l < |logs| - 1 ==> logs[1..][l] == logs[l + 1];
      assert Undelayed(logs) ==> Undelayed(logs[1..]);
      assert Untimed(logs[0]) && Undelayed(logs[1..]) ==> Undelayed(logs) by {
        assert forall l :: 0 < l < |logs| ==> logs[l] == logs[1..][l - 1];
      }
    }
  }

  lemma {:induction false} DelayIs(logs: seq<Log>, m: nat, s: int)
    requires DelayedFirst(logs, m, s)
    ensures FirstDelay(logs) == Some(s)
    decreases m
  {
    if m > 0 {
      assert logs[..m][0] == logs[0];
      UntimedIs(logs[0]);
      assert logs[1..][..m - 1] == logs[..m][1..];
      DelayIs(logs[1..], m - 1, s);
    }
  }

  /** The call this state waits for failed with e; a mined revert is a hard error of its own. */
  predicate Errs(j: Job, w: World, e: StepError) {
    match j.state
    case Observed => w.prepared == Err(e)
    case RequestPrepared => w.submitted == Err(e)
    case RequestSubmitted => w.finalized == Err(e)
    case RoundFinalized => w.proof == Err(e)
    case ProofFetched =>
      || w.proof == Err(e)
      || (w.proof.Ok? && w.sent == Err(e))
      || (w.proof.Ok? && w.sent.Ok? && w.receipt == Err(e))
      || (w.proof.Ok? && w.sent.Ok? && w.receipt.Ok? && w.receipt.value.reverted
          && e == StepError(false, "executeDirectMintingWithData reverted (tx " + w.sent.value + ")"))
    case _ => false
  }

  /** The job with its transaction's hash, once one has been sent. */
  function WithHash(j: Job, w: World): Job {
    if j.state == ProofFetched && w.proof.Ok? && w.sent.Ok? then j.(flareTxHash := Some(w.sent.value)) else j
  }

  /** A step whose call fails counts the error, unless it names a lost race that the chain confirms. */
  lemma StepFails(j: Job, w: World, e: StepError)
    requires Errs(j, w, e)
    ensures var h := WithHash(j, w);
            var lost := j.state == ProofFetched && NamesRace(e) && w.used == Ok(true);
            && (lost ==> Step(j, w) == h.(state := Executed, lastError := None, updatedAt := w.savedAt))
            && (!lost ==> Step(j, w) == h.(
                  attempts := j.attempts + 1, lastError := Some(e.message), updatedAt := w.savedAt,
                  state := if !e.retryable && j.attempts >= 4 then Failed else j.state))
  {
    RaceExactlyWhen(e);
  }

  /** The job moved on: no errors counted any more, and stamped. */
  function Fresh(j: Job, w: World, state: JobState): Job {
    j.(state := state, attempts := 0, lastError := None, updatedAt := w.savedAt)
  }

  /** A step whose call succeeds records the answer and moves one state on, up to the proof. */
  lemma StepMoves(j: Job, w: World)
    ensures j.state == Observed && w.prepared.Ok? ==>
              Step(j, w) == Fresh(j, w, RequestPrepared).(request := Some(w.prepared.value))
    ensures j.state == RequestPrepared && w.submitted.Ok? ==>
              Step(j, w) == Fresh(j, w, RequestSubmitted).(roundId := Some(w.submitted.value))
    ensures j.state == RequestSubmitted && w.finalized == Ok(true) ==> Step(j, w) == Fresh(j, w, RoundFinalized)
    ensures j.state == RequestSubmitted && w.finalized == Ok(false) ==> Step(j, w) == j
    ensures j.state == RoundFinalized && w.proof.Ok? ==> Step(j, w) == Fresh(j, w, ProofFetched)
    ensures j.state == Executed || j.state == Failed ==> Step(j, w) == j
    ensures j.state == Delayed ==>
              Step(j, w) ==
              if exists t :: t != 0 && w.now < t && j.executionAllowedAt == Some(t) then j
              else Fresh(j, w, ProofFetched)
  {
  }

  /** A mined execution ends the job, or delays it to the time its first delay event gives, in milliseconds. */
  lemma StepMines(j: Job, w: World)
    requires j.state == ProofFetched && w.proof.Ok? && w.sent.Ok? && w.receipt.Ok? && !w.receipt.value.reverted
    ensures var h, logs := j.(flareTxHash := Some(w.sent.value)), w.receipt.value.logs;
            && (Undelayed(logs) ==> Step(j, w) == Fresh(h, w, Executed))
            && forall m, s :: DelayedFirst(logs, m, s) ==>
                 Step(j, w) == Fresh(h, w, Delayed).(executionAllowedAt := Some(1000 * s))
  {
    var logs := w.receipt.value.logs;
    UndelayedIs(logs);
    forall m, s | DelayedFirst(logs, m, s) ensures FirstDelay(logs) == Some(s) {
      DelayIs(logs, m, s);
    }
  }

  // ------------------------------------------------------------- what goes out

  /** The error a proven job meets, if it meets one, names a lost race. */
  ghost predicate AsksUsed(j: Job, w: World) {
    j.state == ProofFetched && exists e :: Errs(j, w, e) && NamesRace(e)
  }

  /** The calls of one step, in order, up to its save. */
  ghost function Outward(j: Job, w: World): seq<Call> {
    match j.state
    case Observed =>
      [AskRequest(j.xrplTxId)] + if w.prepared.Ok? then [GotRequest(j.xrplTxId, w.prepared.value)] else []
    case RequestPrepared => [Submit(j.request)]
    case RequestSubmitted => [AskFinalized(j.roundId)]
    case RoundFinalized => [AskProof(j.request, j.roundId)]
    case ProofFetched =>
      [AskProof(j.request, j.roundId)]
      + (if w.proof.Ok?
         then [Execute(j.xrplTxId, Proof(j.request, j.roundId, w.proof.value), j.userOpData, j.totalCallValue)]
         else [])
      + (if AsksUsed(j, w) then [AskUsed(j.xrplTxId)] else [])
    case _ => []
  }

  lemma FinishCalls(j: Job, pc: Pc, w: World)
    requires !pc.Done?
    ensures var m := Advance(j, pc, w);
            Finish(j, pc, w).calls == m.calls + Finish(m.job, m.pc, w).calls
  {
  }

  /** What follows an attempt: the question whether a lost race is one, and the save. */
  ghost function Tail(a: Attempt, w: World): seq<Call>
    requires !a.Waits?
  {
    (if a.Throws? && a.job.state == ProofFetched && NamesRace(a.error) then [AskUsed(a.job.xrplTxId)] else [])
    + [Write(AfterTry(a, w))]
  }

  lemma CatchTail(j: Job, e: StepError, w: World)
    ensures var m := Catch(j, e, w);
            m.calls + Finish(m.job, m.pc, w).calls == Tail(Throws(j, e), w)
  {
    RaceExactlyWhen(e);
    FinishSaving(Saved(Counted(j, e), w), w);
    FinishSaving(Saved(Confirmed(j), w), w);
    var m := Catch(j, e, w);
    if m.pc.Confirming? {
      FinishCalls(j, m.pc, w);
    }
  }

  lemma SucceedTail(j: Job, w: World, calls: seq<Call>)
    ensures var m := Succeed(j, w, calls);
            m.calls + Finish(m.job, m.pc, w).calls == calls + Tail(Succeeds(j), w)
  {
    FinishSaving(Saved(Cleared(j), w), w);
  }

  lemma MiningTail(j: Job, hash: string, proof: Proof, w: World)
    ensures Finish(j, Mining(hash, proof), w).calls ==
            Tail(if w.receipt.Err? then Throws(j, w.receipt.error) else Mined(j, hash, w.receipt.value), w)
  {
    FinishCalls(j, Mining(hash, proof), w);
    if w.receipt.Err? {
      CatchTail(j, w.receipt.error, w);
    } else {
      var a := Mined(j, hash, w.receipt.value);
      if a.Throws? {
        CatchTail(a.job, a.error, w);
      } else {
        SucceedTail(a.job, w, []);
      }
    }
  }

  lemma SendingTail(j: Job, proof: Proof, w: World)
    requires j.state == ProofFetched && w.proof.Ok?
    ensures Finish(j, Sending(proof), w).calls == Tail(Try(j, w), w)
  {
    FinishCalls(j, Sending(proof), w);
    if w.sent.Err? {
      CatchTail(j, w.sent.error, w);
    } else {
      MiningTail(j.(flareTxHash := Some(w.sent.value)), w.sent.value, proof, w);
    }
  }

  lemma ProvenCalls(j: Job, w: World)
    requires j.state == ProofFetched
    ensures Finish(j, Start, w).calls ==
            [AskProof(j.request, j.roundId)]
            + (if w.proof.Ok?
               then [Execute(j.xrplTxId, Proof(j.request, j.roundId, w.proof.value), j.userOpData, j.totalCallValue)]
               else [])
            + Tail(Try(j, w), w)
  {
    var proving := Proving(j.request, j.roundId);
    FinishCalls(j, Start, w);
    FinishCalls(j, proving, w);
    if w.proof.Err? {
      CatchTail(j, w.proof.error, w);
    } else {
      SendingTail(j, Proof(j.request, j.roundId, w.proof.value), w);
    }
  }

  lemma AskedExactlyWhen(j: Job, w: World)
    requires j.state == ProofFetched
    ensures AsksUsed(j, w) <==> Try(j, w).Throws? && NamesRace(Try(j, w).error)
    ensures Try(j, w).Throws? ==> Try(j, w).job.state == ProofFetched && Try(j, w).job.xrplTxId == j.xrplTxId
  {
    if Try(j, w).Throws? {
      assert Errs(j, w, Try(j, w).error);
    }
  }

  lemma EarlyCalls(j: Job, w: World)
    requires j.state == Observed || j.state == RequestPrepared ||
             j.state == RequestSubmitted || j.state == RoundFinalized
    ensures Finish(j, Start, w).calls == Outward(j, w) + if Saves(j, w) then [Write(Step(j, w))] else []
  {
    var m := Begin(j, w);
    FinishCalls(j, Start, w);
    FinishCalls(j, m.pc, w);
    match Try(j, w)
    case Waits => assert Finish(j, m.pc, w).calls == [];
    case Throws(k, e) => CatchTail(k, e, w);
    case Succeeds(k) => SucceedTail(k, w, Advance(j, m.pc, w).calls);
  }

  /** Everything one step asks, sends and writes, in order; what it writes is the job as the step leaves it. */
  lemma StepCalls(j: Job, w: World)
    ensures Finish(j, Start, w).calls == Outward(j, w) + if Saves(j, w) then [Write(Step(j, w))] else []
  {
    if j.state == ProofFetched {
      ProvenCalls(j, w);
      AskedExactlyWhen(j, w);
    } else if j.state == Delayed {
      FinishCalls(j, Start, w);
      if !StillDelayed(j, w.now) {
        SucceedTail(j.(state := ProofFetched), w, []);
      }
    } else if j.state != Executed && j.state != Failed {
      EarlyCalls(j, w);
    }
  }

  /** A step is saved unless it had nothing to do: a round not final, a delay not over, or a finished job. */
  lemma SavesExactlyWhen(j: Job, w: World)
    ensures !Saves(j, w) <==>
            || j.state == Executed || j.state == Failed
            || (j.state == RequestSubmitted && w.finalized == Ok(false))
            || (j.state == Delayed && exists t :: t != 0 && w.now < t && j.executionAllowedAt == Some(t))
  {
  }

  // ------------------------------------------------------------------- delays

  /**
   * Delays are respected, from the receipt itself. If the execution of step i was
   * mined with a delay event for time s, in seconds, and no earlier event of the
   * kind carries a time, then no later step calls for execution before the clock,
   * in milliseconds, reads 1000 s.
   */
  lemma ReceiptDelayRespected(start: Job, ws: seq<World>, i: nat, m: nat, k: nat, s: int)
    requires Monotone(ws) && i < k < |ws| && s > 0
    requires Steps(start, ws[..i]).state == ProofFetched && ws[i].proof.Ok? && ws[i].sent.Ok?
    requires ws[i].receipt.Ok? && !ws[i].receipt.value.reverted && DelayedFirst(ws[i].receipt.value.logs, m, s)
    requires exists c :: c in Finish(Steps(start, ws[..k]), Start, ws[k]).calls && c.Execute?
    ensures ws[k].now >= 1000 * s
  {
    ReceiptRecorded(start, ws, i, m, s);
    ExecuteIsProven(Steps(start, ws[..k]), ws[k]);
    DelayRespected(start, ws, i, k, 1000 * s);
  }

  lemma ReceiptRecorded(start: Job, ws: seq<World>, i: nat, m: nat, s: int)
    requires i < |ws| && Steps(start, ws[..i]).state == ProofFetched && ws[i].proof.Ok? && ws[i].sent.Ok?
    requires ws[i].receipt.Ok? && !ws[i].receipt.value.reverted && DelayedFirst(ws[i].receipt.value.logs, m, s)
    ensures RecordsDelay(start, ws, i, 1000 * s)
  {
    StepMines(Steps(start, ws[..i]), ws[i]);
    StepsSnoc(start, ws[..i], ws[i]);
    assert ws[..i + 1] == ws[..i] + [ws[i]];
  }

  lemma ExecuteIsProven(j: Job, w: World)
    requires exists c :: c in Finish(j, Start, w).calls && c.Execute?
    ensures j.state == ProofFetched && w.proof.Ok?
  {
    StepCalls(j, w);
  }
}
