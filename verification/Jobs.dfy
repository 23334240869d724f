/**
 * A job of the executor on values: what one step makes of it, both as a whole
 * and cut at every await.
 */
module Jobs {
  import opened Results
  import opened Hex

  datatype JobState =
    | Observed | RequestPrepared | RequestSubmitted | RoundFinalized
    | ProofFetched | Delayed | Executed | Failed

  datatype Job = Job(
    id: string,
    state: JobState,
    xrplTxId: string,
    userOpData: string,
    totalCallValue: int,
    personalAccount: string,
    nonce: int,
    request: Option<string>,
    roundId: Option<int>,
    flareTxHash: Option<string>,
    executionAllowedAt: Option<int>,
    attempts: nat,
    lastError: Option<string>,
    updatedAt: int)

  /** Something a step caught; verifier and data-availability lag are the retryable ones. */
  datatype StepError = StepError(retryable: bool, message: string)

  /** A log of a receipt: not one of ours, or a decoded event with its executionAllowedAt, if it has one. */
  datatype Log = Foreign | Event(name: string, executionAllowedAt: Option<int>)

  datatype Receipt = Receipt(reverted: bool, logs: seq<Log>)

  /** What the clock, the verifier, the chain and the data-availability layer answer during one step. */
  datatype World = World(
    now: int,
    prepared: Result<string, StepError>,
    submitted: Result<int, StepError>,
    finalized: Result<bool, StepError>,
    proof: Result<string, StepError>,
    sent: Result<string, StepError>,
    receipt: Result<Receipt, StepError>,
    used: Result<bool, StepError>,
    savedAt: int)

  // ------------------------------------------------------------------- helpers

  /** The one spelling of an XRPL transaction hash: 0x and 64 upper-case digits. */
  function NormalizeXrplTxId(hash: string): Option<string> {
    var clean := if HasPrefix(hash) then hash[2..] else hash;
    if |clean| == 64 && AllDigits(clean) then Some("0x" + Upper(clean)) else None
  }

  /** Prefix and case of the spelling given do not matter, and a normal form is its own. */
  lemma NormalForm(hash: string)
    requires NormalizeXrplTxId(hash).Some?
    ensures var n := NormalizeXrplTxId(hash).value;
            && NormalizeXrplTxId(n) == Some(n)
            && NormalizeXrplTxId(n[2..]) == Some(n)
            && NormalizeXrplTxId(Lower(n[2..])) == Some(n)
  {
    var clean := if HasPrefix(hash) then hash[2..] else hash;
    var n := NormalizeXrplTxId(hash).value;
    assert n[2..] == Upper(clean);
    forall k | 0 <= k < 64 ensures IsDigit(Upper(clean)[k]) && IsDigit(Lower(Upper(clean))[k]) {
      DigitBack(clean[k]);
      DigitBack(UpperChar(clean[k]));
    }
    assert !IsDigit('x');
    assert Upper(Upper(clean)) == Upper(clean);
    assert Upper(Lower(Upper(clean))) == Upper(clean);
  }

  const PAYMENT_ALREADY_CONFIRMED_SELECTOR := "0x18dce79f"

  predicate Contains(text: string, part: string) {
    |part| <= |text| && (text[..|part|] == part || (text != "" && Contains(text[1..], part)))
  }

  predicate IsAlreadyConfirmed(e: StepError) {
    Contains(Lower(e.message), PAYMENT_ALREADY_CONFIRMED_SELECTOR)
  }

  function DelayOf(l: Log): Option<int> {
    if l.Event? && (l.name == "DirectMintingDelayed" || l.name == "LargeDirectMintingDelayed")
    then l.executionAllowedAt else None
  }

  /** The seconds at which execution becomes allowed, from the first delay event that says so. */
  function FirstDelay(logs: seq<Log>): Option<int> {
    if logs == [] then None
    else if DelayOf(logs[0]).Some? then DelayOf(logs[0])
    else FirstDelay(logs[1..])
  }

  predicate Terminal(s: JobState) {
    s == Executed || s == Failed
  }

  /** A delayed job whose time has not come. A time of 0 counts as none. */
  predicate StillDelayed(j: Job, now: int) {
    j.executionAllowedAt.Some? && j.executionAllowedAt.value != 0 && now < j.executionAllowedAt.value
  }

  // ------------------------------------------------------------ a step as a whole

  /** What the body of the try block comes to. */
  datatype Attempt =
    | Waits                          // nothing to do yet, or ever
    | Succeeds(job: Job)
    | Throws(job: Job, error: StepError)

  function Revert(hash: string): StepError {
    StepError(false, "executeDirectMintingWithData reverted (tx " + hash + ")")
  }

  function Mined(j: Job, hash: string, receipt: Receipt): Attempt {
    if receipt.reverted then Throws(j, Revert(hash))
    else
      var delay := FirstDelay(receipt.logs);
      if delay.Some? then Succeeds(j.(executionAllowedAt := Some(delay.value * 1000), state := Delayed))
      else Succeeds(j.(state := Executed))
  }

  function Try(j: Job, w: World): Attempt {
    match j.state
    case Observed =>
      if w.prepared.Err? then Throws(j, w.prepared.error)
      else Succeeds(j.(request := Some(w.prepared.value), state := RequestPrepared))
    case RequestPrepared =>
      if w.submitted.Err? then Throws(j, w.submitted.error)
      else Succeeds(j.(roundId := Some(w.submitted.value), state := RequestSubmitted))
    case RequestSubmitted =>
      if w.finalized.Err? then Throws(j, w.finalized.error)
      else if !w.finalized.value then Waits
      else Succeeds(j.(state := RoundFinalized))
    case RoundFinalized =>
      if w.proof.Err? then Throws(j, w.proof.error)
      else Succeeds(j.(state := ProofFetched))
    case Delayed =>
      if StillDelayed(j, w.now) then Waits else Succeeds(j.(state := ProofFetched))
    case ProofFetched =>
      if w.proof.Err? then Throws(j, w.proof.error)
      else if w.sent.Err? then Throws(j, w.sent.error)
      else
        var k := j.(flareTxHash := Some(w.sent.value));
        if w.receipt.Err? then Throws(k, w.receipt.error) else Mined(k, w.sent.value, w.receipt.value)
    case Executed => Waits
    case Failed => Waits
  }

  function Saved(j: Job, w: World): Job {
    j.(updatedAt := w.savedAt)
  }

  function Cleared(j: Job): Job {
    j.(attempts := 0, lastError := None)
  }

  function Confirmed(j: Job): Job {
    j.(state := Executed, lastError := None)
  }

  function Counted(j: Job, e: StepError): Job {
    j.(attempts := j.attempts + 1, lastError := Some(e.message),
       state := if !e.retryable && j.attempts + 1 >= 5 then Failed else j.state)
  }

  /** The error says the payment is spent, and the chain agrees. */
  predicate LostRace(j: Job, e: StepError, w: World) {
    j.state == ProofFetched && IsAlreadyConfirmed(e) && w.used == Ok(true)
  }

  /** The rest of the step: reset or count, look for a lost race, save. */
  function AfterTry(a: Attempt, w: World): Job
    requires !a.Waits?
  {
    match a
    case Succeeds(k) => Saved(Cleared(k), w)
    case Throws(k, e) => Saved(if LostRace(k, e, w) then Confirmed(k) else Counted(k, e), w)
  }

  function Step(j: Job, w: World): Job {
    if Try(j, w).Waits? then j else AfterTry(Try(j, w), w)
  }

  /** Whether the step wrote the job to disk: every step does that gets past its waiting. */
  predicate Saves(j: Job, w: World) {
    !Try(j, w).Waits?
  }

  // -------------------------------------------------------- a step, await by await

  /** A proof, with what it was asked for. */
  datatype Proof = Proof(request: Option<string>, roundId: Option<int>, body: string)

  /** Where a step is suspended. */
  datatype Pc =
    | Start
    | Preparing | Submitting | CheckingRound | Probing
    | Proving(request: Option<string>, roundId: Option<int>)
    | Sending(proof: Proof)
    | Mining(hash: string, proof: Proof)
    | Confirming(error: StepError)
    | Saving
    | Writing(snapshot: Job)
    | Done

  /** What a step does to the outside world, in order. */
  datatype Call =
    | AskRequest(txId: string)
    | GotRequest(txId: string, request: string)
    | Submit(wanted: Option<string>)
    | AskFinalized(round: Option<int>)
    | AskProof(about: Option<string>, inRound: Option<int>)
    | Execute(txId: string, proof: Proof, userOpData: string, value: int)
    | AskUsed(txId: string)
    | Write(snapshot: Job)

  datatype Move = Move(job: Job, pc: Pc, calls: seq<Call>)

  function Succeed(j: Job, w: World, calls: seq<Call>): Move {
    Move(Saved(Cleared(j), w), Saving, calls)
  }

  function Fail(j: Job, e: StepError, w: World): Move {
    Move(Saved(Counted(j, e), w), Saving, [])
  }

  function Catch(j: Job, e: StepError, w: World): Move {
    if j.state == ProofFetched && IsAlreadyConfirmed(e) then Move(j, Confirming(e), [AskUsed(j.xrplTxId)])
    else Fail(j, e, w)
  }

  function Begin(j: Job, w: World): Move {
    match j.state
    case Observed => Move(j, Preparing, [AskRequest(j.xrplTxId)])
    case RequestPrepared => Move(j, Submitting, [Submit(j.request)])
    case RequestSubmitted => Move(j, CheckingRound, [AskFinalized(j.roundId)])
    case RoundFinalized => Move(j, Probing, [AskProof(j.request, j.roundId)])
    case Delayed =>
      if StillDelayed(j, w.now) then Move(j, Done, []) else Succeed(j.(state := ProofFetched), w, [])
    case ProofFetched => Move(j, Proving(j.request, j.roundId), [AskProof(j.request, j.roundId)])
    case Executed => Move(j, Done, [])
    case Failed => Move(j, Done, [])
  }

  /** From one await to the next. The job may have been changed by another step in between. */
  function Advance(j: Job, pc: Pc, w: World): Move {
    match pc
    case Start => Begin(j, w)
    case Preparing =>
      if w.prepared.Err? then Catch(j, w.prepared.error, w)
      else Succeed(j.(request := Some(w.prepared.value), state := RequestPrepared), w,
                   [GotRequest(j.xrplTxId, w.prepared.value)])
    case Submitting =>
      if w.submitted.Err? then Catch(j, w.submitted.error, w)
      else Succeed(j.(roundId := Some(w.submitted.value), state := RequestSubmitted), w, [])
    case CheckingRound =>
      if w.finalized.Err? then Catch(j, w.finalized.error, w)
      else if !w.finalized.value then Move(j, Done, [])
      else Succeed(j.(state := RoundFinalized), w, [])
    case Probing =>
      if w.proof.Err? then Catch(j, w.proof.error, w)
      else Succeed(j.(state := ProofFetched), w, [])
    case Proving(request, roundId) =>
      if w.proof.Err? then Catch(j, w.proof.error, w)
      else
        var proof := Proof(request, roundId, w.proof.value);
        Move(j, Sending(proof), [Execute(j.xrplTxId, proof, j.userOpData, j.totalCallValue)])
    case Sending(proof) =>
      if w.sent.Err? then Catch(j, w.sent.error, w)
      else Move(j.(flareTxHash := Some(w.sent.value)), Mining(w.sent.value, proof), [])
    case Mining(hash, _) =>
      if w.receipt.Err? then Catch(j, w.receipt.error, w)
      else
        var mined := Mined(j, hash, w.receipt.value);
        if mined.Throws? then Catch(mined.job, mined.error, w)
        else if mined.Succeeds? then Succeed(mined.job, w, [])
        else Move(j, Done, [])
    case Confirming(e) =>
      if w.used == Ok(true) then Move(Saved(Confirmed(j), w), Saving, []) else Fail(j, e, w)
    case Saving => Move(j, Writing(j), [])
    case Writing(snapshot) => Move(j, Done, [Write(snapshot)])
    case Done => Move(j, Done, [])
  }

  function Rank(pc: Pc): nat {
    match pc
    case Start => 9
    case Proving(_, _) => 8
    case Sending(_) => 7
    case Confirming(_) => 4
    case Saving => 3
    case Writing(_) => 2
    case Done => 0
    case _ => 6
  }

  /** A step that nothing interrupts, from wherever it is suspended. */
  function Finish(j: Job, pc: Pc, w: World): Move
    decreases Rank(pc)
  {
    if pc.Done? then Move(j, Done, [])
    else
      var m := Advance(j, pc, w);
      var rest := Finish(m.job, m.pc, w);
      Move(rest.job, Done, m.calls + rest.calls)
  }

  /** The last thing done is to write the job to disk as it then is. */
  predicate EndsWithWrite(f: Move) {
    f.calls != [] && f.calls[|f.calls| - 1] == Write(f.job)
  }

  lemma FinishSaving(j: Job, w: World)
    ensures Finish(j, Saving, w) == Move(j, Done, [Write(j)])
  {
    assert Finish(j, Writing(j), w) == Move(j, Done, [Write(j)]);
  }

  lemma FinishCatch(j: Job, e: StepError, w: World)
    ensures var m := Catch(j, e, w);
            var k := Saved(if LostRace(j, e, w) then Confirmed(j) else Counted(j, e), w);
            var f := Finish(m.job, m.pc, w);
            f.job == k && EndsWithWrite(f)
  {
    var m := Catch(j, e, w);
    FinishSaving(Saved(Counted(j, e), w), w);
    FinishSaving(Saved(Confirmed(j), w), w);
    if m.pc.Confirming? {
      var n := Advance(j, m.pc, w);
      assert Finish(j, m.pc, w) == Move(Finish(n.job, n.pc, w).job, Done, n.calls + Finish(n.job, n.pc, w).calls);
    }
  }

  lemma FinishMining(j: Job, hash: string, proof: Proof, w: World)
    requires w.receipt.Ok?
    ensures var m := Advance(j, Mining(hash, proof), w);
            var f := Finish(m.job, m.pc, w);
            f.job == AfterTry(Mined(j, hash, w.receipt.value), w) && EndsWithWrite(f)
  {
    match Mined(j, hash, w.receipt.value)
    case Succeeds(k) => FinishSaving(Saved(Cleared(k), w), w);
    case Throws(k, e) => FinishCatch(k, e, w);
    case Waits => assert false;
  }

  lemma FinishFrom(j: Job, pc: Pc, w: World)
    requires !pc.Done?
    ensures var m := Advance(j, pc, w);
            var rest := Finish(m.job, m.pc, w);
            Finish(j, pc, w).job == rest.job && (EndsWithWrite(rest) ==> EndsWithWrite(Finish(j, pc, w)))
  {
  }

  lemma FinishProving(j: Job, w: World)
    requires j.state == ProofFetched
    ensures var f := Finish(j, Proving(j.request, j.roundId), w);
            f.job == Step(j, w) && EndsWithWrite(f)
  {
    var proving := Proving(j.request, j.roundId);
    FinishFrom(j, proving, w);
    if w.proof.Err? {
      FinishCatch(j, w.proof.error, w);
    } else {
      FinishSending(j, Proof(j.request, j.roundId, w.proof.value), w);
    }
  }

  lemma FinishSent(j: Job, proof: Proof, w: World)
    requires j.state == ProofFetched && w.proof.Ok? && w.sent.Ok?
    ensures var k := j.(flareTxHash := Some(w.sent.value));
            var f := Finish(k, Mining(w.sent.value, proof), w);
            f.job == Step(j, w) && EndsWithWrite(f)
  {
    var k := j.(flareTxHash := Some(w.sent.value));
    FinishFrom(k, Mining(w.sent.value, proof), w);
    if w.receipt.Err? {
      FinishCatch(k, w.receipt.error, w);
    } else {
      FinishMining(k, w.sent.value, proof, w);
    }
  }

  lemma FinishSending(j: Job, proof: Proof, w: World)
    requires j.state == ProofFetched && w.proof.Ok?
    ensures var f := Finish(j, Sending(proof), w);
            f.job == Step(j, w) && EndsWithWrite(f)
  {
    FinishFrom(j, Sending(proof), w);
    if w.sent.Err? {
      FinishCatch(j, w.sent.error, w);
    } else {
      FinishSent(j, proof, w);
    }
  }

  lemma FinishTried(j: Job, w: World)
    requires !Try(j, w).Waits? && j.state != ProofFetched
    ensures Try(j, w).Throws? ==>
              var c := Catch(j, Try(j, w).error, w);
              Finish(c.job, c.pc, w).job == Step(j, w) && EndsWithWrite(Finish(c.job, c.pc, w))
    ensures Try(j, w).Succeeds? ==>
              Finish(Step(j, w), Saving, w) == Move(Step(j, w), Done, [Write(Step(j, w))])
  {
    match Try(j, w)
    case Succeeds(k) => FinishSaving(Saved(Cleared(k), w), w);
    case Throws(k, e) => FinishCatch(k, e, w);
  }

  lemma WaitingStep(j: Job, w: World)
    requires Try(j, w).Waits?
    ensures var f := Finish(j, Start, w); f.job == j && forall c :: c in f.calls ==> !c.Write?
  {
    FinishFrom(j, Start, w);
    assert j.state == RequestSubmitted ==> Finish(j, CheckingRound, w).calls == [];
  }

  lemma BusyStep(j: Job, w: World)
    requires !Try(j, w).Waits? && j.state != ProofFetched
    ensures var f := Finish(j, Start, w); f.job == Step(j, w) && EndsWithWrite(f)
  {
    FinishFrom(j, Start, w);
    var m := Begin(j, w);
    if !m.pc.Saving? {
      FinishFrom(j, m.pc, w);
    }
    FinishTried(j, w);
  }

  /**
   * A step nothing interrupts is the step as a whole: it leaves the same job, and
   * exactly when the whole step saves, the last thing it does is write that job.
   */
  lemma UninterruptedStep(j: Job, w: World)
    ensures var f := Finish(j, Start, w);
            && f.job == Step(j, w)
            && (Saves(j, w) ==> EndsWithWrite(f))
            && (!Saves(j, w) ==> forall c :: c in f.calls ==> !c.Write?)
  {
    if Try(j, w).Waits? {
      WaitingStep(j, w);
    } else if j.state == ProofFetched {
      FinishFrom(j, Start, w);
      FinishProving(j, w);
    } else {
      BusyStep(j, w);
    }
  }
}
