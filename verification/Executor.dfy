/**
 * Executors whole: watching, looking up, creating and stepping, in any
 * interleaving. A task is an asynchronous call suspended at an await; a step of
 * the system takes one task to its next await, starts a new one, or kills some.
 * The order in which the service's ticks start tasks is left open, so every
 * interleaving the source allows, ticks that overlap and scripts that work on the
 * same state directory included, is among the runs here.
 */
module Executor {
  import opened Results
  import opened Hex
  import opened Jobs
  import Store
  import Watch

  /** What does not change: the hash, the ledger by normal transaction id, and the reading of decimal text. */
  datatype Env = Env(
    keccak: string -> string,
    ledger: string -> Watch.Tx,
    number: string -> Option<int>,
    requestTx: string -> string)

  datatype Task =
    | Registering(record: Store.PendingUserOp)                    // cached, not yet on disk
    | Getting(hash: string, commitment: string, forTick: bool)    // store.get
    | Caching(hash: string, commitment: string, forTick: bool, record: Store.PendingUserOp)
    | Found(hash: string, commitment: string)                     // reported by a poll
    | Loading(hash: string, record: Store.PendingUserOp)          // pipeline.create
    | Stepping(ref: nat, pc: Pc)                                  // pipeline.step, or the save in create
    | Finished

  /** One executor: its store, its state directory, its job objects, its tasks, and what it has done. */
  datatype State = State(
    store: Store.Contents,
    disk: map<string, Job>,
    jobs: seq<Job>,
    tasks: seq<Task>,
    trace: seq<Call>)

  const FRESH: State := State(Store.Contents(map[], map[]), map[], [], [], [])

  datatype Action =
    | Register(r: Store.Registration, now: int)    // POST /register or /prepare
    | See(entry: Watch.Entry)                      // a poll looks at an entry
    | Resume(k: nat, w: World)                     // the k-th task gets its answer
    | Drive(ref: nat)                              // a tick or a script steps a job object
    | Reopen(id: string, now: int)                 // a script loads a job, and resets it if it has failed
    | Crash(killed: set<nat>)                      // a process dies: its tasks and the cache go

  // ---------------------------------------------------------------- transitions

  function Spawn(s: State, t: Task): State {
    s.(tasks := s.tasks + [t])
  }

  function Become(s: State, k: nat, t: Task): State
    requires k < |s.tasks|
  {
    s.(tasks := s.tasks[k := t])
  }

  function Reset(j: Job, now: int): Job {
    j.(state := Observed, attempts := 0, lastError := None, updatedAt := now)
  }

  function NewJob(
    env: Env, id: string, xrplTxId: string, r: Store.PendingUserOp, value: int, nonce: int, now: int): Job
  {
    Job(id, Observed, xrplTxId, r.userOpData, value, r.personalAccount, nonce, None, None, None, None, 0, None, now)
  }

  /** What comes after a look-up has its record. */
  function Got(t: Task, record: Store.PendingUserOp): Task
    requires t.Getting? || t.Caching?
  {
    if t.forTick then Loading(t.hash, record) else Found(t.hash, t.commitment)
  }

  function ResumeTask(env: Env, s: State, k: nat, w: World): State
    requires k < |s.tasks|
    requires s.tasks[k].Stepping? ==> s.tasks[k].ref < |s.jobs|
  {
    match s.tasks[k]
    case Registering(r) =>
      Become(s.(store := s.store.(disk := s.store.disk[Store.FileOf(r.commitment) := r])), k, Finished)
    case Getting(hash, c, forTick) =>
      if Lower(c) in s.store.memory then Become(s, k, Got(s.tasks[k], s.store.memory[Lower(c)]))
      else if Store.FileOf(c) in s.store.disk then
        Become(s, k, Caching(hash, c, forTick, s.store.disk[Store.FileOf(c)]))
      else Become(s, k, Finished)
    case Caching(_, c, _, r) =>
      Become(s.(store := s.store.(memory := s.store.memory[Lower(c) := r])), k, Got(s.tasks[k], r))
    case Found(hash, c) => Become(s, k, Getting(hash, c, true))
    case Loading(hash, r) => CreateJob(env, s, k, hash, r, w)
    case Stepping(ref, pc) =>
      var m := Advance(s.jobs[ref], pc, w);
      Become(s.(jobs := s.jobs[ref := m.job],
                disk := if pc.Writing? then s.disk[pc.snapshot.id := pc.snapshot] else s.disk,
                trace := s.trace + m.calls),
             k, if m.pc.Done? then Finished else Stepping(ref, m.pc))
    case Finished => s
  }

  function CreateJob(env: Env, s: State, k: nat, hash: string, r: Store.PendingUserOp, w: World): State
    requires k < |s.tasks|
  {
    var txId, value, nonce := NormalizeXrplTxId(hash), env.number(r.totalCallValue), env.number(r.nonce);
    if txId.None? || value.None? || nonce.None? then Become(s, k, Finished)
    else
      var id := txId.value[2..];
      if id in s.disk then Become(s.(jobs := s.jobs + [s.disk[id]]), k, Finished)
      else
        Become(s.(jobs := s.jobs + [NewJob(env, id, txId.value, r, value.value, nonce.value, w.now)]),
               k, Stepping(|s.jobs|, Saving))
  }

  predicate TasksRefer(s: State) {
    forall k :: 0 <= k < |s.tasks| && s.tasks[k].Stepping? ==> s.tasks[k].ref < |s.jobs|
  }

  function Next(env: Env, s: State, a: Action): State
    requires TasksRefer(s)
  {
    match a
    case Register(r, now) =>
      if !Store.Accepts(env.keccak, r) then s
      else
        var record := Store.RecordOf(env.keccak, r, now);
        Spawn(s.(store := s.store.(memory := s.store.memory[Lower(record.commitment) := record])), Registering(record))
    case See(e) =>
      if !Watch.IsPayment(e) then s
      else
        var hash, commitment := Watch.HashOf(e), Watch.Commitment(Watch.Body(e).value);
        if hash.None? || commitment.None? then s else Spawn(s, Getting(hash.value, commitment.value, false))
    case Resume(k, w) => if k < |s.tasks| then ResumeTask(env, s, k, w) else s
    case Drive(ref) => if ref < |s.jobs| then Spawn(s, Stepping(ref, Start)) else s
    case Reopen(id, now) =>
      if id !in s.disk then s
      else if s.disk[id].state == Failed then
        Spawn(s.(jobs := s.jobs + [Reset(s.disk[id], now)]), Stepping(|s.jobs|, Saving))
      else s.(jobs := s.jobs + [s.disk[id]])
    case Crash(killed) =>
      s.(store := Store.Restart(s.store),
         tasks := seq(|s.tasks|, k requires 0 <= k < |s.tasks| => if k in killed then Finished else s.tasks[k]))
  }

  lemma NextRefers(env: Env, s: State, a: Action)
    requires TasksRefer(s)
    ensures TasksRefer(Next(env, s, a))
  {
  }

  // ------------------------------------------------------------------ invariants

  /** The transaction on the ledger commits to these bytes. */
  predicate Commits(env: Env, txId: string, userOpData: string) {
    Watch.Commitment(env.ledger(txId)) == Some(env.keccak(userOpData))
  }

  /** The verifier once returned this request for this transaction. */
  predicate Requested(trace: seq<Call>, txId: string, request: Option<string>) {
    request.Some? && GotRequest(txId, request.value) in trace
  }

  predicate HasRequest(s: JobState) {
    s != Observed && s != Failed
  }

  predicate HasRound(s: JobState) {
    HasRequest(s) && s != RequestPrepared
  }

  predicate JobOk(env: Env, trace: seq<Call>, j: Job) {
    && Commits(env, j.xrplTxId, j.userOpData)
    && (j.request.Some? ==> Requested(trace, j.xrplTxId, j.request))
    && (HasRequest(j.state) ==> j.request.Some?)
    && (HasRound(j.state) ==> j.roundId.Some?)
  }

  /** What a suspended step relies on, however the job it works on has moved meanwhile. */
  predicate PcOk(env: Env, trace: seq<Call>, j: Job, pc: Pc) {
    match pc
    case Submitting => j.request.Some?
    case CheckingRound => j.request.Some? && j.roundId.Some?
    case Probing => j.request.Some? && j.roundId.Some?
    case Proving(request, roundId) =>
      Requested(trace, j.xrplTxId, request) && roundId.Some? && j.roundId.Some? && j.request.Some?
    case Sending(proof) => Requested(trace, j.xrplTxId, proof.request) && j.roundId.Some? && j.request.Some?
    case Mining(_, proof) => Requested(trace, j.xrplTxId, proof.request) && j.roundId.Some? && j.request.Some?
    case Confirming(_) => j.roundId.Some? && j.request.Some?
    case Writing(snapshot) => JobOk(env, trace, snapshot)
    case _ => true
  }

  /** Nothing missing goes out, and what is executed is what the ledger commits to. */
  predicate CallOk(env: Env, trace: seq<Call>, c: Call) {
    match c
    case Submit(request) => request.Some?
    case AskFinalized(round) => round.Some?
    case AskProof(request, round) => request.Some? && round.Some?
    case Execute(txId, proof, userOpData, _) =>
      Commits(env, txId, userOpData) && Requested(trace, txId, proof.request) && proof.roundId.Some?
    case _ => true
  }

  predicate TaskOk(env: Env, s: State, t: Task) {
    match t
    case Registering(r) => r.commitment == env.keccak(r.userOpData)
    case Getting(hash, c, _) => OnLedger(env, hash, c)
    case Caching(hash, c, _, r) => OnLedger(env, hash, c) && r.commitment == env.keccak(r.userOpData) == c
    case Found(hash, c) => OnLedger(env, hash, c)
    case Loading(hash, r) => OnLedger(env, hash, env.keccak(r.userOpData))
    case Stepping(ref, pc) => ref < |s.jobs| && PcOk(env, s.trace, s.jobs[ref], pc)
    case Finished => true
  }

  /** A hash as a page spelled it, and the commitment on that transaction. */
  predicate OnLedger(env: Env, hash: string, commitment: string) {
    Store.IsCommitment(commitment) &&
    var txId := NormalizeXrplTxId(hash);
    txId.Some? ==> Watch.Commitment(env.ledger(txId.value)) == Some(commitment)
  }

  ghost predicate Inv(env: Env, s: State) {
    && Store.RecordsOk(env.keccak, s.store)
    && (forall id :: id in s.disk ==> JobOk(env, s.trace, s.disk[id]))
    && (forall k :: 0 <= k < |s.jobs| ==> JobOk(env, s.trace, s.jobs[k]))
    && (forall k :: 0 <= k < |s.tasks| ==> TaskOk(env, s, s.tasks[k]))
    && TraceOk(env, s.trace)
  }

  /** Every call was in order when it was made. */
  ghost predicate TraceOk(env: Env, trace: seq<Call>) {
    forall k :: 0 <= k < |trace| ==> CallOk(env, trace[..k], trace[k])
  }

  /** Pages tell the truth about the transactions they name. */
  predicate Truthful(env: Env, a: Action) {
    a.See? && Watch.IsPayment(a.entry) && Watch.HashOf(a.entry).Some? ==>
      var txId := NormalizeXrplTxId(Watch.HashOf(a.entry).value);
      txId.Some? ==> Watch.Commitment(Watch.Body(a.entry).value) == Watch.Commitment(env.ledger(txId.value))
  }

  // ------------------------------------------------------- one await to the next

  /** What a move of one task leaves for the others that hold the same job object. */
  predicate Grows(j: Job, k: Job) {
    && k.id == j.id && k.xrplTxId == j.xrplTxId && k.userOpData == j.userOpData
    && (j.request.Some? ==> k.request.Some?) && (j.roundId.Some? ==> k.roundId.Some?)
  }

  lemma CatchKeeps(env: Env, trace: seq<Call>, j: Job, e: StepError, w: World)
    requires JobOk(env, trace, j)
    ensures var m := Catch(j, e, w);
            && JobOk(env, trace + m.calls, m.job) && Grows(j, m.job)
            && PcOk(env, trace + m.calls, m.job, m.pc)
            && forall c :: c in m.calls ==> CallOk(env, trace, c)
  {
    var m := Catch(j, e, w);
    assert forall c :: c in trace ==> c in trace + m.calls;
  }

  lemma AdvanceKeeps(env: Env, trace: seq<Call>, j: Job, pc: Pc, w: World)
    requires JobOk(env, trace, j) && PcOk(env, trace, j, pc)
    ensures var m := Advance(j, pc, w);
            && JobOk(env, trace + m.calls, m.job) && Grows(j, m.job)
            && PcOk(env, trace + m.calls, m.job, m.pc)
            && forall c :: c in m.calls ==> CallOk(env, trace, c)
  {
    var m := Advance(j, pc, w);
    assert forall c :: c in trace ==> c in trace + m.calls;
    match pc
    case Preparing =>
      if w.prepared.Err? {
        CatchKeeps(env, trace, j, w.prepared.error, w);
      } else {
        assert GotRequest(j.xrplTxId, w.prepared.value) in trace + m.calls;
      }
    case Submitting => if w.submitted.Err? { CatchKeeps(env, trace, j, w.submitted.error, w); }
    case CheckingRound => if w.finalized.Err? { CatchKeeps(env, trace, j, w.finalized.error, w); }
    case Probing => if w.proof.Err? { CatchKeeps(env, trace, j, w.proof.error, w); }
    case Proving(_, _) => if w.proof.Err? { CatchKeeps(env, trace, j, w.proof.error, w); }
    case Sending(_) => if w.sent.Err? { CatchKeeps(env, trace, j, w.sent.error, w); }
    case Mining(hash, _) =>
      if w.receipt.Err? {
        CatchKeeps(env, trace, j, w.receipt.error, w);
      } else if w.receipt.value.reverted {
        CatchKeeps(env, trace, j, Revert(hash), w);
      }
    case _ =>
  }

  // ----------------------------------------------------- the whole, and any step

  lemma TraceGrows(env: Env, s: State, calls: seq<Call>)
    requires Inv(env, s)
    ensures forall id :: id in s.disk ==> JobOk(env, s.trace + calls, s.disk[id])
    ensures forall k :: 0 <= k < |s.jobs| ==> JobOk(env, s.trace + calls, s.jobs[k])
    ensures forall k :: 0 <= k < |s.tasks| && s.tasks[k].Stepping? ==>
      s.tasks[k].ref < |s.jobs| && PcOk(env, s.trace + calls, s.jobs[s.tasks[k].ref], s.tasks[k].pc)
  {
    assert forall c :: c in s.trace ==> c in s.trace + calls;
    forall k | 0 <= k < |s.tasks| && s.tasks[k].Stepping?
      ensures s.tasks[k].ref < |s.jobs| && PcOk(env, s.trace + calls, s.jobs[s.tasks[k].ref], s.tasks[k].pc)
    {
      assert TaskOk(env, s, s.tasks[k]);
    }
  }

  lemma PcSurvives(env: Env, trace: seq<Call>, j: Job, k: Job, pc: Pc)
    requires PcOk(env, trace, j, pc) && Grows(j, k)
    ensures PcOk(env, trace, k, pc)
  {
  }

  lemma StepResumed(env: Env, s: State, k: nat, w: World)
    requires Inv(env, s) && k < |s.tasks| && s.tasks[k].Stepping? && s.tasks[k].ref < |s.jobs|
    ensures Inv(env, ResumeTask(env, s, k, w))
  {
    var t := s.tasks[k];
    assert TaskOk(env, s, t);
    var j := s.jobs[t.ref];
    var m := Advance(j, t.pc, w);
    var n := ResumeTask(env, s, k, w);
    AdvanceKeeps(env, s.trace, j, t.pc, w);
    TraceGrows(env, s, m.calls);
    assert forall c :: c in s.trace ==> c in n.trace;
    forall i | 0 <= i < |n.tasks| ensures TaskOk(env, n, n.tasks[i]) {
      if i != k {
        assert TaskOk(env, s, s.tasks[i]);
        if s.tasks[i].Stepping? && s.tasks[i].ref == t.ref {
          PcSurvives(env, n.trace, j, m.job, s.tasks[i].pc);
        }
      }
    }
    forall i | 0 <= i < |n.trace| ensures CallOk(env, n.trace[..i], n.trace[i]) {
      if i < |s.trace| {
        assert n.trace[..i] == s.trace[..i];
      } else {
        assert n.trace[i] in m.calls;
        assert n.trace[..i] == s.trace + m.calls[..i - |s.trace|];
        assert forall c :: c in s.trace ==> c in n.trace[..i];
      }
    }
  }

  lemma TaskStays(env: Env, s: State, n: State, t: Task)
    requires TaskOk(env, s, t) && n.trace == s.trace && |s.jobs| <= |n.jobs|
    requires forall i :: 0 <= i < |s.jobs| ==> n.jobs[i] == s.jobs[i]
    ensures TaskOk(env, n, t)
  {
  }

  lemma OthersStay(env: Env, s: State, n: State, k: nat)
    requires Inv(env, s) && k < |s.tasks| && |n.tasks| == |s.tasks|
    requires n.trace == s.trace && |s.jobs| <= |n.jobs|
    requires forall i :: 0 <= i < |s.jobs| ==> n.jobs[i] == s.jobs[i]
    requires forall i :: 0 <= i < |s.tasks| && i != k ==> n.tasks[i] == s.tasks[i]
    requires TaskOk(env, n, n.tasks[k])
    ensures forall i :: 0 <= i < |n.tasks| ==> TaskOk(env, n, n.tasks[i])
  {
    forall i | 0 <= i < |n.tasks| ensures TaskOk(env, n, n.tasks[i]) {
      if i != k {
        TaskStays(env, s, n, s.tasks[i]);
      }
    }
  }

  lemma FiledUnder(env: Env, s: Store.Contents, c: string)
    requires Store.LowerHash(env.keccak) && Store.RecordsOk(env.keccak, s) && Store.IsCommitment(c)
    ensures c in s.memory ==> s.memory[c].commitment == env.keccak(s.memory[c].userOpData) == c
    ensures Store.FileOf(c) in s.disk ==>
              var r := s.disk[Store.FileOf(c)]; r.commitment == env.keccak(r.userOpData) == c
  {
    assert c == "0x" + c[2..];
  }

  lemma StoreKeeps(env: Env, s: Store.Contents, r: Store.PendingUserOp)
    requires Store.LowerHash(env.keccak) && Store.RecordsOk(env.keccak, s)
    requires r.commitment == env.keccak(r.userOpData)
    ensures Store.RecordsOk(env.keccak, s.(disk := s.disk[Store.FileOf(r.commitment) := r]))
    ensures Store.RecordsOk(env.keccak, s.(memory := s.memory[Lower(r.commitment) := r]))
  {
    var c := r.commitment;
    assert c == "0x" + c[2..];
    Store.LowerTail(c);
  }

  lemma LoadingResumed(env: Env, s: State, k: nat, w: World)
    requires Inv(env, s) && k < |s.tasks| && s.tasks[k].Loading?
    ensures Inv(env, ResumeTask(env, s, k, w))
  {
    var n := ResumeTask(env, s, k, w);
    assert TaskOk(env, s, s.tasks[k]);
    forall i | |s.jobs| <= i < |n.jobs| ensures JobOk(env, s.trace, n.jobs[i]) {
    }
    OthersStay(env, s, n, k);
  }

  lemma LookupResumed(env: Env, s: State, k: nat, w: World)
    requires Store.LowerHash(env.keccak) && Inv(env, s) && k < |s.tasks| && !s.tasks[k].Stepping?
    ensures Inv(env, ResumeTask(env, s, k, w))
  {
    var t := s.tasks[k];
    var n := ResumeTask(env, s, k, w);
    assert TaskOk(env, s, t);
    match t
    case Registering(r) =>
      StoreKeeps(env, s.store, r);
      OthersStay(env, s, n, k);
    case Getting(_, c, _) =>
      FiledUnder(env, s.store, c);
      OthersStay(env, s, n, k);
    case Caching(_, _, _, r) =>
      StoreKeeps(env, s.store, r);
      OthersStay(env, s, n, k);
    case Found(_, _) => OthersStay(env, s, n, k);
    case Loading(hash, r) => LoadingResumed(env, s, k, w);
    case Finished =>
  }

  lemma SpawnKeeps(env: Env, s: State, n: State, t: Task)
    requires Inv(env, s) && n.tasks == s.tasks + [t] && n.trace == s.trace && n.disk == s.disk
    requires Store.RecordsOk(env.keccak, n.store) && |s.jobs| <= |n.jobs|
    requires forall i :: 0 <= i < |s.jobs| ==> n.jobs[i] == s.jobs[i]
    requires forall i :: |s.jobs| <= i < |n.jobs| ==> JobOk(env, n.trace, n.jobs[i])
    requires TaskOk(env, n, t)
    ensures Inv(env, n)
  {
    forall i | 0 <= i < |n.tasks| ensures TaskOk(env, n, n.tasks[i]) {
      if i < |s.tasks| {
        TaskStays(env, s, n, s.tasks[i]);
      }
    }
  }

  lemma ReopenKeeps(env: Env, s: State, id: string, now: int)
    requires Inv(env, s) && TasksRefer(s)
    ensures Inv(env, Next(env, s, Reopen(id, now)))
  {
    var n := Next(env, s, Reopen(id, now));
    if id in s.disk {
      assert JobOk(env, s.trace, s.disk[id]);
      if s.disk[id].state == Failed {
        SpawnKeeps(env, s, n, Stepping(|s.jobs|, Saving));
      } else {
        forall i | 0 <= i < |n.tasks| ensures TaskOk(env, n, n.tasks[i]) {
          TaskStays(env, s, n, s.tasks[i]);
        }
      }
    }
  }

  lemma CrashKeeps(env: Env, s: State, killed: set<nat>)
    requires Inv(env, s) && TasksRefer(s)
    ensures Inv(env, Next(env, s, Crash(killed)))
  {
    var n := Next(env, s, Crash(killed));
    forall i | 0 <= i < |n.tasks| ensures TaskOk(env, n, n.tasks[i]) {
      assert TaskOk(env, s, s.tasks[i]);
    }
  }

  lemma TasksDoRefer(env: Env, s: State)
    requires Inv(env, s)
    ensures TasksRefer(s)
  {
    forall k | 0 <= k < |s.tasks| && s.tasks[k].Stepping? ensures s.tasks[k].ref < |s.jobs| {
      assert TaskOk(env, s, s.tasks[k]);
    }
  }

  /** Every step of the system keeps the invariant. */
  lemma NextKeeps(env: Env, s: State, a: Action)
    requires Store.LowerHash(env.keccak) && Inv(env, s) && Truthful(env, a)
    ensures TasksRefer(s) && Inv(env, Next(env, s, a))
  {
    TasksDoRefer(env, s);
    var n := Next(env, s, a);
    match a
    case Register(r, now) =>
      if Store.Accepts(env.keccak, r) {
        var record := Store.RecordOf(env.keccak, r, now);
        StoreKeeps(env, s.store, record);
        SpawnKeeps(env, s, n, Registering(record));
      }
    case See(e) =>
      if |n.tasks| > |s.tasks| {
        Watch.FoundIsCommitment(Watch.Body(e).value);
        SpawnKeeps(env, s, n, n.tasks[|s.tasks|]);
      }
    case Resume(k, w) =>
      if k < |s.tasks| {
        if s.tasks[k].Stepping? {
          StepResumed(env, s, k, w);
        } else {
          LookupResumed(env, s, k, w);
        }
      }
    case Drive(ref) =>
      if ref < |s.jobs| {
        SpawnKeeps(env, s, n, Stepping(ref, Start));
      }
    case Reopen(id, now) => ReopenKeeps(env, s, id, now);
    case Crash(killed) => CrashKeeps(env, s, killed);
  }
}
