/**
 * The executor pipeline in place: live job objects, the state directory, and the
 * loop that drives one job to its end.
 */
module Pipeline {
  import opened Results
  import J = Jobs
  import JobRuns

  class LiveJob {
    const id: string
    var state: J.JobState
    const xrplTxId: string
    const userOpData: string
    const totalCallValue: int
    const personalAccount: string
    const nonce: int
    var request: Option<string>
    var roundId: Option<int>
    var flareTxHash: Option<string>
    var executionAllowedAt: Option<int>
    var attempts: nat
    var lastError: Option<string>
    var updatedAt: int

    constructor (j: J.Job)
      ensures Snapshot() == j
    {
      id, state, xrplTxId, userOpData := j.id, j.state, j.xrplTxId, j.userOpData;
      totalCallValue, personalAccount, nonce := j.totalCallValue, j.personalAccount, j.nonce;
      request, roundId, flareTxHash, executionAllowedAt := j.request, j.roundId, j.flareTxHash, j.executionAllowedAt;
      attempts, lastError, updatedAt := j.attempts, j.lastError, j.updatedAt;
    }

    /** The job as JSON.stringify sees it. */
    function Snapshot(): J.Job
      reads this
    {
      J.Job(id, state, xrplTxId, userOpData, totalCallValue, personalAccount, nonce,
            request, roundId, flareTxHash, executionAllowedAt, attempts, lastError, updatedAt)
    }
  }

  method FindDelayedEvent(logs: seq<J.Log>) returns (at: Option<int>)
    ensures at == J.FirstDelay(logs)
    ensures at.Some? ==> exists k ::
      && 0 <= k < |logs| && J.DelayOf(logs[k]) == at
      && forall i :: 0 <= i < k ==> J.DelayOf(logs[i]).None?
    ensures at.None? ==> forall k :: 0 <= k < |logs| ==> J.DelayOf(logs[k]).None?
  {
    for k := 0 to |logs|
      invariant J.FirstDelay(logs) == J.FirstDelay(logs[k..])
      invariant forall i :: 0 <= i < k ==> J.DelayOf(logs[i]).None?
    {
      assert logs[k..][1..] == logs[k + 1..];
      var entry := logs[k];
      if entry.Event? && (entry.name == "DirectMintingDelayed" || entry.name == "LargeDirectMintingDelayed") {
        if entry.executionAllowedAt.Some? {
          assert J.DelayOf(logs[k]) == entry.executionAllowedAt;
          return entry.executionAllowedAt;
        }
      }
    }
    return None;
  }

  class ExecutorPipeline {
    /** The files of the state directory, by job id. */
    var disk: map<string, J.Job>

    constructor (disk: map<string, J.Job>)
      ensures this.disk == disk
    {
      this.disk := disk;
    }

    method Load(id: string) returns (job: LiveJob?)
      ensures job == null <==> id !in disk
      ensures job != null ==> fresh(job) && job.Snapshot() == disk[id]
    {
      if id !in disk {
        return null;
      }
      job := new LiveJob(disk[id]);
    }

    method Save(job: LiveJob, now: int)
      modifies this, job`updatedAt
      ensures job.Snapshot() == old(job.Snapshot()).(updatedAt := now)
      ensures disk == old(disk)[job.id := job.Snapshot()]
    {
      job.updatedAt := now;
      disk := disk[job.id := job.Snapshot()];
    }

    /**
     * A job for a payment: the one on disk if there is one, else a new one, saved.
     * Either way the object returned is what the disk holds for it.
     */
    method Create(xrplTxId: string, userOpData: string, totalCallValue: int, personalAccount: string,
                  nonce: int, now: int)
      returns (job: LiveJob?)
      modifies this
      ensures job == null <==> J.NormalizeXrplTxId(xrplTxId).None?
      ensures job == null ==> disk == old(disk)
      ensures job != null ==>
                var id := J.NormalizeXrplTxId(xrplTxId).value[2..];
                && fresh(job) && disk == old(disk)[id := job.Snapshot()]
                && job.Snapshot() ==
                   if id in old(disk) then old(disk)[id]
                   else J.Job(id, J.Observed, J.NormalizeXrplTxId(xrplTxId).value, userOpData, totalCallValue,
                              personalAccount, nonce, None, None, None, None, 0, None, now)
    {
      var normal := J.NormalizeXrplTxId(xrplTxId);
      if normal.None? {
        return null;
      }
      var id := normal.value[2..];
      job := Load(id);
      if job != null {
        assert disk == disk[id := disk[id]];
        return job;
      }
      job := new LiveJob(J.Job(id, J.Observed, normal.value, userOpData, totalCallValue, personalAccount, nonce,
                               None, None, None, None, 0, None, now));
      Save(job, now);
    }

    /**
     * One step. Whatever the world answers, the job becomes what Jobs.Step says;
     * and if the disk held the job before, it holds the job after.
     */
    method Step(job: LiveJob, w: J.World)
      modifies this, job
      ensures job.Snapshot() == J.Step(old(job.Snapshot()), w)
      ensures disk == if J.Saves(old(job.Snapshot()), w) then old(disk)[job.id := job.Snapshot()] else old(disk)
      ensures old(OnDisk(job)) ==> OnDisk(job)
    {
      var done, error := TryStep(job, w);
      if error.None? {
        if !done {
          return;
        }
        job.attempts := 0;
        job.lastError := None;
      } else {
        var e := error.value;
        if job.state == J.ProofFetched && J.IsAlreadyConfirmed(e) && IsTransactionUsed(w) {
          job.state := J.Executed;
          job.lastError := None;
          Save(job, w.savedAt);
          return;
        }
        job.attempts := job.attempts + 1;
        job.lastError := Some(e.message);
        if !e.retryable && job.attempts >= 5 {
          job.state := J.Failed;
        }
      }
      Save(job, w.savedAt);
    }

    /** A step of a job the disk has as it is. */
    method StepOnDisk(job: LiveJob, w: J.World)
      requires OnDisk(job)
      modifies this, job
      ensures job.Snapshot() == J.Step(old(job.Snapshot()), w) && disk == old(disk)[job.id := job.Snapshot()]
    {
      Step(job, w);
      assert disk == old(disk)[job.id := job.Snapshot()];
    }

    /** The body of the try block: done is false when the step has nothing to do yet. */
    method TryStep(job: LiveJob, w: J.World) returns (done: bool, error: Option<J.StepError>)
      modifies job
      ensures var a := J.Try(old(job.Snapshot()), w);
              && (a.Waits? <==> !done && error.None?)
              && (a.Waits? ==> job.Snapshot() == old(job.Snapshot()))
              && (a.Succeeds? ==> done && error.None? && job.Snapshot() == a.job)
              && (a.Throws? ==> error == Some(a.error) && job.Snapshot() == a.job)
    {
      done, error := true, None;
      match job.state
      case Observed =>
        if w.prepared.Err? {
          return false, Some(w.prepared.error);
        }
        job.request := Some(w.prepared.value);
        job.state := J.RequestPrepared;
      case RequestPrepared =>
        if w.submitted.Err? {
          return false, Some(w.submitted.error);
        }
        job.roundId := Some(w.submitted.value);
        job.state := J.RequestSubmitted;
      case RequestSubmitted =>
        if w.finalized.Err? {
          return false, Some(w.finalized.error);
        }
        if !w.finalized.value {
          return false, None;
        }
        job.state := J.RoundFinalized;
      case RoundFinalized =>
        if w.proof.Err? {
          return false, Some(w.proof.error);
        }
        job.state := J.ProofFetched;
      case Delayed =>
        if job.executionAllowedAt.Some? && job.executionAllowedAt.value != 0 && w.now < job.executionAllowedAt.value {
          return false, None;
        }
        job.state := J.ProofFetched;
      case ProofFetched =>
        if w.proof.Err? {
          return false, Some(w.proof.error);
        }
        if w.sent.Err? {
          return false, Some(w.sent.error);
        }
        job.flareTxHash := Some(w.sent.value);
        if w.receipt.Err? {
          return false, Some(w.receipt.error);
        }
        if w.receipt.value.reverted {
          return false, Some(J.Revert(w.sent.value));
        }
        var delay := FindDelayedEvent(w.receipt.value.logs);
        if delay.Some? {
          job.executionAllowedAt := Some(delay.value * 1000);
          job.state := J.Delayed;
        } else {
          job.state := J.Executed;
        }
      case Executed =>
        done := false;
      case Failed =>
        done := false;
    }

    /** A read that throws counts as "not used". */
    function IsTransactionUsed(w: J.World): bool {
      w.used.Ok? && w.used.value
    }

    /** The n-th turn of the loop. */
    method Turn(job: LiveJob, worlds: nat -> J.World, n: nat, ghost start: J.Job)
      requires job.Snapshot() == After(start, worlds, n)
      modifies this, job
      ensures job.Snapshot() == After(start, worlds, n + 1)
      ensures old(OnDisk(job)) ==> OnDisk(job)
    {
      Step(job, worlds(n));
    }

    /** The disk has the job as it is in memory. */
    predicate OnDisk(job: LiveJob)
      reads this, job
    {
      job.id in disk && disk[job.id] == job.Snapshot()
    }

    /**
     * Drive a job. The n-th turn of the loop reads the clock as worlds(n).now and
     * its step is answered by worlds(n). The loop stops at the first turn that
     * finds the job terminal or the deadline passed, and it does stop: a turn
     * that sleeps or mines takes time, and the others bring the job nearer to its end.
     */
    method Run(job: LiveJob, worlds: nat -> J.World, deadline: int) returns (ghost turns: nat)
      requires TimePasses(job.Snapshot(), worlds)
      modifies this, job
      ensures job.Snapshot() == After(old(job.Snapshot()), worlds, turns)
      ensures job.state == J.Executed || job.state == J.Failed || worlds(turns).now > deadline
      ensures Busy(old(job.Snapshot()), worlds, turns, deadline)
      ensures old(OnDisk(job)) ==> OnDisk(job)
    {
      ghost var start := job.Snapshot();
      var n := 0;
      turns := 0;
      while job.state != J.Executed && job.state != J.Failed
        invariant turns == n && job.Snapshot() == After(start, worlds, n)
        invariant Busy(start, worlds, n, deadline)
        invariant old(OnDisk(job)) ==> OnDisk(job)
        decreases TimeLeft(worlds(n).now, deadline), StagesLeft(start, worlds, n)
      {
        if worlds(n).now > deadline {
          return;
        }
        TurnCloser(start, worlds, n, deadline);
        BusyMore(start, worlds, n, deadline);
        Turn(job, worlds, n, start);
        n := n + 1;
        turns := n;
      }
    }
  }

  /** The first n turns each found the job unfinished and the deadline not passed. */
  ghost predicate Busy(j: J.Job, worlds: nat -> J.World, n: nat, deadline: int) {
    forall k: nat :: k < n ==> BusyAt(j, worlds, k, deadline)
  }

  predicate BusyAt(j: J.Job, worlds: nat -> J.World, k: nat, deadline: int) {
    var state := After(j, worlds, k).state;
    state != J.Executed && state != J.Failed && worlds(k).now <= deadline
  }

  lemma BusyMore(j: J.Job, worlds: nat -> J.World, n: nat, deadline: int)
    requires Busy(j, worlds, n, deadline) && BusyAt(j, worlds, n, deadline)
    ensures Busy(j, worlds, n + 1, deadline)
  {
    forall k: nat | k < n + 1 ensures BusyAt(j, worlds, k, deadline) {
      assert k < n ==> BusyAt(j, worlds, k, deadline);
    }
  }

  /** A turn leaves less time, or as much time and fewer stages. */
  lemma TurnCloser(start: J.Job, worlds: nat -> J.World, n: nat, deadline: int)
    requires TimePasses(start, worlds) && worlds(n).now <= deadline
    ensures var before, after := TimeLeft(worlds(n).now, deadline), TimeLeft(worlds(n + 1).now, deadline);
            after < before || (after == before && StagesLeft(start, worlds, n + 1) < StagesLeft(start, worlds, n))
  {
    TurnProgress(After(start, worlds, n), worlds(n));
    assert TakesTime(After(start, worlds, n), worlds(n)) || !TakesTime(After(start, worlds, n), worlds(n));
  }

  function StagesLeft(start: J.Job, worlds: nat -> J.World, n: nat): (left: nat) {
    7 - JobRuns.Stage(After(start, worlds, n).state)
  }

  /** The job after n turns of the loop. */
  function After(j: J.Job, worlds: nat -> J.World, n: nat): J.Job {
    if n == 0 then j else J.Step(After(j, worlds, n - 1), worlds(n - 1))
  }

  /** A turn that leaves the state as it was sleeps; one that mines waits for a block. */
  predicate TakesTime(j: J.Job, w: J.World) {
    J.Step(j, w).state == j.state || (j.state == J.ProofFetched && w.receipt.Ok?)
  }

  function TimeLeft(now: int, deadline: int): nat {
    if now <= deadline then deadline - now + 1 else 0
  }

  /** A turn that takes no time brings the job a stage nearer to its end. */
  lemma TurnProgress(j: J.Job, w: J.World)
    ensures !TakesTime(j, w) ==> JobRuns.Stage(J.Step(j, w).state) > JobRuns.Stage(j.state)
  {
  }

  ghost predicate TimePasses(j: J.Job, worlds: nat -> J.World) {
    forall n: nat {:trigger TakesTime(After(j, worlds, n), worlds(n))} :: worlds(n).now <= worlds(n + 1).now &&
      (TakesTime(After(j, worlds, n), worlds(n)) ==> worlds(n).now < worlds(n + 1).now)
  }

  /** A turn of the loop is a step of the one-driver run, so all that is proved there holds of Run. */
  lemma {:induction false} AfterIsSteps(j: J.Job, worlds: nat -> J.World, n: nat)
    ensures After(j, worlds, n) == JobRuns.Steps(j, seq(n, k requires 0 <= k < n => worlds(k)))
  {
    if n > 0 {
      AfterIsSteps(j, worlds, n - 1);
      var ws := seq(n, k requires 0 <= k < n => worlds(k));
      assert ws[..n - 1] == seq(n - 1, k requires 0 <= k < n - 1 => worlds(k));
    }
  }
}
