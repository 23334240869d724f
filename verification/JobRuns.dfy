/**
 * Runs of one job under one driver: steps, restarts from disk, and crashes in
 * the middle of a step.
 */
module JobRuns {
  import opened Results
  import opened Jobs

  /** The job in the driver's memory and the one on disk. */
  datatype Driven = Driven(memory: Job, disk: Job)

  datatype Event =
    | Stepped(w: World)
    | Reloaded             // a crash or restart between steps
    | CrashedIn(w: World)  // a crash inside a step, after some of its calls and before its save

  function Apply(d: Driven, e: Event): Driven {
    match e
    case Stepped(w) => Driven(Step(d.memory, w), if Saves(d.memory, w) then Step(d.memory, w) else d.disk)
    case Reloaded => d.(memory := d.disk)
    case CrashedIn(_) => d.(memory := d.disk)
  }

  function Run(start: Job, events: seq<Event>): Driven {
    if events == [] then Driven(start, start) else Apply(Run(start, events[..|events| - 1]), events[|events| - 1])
  }

  /** The same run without its crashes: the answers each completed step got. */
  function Completed(events: seq<Event>): seq<World> {
    if events == [] then []
    else
      var rest := Completed(events[..|events| - 1]);
      var e := events[|events| - 1];
      if e.Stepped? then rest + [e.w] else rest
  }

  function Steps(start: Job, ws: seq<World>): Job {
    if ws == [] then start else Step(Steps(start, ws[..|ws| - 1]), ws[|ws| - 1])
  }

  /**
   * Crash and resume. A job that was on disk when the run began is on disk as it
   * is in memory after every event, and crashes leave no trace: the job is the
   * one the completed steps alone would have made.
   */
  lemma {:induction false} CrashesStutter(start: Job, events: seq<Event>)
    ensures Run(start, events) == Driven(Steps(start, Completed(events)), Steps(start, Completed(events)))
  {
    if events != [] {
      CrashesStutter(start, events[..|events| - 1]);
      var e := events[|events| - 1];
      if e.Stepped? {
        var rest := Completed(events[..|events| - 1]);
        assert (rest + [e.w])[..|rest|] == rest;
      }
    }
  }

  // ------------------------------------------- what is paid for, and how often

  /** How far a job has come; only a delayed mint ever goes back, and by one. */
  function Stage(s: JobState): nat {
    match s
    case Observed => 0
    case RequestPrepared => 1
    case RequestSubmitted => 2
    case RoundFinalized => 3
    case Delayed => 4
    case ProofFetched => 5
    case Executed => 6
    case Failed => 6
  }

  /** Errors of submission are never the lag of verifier or data-availability layer. */
  predicate SubmitErrorsAreHard(events: seq<Event>) {
    forall k :: 0 <= k < |events| && !events[k].Reloaded? && events[k].w.submitted.Err? ==>
      !events[k].w.submitted.error.retryable
  }

  /** Calls to submitRequest, crashed steps included. */
  function Submissions(start: Job, events: seq<Event>): nat {
    if events == [] then 0
    else
      var before := events[..|events| - 1];
      Submissions(start, before) +
      if !events[|events| - 1].Reloaded? && Run(start, before).memory.state == RequestPrepared then 1 else 0
  }

  function MidStepCrashes(events: seq<Event>): nat {
    if events == [] then 0
    else MidStepCrashes(events[..|events| - 1]) + if events[|events| - 1].CrashedIn? then 1 else 0
  }

  /** Completed steps that recorded a voting round. */
  function RoundsRecorded(start: Job, events: seq<Event>): nat {
    if events == [] then 0
    else
      var before := events[..|events| - 1];
      var e := events[|events| - 1];
      RoundsRecorded(start, before) +
      if e.Stepped? && Run(start, before).memory.state == RequestPrepared && e.w.submitted.Ok? then 1 else 0
  }

  /** What a job's state says of the fees paid for it and the rounds recorded. */
  predicate Paid(j: Job, paid: int, rounds: nat) {
    && (j.state == Observed ==> paid <= 0 && rounds == 0)
    && (j.state == RequestPrepared ==> paid <= j.attempts < 5 && rounds == 0)
    && paid <= 5 && rounds <= 1
  }

  lemma PaidStep(j: Job, w: World, paid: int, rounds: nat)
    requires Paid(j, paid, rounds) && (w.submitted.Err? ==> !w.submitted.error.retryable)
    ensures Paid(Step(j, w),
                 paid + (if j.state == RequestPrepared then 1 else 0),
                 rounds + (if j.state == RequestPrepared && w.submitted.Ok? then 1 else 0))
  {
  }

  lemma {:induction false} SubmissionAccount(start: Job, events: seq<Event>)
    requires start.state == Observed && SubmitErrorsAreHard(events)
    ensures Run(start, events).disk == Run(start, events).memory
    ensures Paid(Run(start, events).memory,
                 Submissions(start, events) - MidStepCrashes(events), RoundsRecorded(start, events))
  {
    if events != [] {
      var before, e := events[..|events| - 1], events[|events| - 1];
      SubmissionAccount(start, before);
      if e.Stepped? {
        PaidStep(Run(start, before).memory, e.w,
                 Submissions(start, before) - MidStepCrashes(before), RoundsRecorded(start, before));
      }
    }
  }

  /**
   * Attestation fees are bounded. From a fresh job, or one reset by hand, until
   * the next reset: submitRequest is called at most five times, and once more for
   * each crash inside a step; a round is recorded at most once.
   */
  lemma FeesBounded(start: Job, events: seq<Event>)
    requires start.state == Observed && SubmitErrorsAreHard(events)
    ensures Submissions(start, events) <= 5 + MidStepCrashes(events)
    ensures RoundsRecorded(start, events) <= 1
  {
    SubmissionAccount(start, events);
  }

  lemma FinalStays(j: Job, w: World)
    requires Stage(j.state) >= 3
    ensures Stage(Step(j, w).state) >= 3
  {
  }

  /** Once its round is final, no crash, delay or error ever sends a job back to paying for an attestation. */
  lemma {:induction false} NoSecondAttestation(start: Job, ws: seq<World>, n: nat)
    requires n <= |ws| && Stage(Steps(start, ws[..n]).state) >= 3
    ensures Stage(Steps(start, ws).state) >= 3
    decreases |ws|
  {
    if n == |ws| {
      assert ws[..n] == ws;
    } else {
      var init := ws[..|ws| - 1];
      assert init[..n] == ws[..n];
      NoSecondAttestation(start, init, n);
      FinalStays(Steps(start, init), ws[|ws| - 1]);
    }
  }

  // --------------------------------------------------------------- when jobs fail

  datatype Kind = Waited | Progressed | Threw(retryable: bool) | RaceLost

  function KindOf(j: Job, w: World): Kind {
    match Try(j, w)
    case Waits => Waited
    case Succeeds(_) => Progressed
    case Throws(k, e) => if LostRace(k, e, w) then RaceLost else Threw(e.retryable)
  }

  function Kinds(start: Job, ws: seq<World>): seq<Kind> {
    if ws == [] then []
    else Kinds(start, ws[..|ws| - 1]) + [KindOf(Steps(start, ws[..|ws| - 1]), ws[|ws| - 1])]
  }

  /** Steps that threw since the last one that progressed; polls that only wait do not count. */
  function Throws(kinds: seq<Kind>): nat {
    if kinds == [] then 0
    else
      match kinds[|kinds| - 1]
      case Progressed => 0
      case Threw(_) => Throws(kinds[..|kinds| - 1]) + 1
      case _ => Throws(kinds[..|kinds| - 1])
  }

  /** At position k a hard error is at least the fifth error of any kind in a row. */
  predicate Fatal(kinds: seq<Kind>, k: nat)
    requires k < |kinds|
  {
    kinds[k] == Threw(false) && Throws(kinds[..k + 1]) >= 5
  }

  lemma {:induction false} AttemptsCount(start: Job, ws: seq<World>)
    requires start.attempts == 0
    ensures |Kinds(start, ws)| == |ws|
    ensures Steps(start, ws).attempts == Throws(Kinds(start, ws))
  {
    if ws != [] {
      var n := |ws| - 1;
      AttemptsCount(start, ws[..n]);
      assert Kinds(start, ws)[..n] == Kinds(start, ws[..n]);
    }
  }

  lemma FailsAt(j: Job, w: World)
    requires j.state != Failed
    ensures Step(j, w).state == Failed <==> KindOf(j, w) == Threw(false) && j.attempts + 1 >= 5
  {
  }

  lemma FatalPrefix(start: Job, ws: seq<World>, k: nat)
    requires start.attempts == 0 && k + 1 < |ws|
    ensures |Kinds(start, ws)| == |ws| && |Kinds(start, ws[..|ws| - 1])| == |ws| - 1
    ensures Fatal(Kinds(start, ws), k) <==> Fatal(Kinds(start, ws[..|ws| - 1]), k)
  {
    AttemptsCount(start, ws);
    AttemptsCount(start, ws[..|ws| - 1]);
    assert Kinds(start, ws)[..k + 1] == Kinds(start, ws[..|ws| - 1])[..k + 1];
  }

  lemma FatalLast(start: Job, ws: seq<World>)
    requires start.attempts == 0 && ws != [] && Steps(start, ws[..|ws| - 1]).state != Failed
    ensures |Kinds(start, ws)| == |ws|
    ensures Steps(start, ws).state == Failed <==> Fatal(Kinds(start, ws), |ws| - 1)
  {
    var n := |ws| - 1;
    AttemptsCount(start, ws);
    AttemptsCount(start, ws[..n]);
    FailsAt(Steps(start, ws[..n]), ws[n]);
    assert Kinds(start, ws)[..n + 1] == Kinds(start, ws);
    assert Kinds(start, ws)[..n] == Kinds(start, ws[..n]);
  }

  /** A step after which some step was fatal. */
  ghost predicate SomeFatal(kinds: seq<Kind>) {
    exists k :: 0 <= k < |kinds| && Fatal(kinds, k)
  }

  /**
   * When a job fails, exactly. The attempts counter is the number of errors since
   * the last progress; and the job has failed if and only if, at some step, a
   * non-retryable error was at least the fifth error of any kind in a row.
   */
  lemma {:induction false} FailureCharacterized(start: Job, ws: seq<World>)
    requires start.attempts == 0 && start.state != Failed
    ensures Steps(start, ws).attempts == Throws(Kinds(start, ws))
    ensures Steps(start, ws).state == Failed <==> SomeFatal(Kinds(start, ws))
  {
    AttemptsCount(start, ws);
    if ws != [] {
      var n := |ws| - 1;
      FailureCharacterized(start, ws[..n]);
      AttemptsCount(start, ws[..n]);
      var before, after := Kinds(start, ws[..n]), Kinds(start, ws);
      forall k | 0 <= k < n ensures Fatal(after, k) <==> Fatal(before, k) {
        FatalPrefix(start, ws, k);
      }
      if Steps(start, ws[..n]).state == Failed {
        var k :| 0 <= k < n && Fatal(before, k);
        assert Fatal(after, k);
      } else {
        FatalLast(start, ws);
        assert forall k :: 0 <= k < n ==> !Fatal(before, k);
      }
    }
  }

  /**
   * Lag does count towards the five: after four errors of any kind in a row, the
   * next hard error fails the job, be it the first.
   */
  lemma LagCounts(start: Job, ws: seq<World>, w: World)
    requires start.attempts == 0 && Throws(Kinds(start, ws)) >= 4
    requires !Terminal(Steps(start, ws).state) && KindOf(Steps(start, ws), w) == Threw(false)
    ensures Steps(start, ws + [w]).state == Failed
  {
    AttemptsCount(start, ws);
    FailsAt(Steps(start, ws), w);
    var all := ws + [w];
    assert all[..|all| - 1] == ws && all[|all| - 1] == w;
  }

  function FreshJob(id: string): Job {
    Job(id, Observed, "0x" + id, "0x", 0, "0x00", 0, None, None, None, None, 0, None, 0)
  }

  /** A world in which the verifier answers a request with this error. */
  function Refusing(e: StepError): World {
    World(0, Err(e), Ok(0), Ok(true), Ok("0x"), Ok("0x"), Ok(Receipt(false, [])), Ok(false), 0)
  }

  /** The job of the example after n errors. */
  function Erring(id: string, n: nat, e: StepError): Job {
    FreshJob(id).(attempts := n, lastError := Some(e.message))
  }

  lemma {:induction false} LagSteps(id: string, n: nat, e: StepError)
    requires n <= 4 && e.retryable
    ensures Steps(FreshJob(id), seq(n, _ => Refusing(e))) == if n == 0 then FreshJob(id) else Erring(id, n, e)
  {
    if n > 0 {
      var ws := seq(n, _ => Refusing(e));
      LagSteps(id, n - 1, e);
      assert ws[..n - 1] == seq(n - 1, _ => Refusing(e));
    }
  }

  /** Four answers that the verifier lags and one hard error: the job has failed, after one hard error. */
  lemma LagFails(id: string, lag: StepError, hard: StepError)
    requires lag.retryable && !hard.retryable
    ensures Steps(FreshJob(id), seq(4, _ => Refusing(lag)) + [Refusing(hard)]).state == Failed
  {
    LagSteps(id, 4, lag);
    StepsSnoc(FreshJob(id), seq(4, _ => Refusing(lag)), Refusing(hard));
  }

  lemma StepsSnoc(start: Job, ws: seq<World>, w: World)
    ensures Steps(start, ws + [w]) == Step(Steps(start, ws), w)
  {
    assert (ws + [w])[..|ws|] == ws;
  }

  /** Verifier and data-availability lag alone never fails a job, however long it lasts. */
  lemma LagNeverFails(start: Job, ws: seq<World>)
    requires start.attempts == 0 && start.state != Failed
    requires forall k :: 0 <= k < |ws| ==> Threw(false) != KindOf(Steps(start, ws[..k]), ws[k])
    ensures Steps(start, ws).state != Failed
  {
    FailureCharacterized(start, ws);
    AttemptsCount(start, ws);
    forall k | 0 <= k < |ws| ensures !Fatal(Kinds(start, ws), k) {
      KindAt(start, ws, k);
    }
  }

  lemma {:induction false} KindsLength(start: Job, ws: seq<World>)
    ensures |Kinds(start, ws)| == |ws|
  {
    if ws != [] {
      KindsLength(start, ws[..|ws| - 1]);
    }
  }

  lemma {:induction false} KindAt(start: Job, ws: seq<World>, k: nat)
    requires k < |ws|
    ensures |Kinds(start, ws)| == |ws| && Kinds(start, ws)[k] == KindOf(Steps(start, ws[..k]), ws[k])
    decreases |ws|
  {
    var n := |ws| - 1;
    var init := ws[..n];
    KindsLength(start, ws);
    KindsLength(start, init);
    assert Kinds(start, ws) == Kinds(start, init) + [KindOf(Steps(start, init), ws[n])];
    if k < n {
      KindAt(start, init, k);
      assert init[..k] == ws[..k] && init[k] == ws[k];
      assert Kinds(start, ws)[k] == Kinds(start, init)[k];
    }
  }

  // ------------------------------------------------------------------- success

  /** Steps still to take when every answer is the one hoped for. */
  function ToGo(s: JobState): nat {
    match s
    case Observed => 5
    case RequestPrepared => 4
    case RequestSubmitted => 3
    case RoundFinalized => 2
    case Delayed => 2
    case ProofFetched => 1
    case Executed => 0
    case Failed => 0
  }

  /** Every call succeeds, the mint is not delayed, and an earlier delay is over. */
  predicate GoesWell(w: World, allowed: Option<int>) {
    && w.prepared.Ok? && w.submitted.Ok? && w.finalized == Ok(true) && w.proof.Ok? && w.sent.Ok?
    && w.receipt.Ok? && !w.receipt.value.reverted && FirstDelay(w.receipt.value.logs).None?
    && (allowed.Some? ==> allowed.value <= w.now)
  }

  lemma WellStep(j: Job, w: World)
    requires j.state != Failed && GoesWell(w, j.executionAllowedAt)
    ensures var k := Step(j, w);
            && k.state != Failed && k.executionAllowedAt == j.executionAllowedAt
            && ToGo(k.state) == if ToGo(j.state) == 0 then 0 else ToGo(j.state) - 1
  {
  }

  /**
   * A job succeeds. While every call succeeds without a new delay, a job that has
   * not failed is executed if and only if it has taken as many steps as its state
   * needs, which is never more than five.
   */
  lemma {:induction false} Succeeds(start: Job, ws: seq<World>)
    requires start.state != Failed
    requires forall k :: 0 <= k < |ws| ==> GoesWell(ws[k], start.executionAllowedAt)
    ensures var j := Steps(start, ws);
            && j.state != Failed && j.executionAllowedAt == start.executionAllowedAt
            && ToGo(j.state) == (if |ws| >= ToGo(start.state) then 0 else ToGo(start.state) - |ws|)
            && (j.state == Executed <==> |ws| >= ToGo(start.state))
  {
    if ws != [] {
      Succeeds(start, ws[..|ws| - 1]);
      WellStep(Steps(start, ws[..|ws| - 1]), ws[|ws| - 1]);
    }
  }

  // ------------------------------------------------------------------ rate limits

  /** The clock does not run backwards and has passed the epoch. */
  predicate Monotone(ws: seq<World>) {
    && (forall k :: 0 <= k < |ws| ==> ws[k].now >= 0)
    && (forall i, k :: 0 <= i <= k < |ws| ==> ws[i].now <= ws[k].now)
  }

  /** The k-th step called executeDirectMintingWithData. */
  predicate Executes(start: Job, ws: seq<World>, k: nat)
    requires k < |ws|
  {
    Steps(start, ws[..k]).state == ProofFetched && ws[k].proof.Ok?
  }

  /** The k-th step recorded a delay until time d, in milliseconds. */
  predicate RecordsDelay(start: Job, ws: seq<World>, k: nat, d: int)
    requires k < |ws|
  {
    && Steps(start, ws[..k]).state == ProofFetched
    && Steps(start, ws[..k + 1]).state == Delayed
    && Steps(start, ws[..k + 1]).executionAllowedAt == Some(d)
  }

  lemma MonotonePrefix(ws: seq<World>, n: nat)
    requires Monotone(ws) && n <= |ws|
    ensures Monotone(ws[..n])
  {
  }

  lemma DelayStep(j: Job, w: World, d: int)
    requires j.state == Delayed && j.executionAllowedAt == Some(d) && w.now >= 0
    ensures var k := Step(j, w); (k.state == Delayed && k.executionAllowedAt == Some(d)) || w.now >= d
  {
  }

  /** Execution is not allowed before d, and if the job no longer says so, d has come. */
  predicate Held(j: Job, now: int, d: int) {
    (j.state == Delayed && j.executionAllowedAt == Some(d)) || now >= d
  }

  lemma HeldStep(j: Job, before: int, w: World, d: int)
    requires Held(j, before, d) && before <= w.now && w.now >= 0
    ensures Held(Step(j, w), w.now, d)
  {
    if before < d {
      DelayStep(j, w, d);
    }
  }

  lemma RecordsDelayPrefix(start: Job, ws: seq<World>, n: nat, i: nat, d: int)
    requires i < n <= |ws|
    ensures RecordsDelay(start, ws[..n], i, d) <==> RecordsDelay(start, ws, i, d)
  {
    assert ws[..n][..i] == ws[..i] && ws[..n][..i + 1] == ws[..i + 1];
  }

  lemma {:induction false} DelayHolds(start: Job, ws: seq<World>, i: nat, d: int)
    requires Monotone(ws) && i < |ws| && RecordsDelay(start, ws, i, d)
    ensures Held(Steps(start, ws), ws[|ws| - 1].now, d)
    decreases |ws|
  {
    var n := |ws| - 1;
    if i < n {
      var init := ws[..n];
      RecordsDelayPrefix(start, ws, n, i, d);
      MonotonePrefix(ws, n);
      DelayHolds(start, init, i, d);
      assert init[|init| - 1] == ws[n - 1];
      HeldStep(Steps(start, init), ws[n - 1].now, ws[n], d);
    } else {
      assert ws[..i + 1] == ws;
    }
  }

  /**
   * Delays are respected. Once a step has recorded that execution is allowed from
   * time d, no later step calls for execution before the clock reads d.
   */
  lemma DelayRespected(start: Job, ws: seq<World>, i: nat, k: nat, d: int)
    requires Monotone(ws) && i < k < |ws| && RecordsDelay(start, ws, i, d) && Executes(start, ws, k)
    ensures ws[k].now >= d
  {
    RecordsDelayPrefix(start, ws, k, i, d);
    MonotonePrefix(ws, k);
    DelayHolds(start, ws[..k], i, d);
  }
}
