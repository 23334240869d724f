/**
 * The executor service: intake of registrations, and the tick that polls the
 * watcher, creates jobs and takes every live job one step. Ticks here do not
 * overlap; overlapping ones are among the runs of Executor.
 */
module Service {
  import opened Results
  import J = Jobs
  import JobRuns
  import P = Pipeline
  import Store
  import Watch

  /** The body of POST /register, as parsed. */
  datatype Body = Body(
    userOpData: Option<string>,
    commitment: Option<string>,
    personalAccount: Option<string>,
    nonce: Option<string>,
    totalCallValue: Option<string>,
    summary: Option<string>)

  datatype Reply = BadRequest | Refused(error: Store.Mismatch) | Accepted(commitment: string)

  function OrElse(o: Option<string>, otherwise: string): string {
    if o.Some? then o.value else otherwise
  }

  predicate Complete(b: Body) {
    OrElse(b.userOpData, "") != "" && OrElse(b.personalAccount, "") != ""
  }

  function RegistrationOf(b: Body): Store.Registration
    requires Complete(b)
  {
    Store.Registration(b.userOpData.value, b.personalAccount.value, OrElse(b.nonce, "0"),
                       OrElse(b.totalCallValue, "0"), OrElse(b.summary, "(unlabelled)"), b.commitment)
  }

  /** What survives a poll unchanged, and what the service holds in memory. */
  datatype Svc = Svc(
    files: map<string, Store.PendingUserOp>,   // of the store
    watch: Watch.State,
    disk: map<string, J.Job>,                  // of the pipeline
    live: map<string, J.Job>)

  /** What does not change: the hash, and BigInt's reading of text. */
  datatype Env = Env(keccak: string -> string, number: string -> Option<int>)

  /** When each payment's job is made, if this tick makes it. */
  type Clock = string -> int

  // ---------------------------------------------------------------- the operations

  function Intake(env: Env, s: Svc, b: Body, now: int): (Svc, Reply) {
    if !Complete(b) then (s, BadRequest)
    else
      var r := RegistrationOf(b);
      var hash := env.keccak(r.userOpData);
      if !Store.Accepts(env.keccak, r) then (s, Refused(Store.Mismatch(r.claimed.value, hash)))
      else (s.(files := s.files[Store.FileOf(hash) := Store.RecordOf(env.keccak, r, now)]), Accepted(hash))
  }

  /** The commitments the store answers for, when its cache agrees with its files. */
  function Held(files: map<string, Store.PendingUserOp>): set<string> {
    set f | f in files && Store.IsCommitment("0x" + f) :: "0x" + f
  }

  /** create throws for a text that is no number or a hash that is none. */
  predicate Creatable(env: Env, r: Store.PendingUserOp, hash: string) {
    env.number(r.totalCallValue).Some? && env.number(r.nonce).Some? && J.NormalizeXrplTxId(hash).Some?
  }

  function NewJob(env: Env, r: Store.PendingUserOp, hash: string, now: int): J.Job
    requires Creatable(env, r, hash)
  {
    var normal := J.NormalizeXrplTxId(hash).value;
    J.Job(normal[2..], J.Observed, normal, r.userOpData, env.number(r.totalCallValue).value, r.personalAccount,
          env.number(r.nonce).value, None, None, None, None, 0, None, now)
  }

  function Enter(env: Env, s: Svc, r: Store.PendingUserOp, hash: string, now: int): Svc
    requires Creatable(env, r, hash)
  {
    var id := J.NormalizeXrplTxId(hash).value[2..];
    var job := if id in s.disk then s.disk[id] else NewJob(env, r, hash, now);
    s.(disk := s.disk[id := job], live := s.live[hash := job])
  }

  /** One turn of a tick's first loop; false when creating the job throws. */
  function AdmitOne(env: Env, s: Svc, o: Watch.ObservedPayment, clock: Clock): (Svc, bool) {
    if o.xrplTxId in s.live || Store.FileOf(o.commitment) !in s.files then (s, true)
    else
      var r := s.files[Store.FileOf(o.commitment)];
      if !Creatable(env, r, o.xrplTxId) then (s, false) else (Enter(env, s, r, o.xrplTxId, clock(o.xrplTxId)), true)
  }

  /** The loop. A payment whose job cannot be created loses those after it. */
  function Admit(env: Env, s: Svc, found: seq<Watch.ObservedPayment>, clock: Clock): Svc
    decreases |found|
  {
    if found == [] then s
    else
      var (t, ok) := AdmitOne(env, s, found[0], clock);
      if ok then Admit(env, t, found[1..], clock) else t
  }

  /** The second loop, over some of the live jobs: each takes one step, and terminal ones are dropped. */
  function Drive(s: Svc, worlds: string -> J.World, which: set<string>): Svc {
    s.(disk := map h | h in s.disk :: if h in s.live && h in which then J.Step(s.disk[h], worlds(h)) else s.disk[h],
       live := map h | h in s.live && !(h in which && J.Terminal(J.Step(s.live[h], worlds(h)).state)) ::
                 if h in which then J.Step(s.live[h], worlds(h)) else s.live[h])
  }

  /** A tick up to its second loop; the page is missing when the poll itself failed. */
  function Observe(env: Env, s: Svc, page: Option<seq<Watch.Entry>>, clock: Clock): Svc {
    if page.None? then s
    else
      var (w, found) := Watch.Poll(s.watch, page.value, Held(s.files));
      Admit(env, s.(watch := w), found, clock)
  }

  function Ticked(env: Env, s: Svc, page: Option<seq<Watch.Entry>>, clock: Clock, worlds: string -> J.World): Svc {
    var t := Observe(env, s, page, clock);
    Drive(t, worlds, t.live.Keys)
  }

  // ------------------------------------------------------------------ invariant

  /** Unless it is no hash at all, it is spelled as the ledger does: 64 upper-case digits, no prefix. */
  predicate WellSpelled(hash: string) {
    J.NormalizeXrplTxId(hash).Some? ==> J.NormalizeXrplTxId(hash) == Some("0x" + hash)
  }

  predicate PageOk(page: Option<seq<Watch.Entry>>) {
    page.Some? ==> forall k :: 0 <= k < |page.value| ==>
      Watch.IsPayment(page.value[k]) && Watch.HashOf(page.value[k]).Some? ==>
        WellSpelled(Watch.HashOf(page.value[k]).value)
  }

  /** The disk has every live job as it is in memory, under the payment's hash. */
  predicate Agree(s: Svc) {
    && (forall h :: h in s.disk ==> s.disk[h].id == h)
    && (forall h :: h in s.live ==> h in s.disk && s.disk[h] == s.live[h])
  }

  lemma EnterAgrees(env: Env, s: Svc, r: Store.PendingUserOp, hash: string, now: int)
    requires Agree(s) && Creatable(env, r, hash) && WellSpelled(hash)
    ensures Agree(Enter(env, s, r, hash, now))
  {
    assert ("0x" + hash)[2..] == hash;
  }

  lemma {:induction false} AdmitAgrees(env: Env, s: Svc, found: seq<Watch.ObservedPayment>, clock: Clock)
    requires Agree(s) && forall k :: 0 <= k < |found| ==> WellSpelled(found[k].xrplTxId)
    ensures Agree(Admit(env, s, found, clock))
    decreases |found|
  {
    if found != [] {
      var o := found[0];
      if o.xrplTxId in s.live || Store.FileOf(o.commitment) !in s.files {
        AdmitAgrees(env, s, found[1..], clock);
      } else if Creatable(env, s.files[Store.FileOf(o.commitment)], o.xrplTxId) {
        var r := s.files[Store.FileOf(o.commitment)];
        EnterAgrees(env, s, r, o.xrplTxId, clock(o.xrplTxId));
        AdmitAgrees(env, Enter(env, s, r, o.xrplTxId, clock(o.xrplTxId)), found[1..], clock);
      }
    }
  }

  lemma {:induction false} FoundWellSpelled(w: Watch.State, page: seq<Watch.Entry>, held: set<string>)
    requires PageOk(Some(page))
    ensures forall o :: o in Watch.Poll(w, page, held).1 ==> WellSpelled(o.xrplTxId)
  {
    if page != [] {
      var init := page[..|page| - 1];
      assert forall k :: 0 <= k < |init| ==> init[k] == page[k];
      FoundWellSpelled(w, init, held);
    }
  }

  lemma ObserveAgrees(env: Env, s: Svc, page: Option<seq<Watch.Entry>>, clock: Clock)
    requires Agree(s) && PageOk(page)
    ensures Agree(Observe(env, s, page, clock))
  {
    if page.Some? {
      FoundWellSpelled(s.watch, page.value, Held(s.files));
      var (w, found) := Watch.Poll(s.watch, page.value, Held(s.files));
      assert forall k :: 0 <= k < |found| ==> found[k] in found;
      AdmitAgrees(env, s.(watch := w), found, clock);
    }
  }

  lemma StepKeepsId(j: J.Job, w: J.World)
    ensures J.Step(j, w).id == j.id && (J.Terminal(j.state) ==> J.Step(j, w) == j)
  {
  }

  lemma DriveAgrees(s: Svc, worlds: string -> J.World, which: set<string>)
    requires Agree(s)
    ensures Agree(Drive(s, worlds, which))
  {
    forall h | h in s.disk ensures J.Step(s.disk[h], worlds(h)).id == h {
      StepKeepsId(s.disk[h], worlds(h));
    }
  }

  // ----------------------------------------------------------------------- runs

  datatype Event =
    | Registers(b: Body, now: int)
    | Ticks(page: Option<seq<Watch.Entry>>, clock: Clock, worlds: string -> J.World)
    | Restarts(startLedger: int)    // a new process over the same directories, which only looks forward

  const FRESH: Svc := Svc(map[], Watch.State(0, {}), map[], map[])

  function Next(env: Env, s: Svc, e: Event): Svc {
    match e
    case Registers(b, now) => Intake(env, s, b, now).0
    case Ticks(page, clock, worlds) => Ticked(env, s, page, clock, worlds)
    case Restarts(startLedger) => s.(watch := Watch.State(startLedger, {}), live := map[])
  }

  function Run(env: Env, events: seq<Event>): Svc {
    if events == [] then FRESH else Next(env, Run(env, events[..|events| - 1]), events[|events| - 1])
  }

  predicate PagesOk(events: seq<Event>) {
    forall k :: 0 <= k < |events| && events[k].Ticks? ==> PageOk(events[k].page)
  }

  /** The service inside its last event, between the two loops if that was a tick. */
  function Midway(env: Env, events: seq<Event>): Svc
    requires events != []
  {
    var s := Run(env, events[..|events| - 1]);
    var e := events[|events| - 1];
    if e.Ticks? then Observe(env, s, e.page, e.clock) else s
  }

  /** The job first made for a payment. */
  function Created(env: Env, events: seq<Event>, h: string): Option<J.Job> {
    if events == [] then None
    else
      var earlier := Created(env, events[..|events| - 1], h);
      if earlier.Some? then earlier
      else if h in Midway(env, events).disk then Some(Midway(env, events).disk[h])
      else None
  }

  /** What the world answered to a payment's job, tick by tick, whenever it was live. */
  function Answers(env: Env, events: seq<Event>, h: string): seq<J.World> {
    if events == [] then []
    else
      var earlier := Answers(env, events[..|events| - 1], h);
      var e := events[|events| - 1];
      if e.Ticks? && h in Midway(env, events).live then earlier + [e.worlds(h)] else earlier
  }

  /** A job no step has been taken of, with what the record and the clock say. */
  predicate Begins(env: Env, job: J.Job, r: Store.PendingUserOp, hash: string, now: int) {
    && job.id == hash && job.xrplTxId == "0x" + hash && job.state == J.Observed
    && job.userOpData == r.userOpData && job.personalAccount == r.personalAccount
    && env.number(r.totalCallValue) == Some(job.totalCallValue) && env.number(r.nonce) == Some(job.nonce)
    && job.request == None && job.roundId == None && job.flareTxHash == None && job.executionAllowedAt == None
    && job.attempts == 0 && job.lastError == None && job.updatedAt == now
  }

  /** A new job is the one made from the record held for a payment just found. */
  predicate NewFrom(env: Env, s: Svc, found: seq<Watch.ObservedPayment>, k: nat, clock: Clock, h: string, job: J.Job) {
    && k < |found| && found[k].xrplTxId == h && Store.FileOf(found[k].commitment) in s.files
    && Begins(env, job, s.files[Store.FileOf(found[k].commitment)], h, clock(h))
  }

  lemma {:induction false} AdmitExtends(env: Env, s: Svc, found: seq<Watch.ObservedPayment>, clock: Clock, h: string)
      returns (k: nat)
    requires Agree(s) && forall k :: 0 <= k < |found| ==> WellSpelled(found[k].xrplTxId)
    ensures var t := Admit(env, s, found, clock);
            && t.files == s.files
            && (h in s.disk ==> h in t.disk && t.disk[h] == s.disk[h])
            && (h in s.live ==> h in t.live)
            && (h in t.disk && h !in s.disk ==> NewFrom(env, s, found, k, clock, h, t.disk[h]))
    decreases |found|
  {
    k := 0;
    if found != [] {
      var o := found[0];
      if o.xrplTxId in s.live || Store.FileOf(o.commitment) !in s.files {
        k := AdmitExtends(env, s, found[1..], clock, h);
        k := k + 1;
      } else if Creatable(env, s.files[Store.FileOf(o.commitment)], o.xrplTxId) {
        var r := s.files[Store.FileOf(o.commitment)];
        EnterAgrees(env, s, r, o.xrplTxId, clock(o.xrplTxId));
        assert ("0x" + o.xrplTxId)[2..] == o.xrplTxId;
        k := AdmitExtends(env, Enter(env, s, r, o.xrplTxId, clock(o.xrplTxId)), found[1..], clock, h);
        k := if o.xrplTxId == h then 0 else k + 1;
      }
    }
  }

  predicate Usable(env: Env, s: Svc, o: Watch.ObservedPayment) {
    && Store.FileOf(o.commitment) in s.files
    && Creatable(env, s.files[Store.FileOf(o.commitment)], o.xrplTxId)
  }

  /** Every payment reported becomes live, unless its record, or an earlier one, is unusable. */
  lemma {:induction false} ReportedEnters(env: Env, s: Svc, found: seq<Watch.ObservedPayment>, clock: Clock, k: nat)
    requires Agree(s) && k < |found|
    requires forall i :: 0 <= i < |found| ==> WellSpelled(found[i].xrplTxId) && Usable(env, s, found[i])
    ensures found[k].xrplTxId in Admit(env, s, found, clock).live
    decreases |found|
  {
    var o := found[0];
    var t := s;
    if o.xrplTxId !in s.live {
      t := Enter(env, s, s.files[Store.FileOf(o.commitment)], o.xrplTxId, clock(o.xrplTxId));
      EnterAgrees(env, s, s.files[Store.FileOf(o.commitment)], o.xrplTxId, clock(o.xrplTxId));
    }
    if k == 0 {
      var _ := AdmitExtends(env, t, found[1..], clock, o.xrplTxId);
    } else {
      ReportedEnters(env, t, found[1..], clock, k - 1);
    }
  }

  lemma {:induction false} RunAgrees(env: Env, events: seq<Event>)
    requires PagesOk(events)
    ensures Agree(Run(env, events)) && (events != [] ==> Agree(Midway(env, events)))
  {
    if events != [] {
      var e := events[|events| - 1];
      RunAgrees(env, events[..|events| - 1]);
      if e.Ticks? {
        ObserveAgrees(env, Run(env, events[..|events| - 1]), e.page, e.clock);
        DriveAgrees(Midway(env, events), e.worlds, Midway(env, events).live.Keys);
      }
    }
  }

  predicate Unfinished(j: J.Job) {
    j.state != J.Executed && j.state != J.Failed
  }

  /** A live job is neither executed nor failed. */
  lemma {:induction false} LiveIsUnfinished(env: Env, events: seq<Event>, h: string)
    requires h in Run(env, events).live
    ensures Unfinished(Run(env, events).live[h])
    decreases |events|
  {
    var e := events[|events| - 1];
    if e.Registers? {
      LiveIsUnfinished(env, events[..|events| - 1], h);
    }
  }

  lemma MidwayExtends(env: Env, events: seq<Event>, h: string)
    requires events != [] && PagesOk(events)
    ensures var s := Run(env, events[..|events| - 1]);
            h in s.disk ==> h in Midway(env, events).disk && Midway(env, events).disk[h] == s.disk[h]
  {
    var s := Run(env, events[..|events| - 1]);
    var e := events[|events| - 1];
    RunAgrees(env, events[..|events| - 1]);
    if e.Ticks? && e.page.Some? {
      FoundWellSpelled(s.watch, e.page.value, Held(s.files));
      var (w, found) := Watch.Poll(s.watch, e.page.value, Held(s.files));
      assert forall k :: 0 <= k < |found| ==> found[k] in found;
      var _ := AdmitExtends(env, s.(watch := w), found, e.clock, h);
    }
  }

  /**
   * The service drives each payment's job as one driver would. Over any history of
   * registrations, ticks, failed polls and restarts, what the disk holds for a
   * payment is the job first created for it, stepped once for each tick in which
   * it was live: so everything proved of one-driver runs holds of it.
   */
  lemma {:induction false} OneDriverEach(env: Env, events: seq<Event>, h: string)
    requires PagesOk(events)
    ensures var s := Run(env, events);
            && (h in s.disk <==> Created(env, events, h).Some?)
            && (h in s.disk ==> s.disk[h] == JobRuns.Steps(Created(env, events, h).value, Answers(env, events, h)))
            && (h !in s.disk ==> Answers(env, events, h) == [])
  {
    if events != [] {
      var before, e := events[..|events| - 1], events[|events| - 1];
      OneDriverEach(env, before, h);
      RunAgrees(env, events);
      MidwayExtends(env, events, h);
      var m, ws := Midway(env, events), Answers(env, events, h);
      if e.Ticks? && h in m.live {
        assert ws[..|ws| - 1] == Answers(env, before, h) && ws[|ws| - 1] == e.worlds(h);
      }
    }
  }

  /** A payment's job has failed exactly when some hard error was at least the fifth error in a row. */
  lemma FailedExactlyWhen(env: Env, events: seq<Event>, h: string)
    requires PagesOk(events) && h in Run(env, events).disk
    ensures Created(env, events, h).Some?
    ensures Run(env, events).disk[h].state == J.Failed <==>
            JobRuns.SomeFatal(JobRuns.Kinds(Created(env, events, h).value, Answers(env, events, h)))
  {
    OneDriverEach(env, events, h);
    var _ := CreatedFrom(env, events, h);
    JobRuns.FailureCharacterized(Created(env, events, h).value, Answers(env, events, h));
  }

  /** The last tick that found a payment: where in the history its job comes from. */
  predicate FoundAt(env: Env, events: seq<Event>, i: nat, k: nat, h: string, job: J.Job) {
    && i < |events| && events[i].Ticks? && events[i].page.Some?
    && var s := Run(env, events[..i]);
       NewFrom(env, s, Watch.Poll(s.watch, events[i].page.value, Held(s.files)).1, k, events[i].clock, h, job)
  }

  lemma {:induction false} CreatedFrom(env: Env, events: seq<Event>, h: string) returns (at: (nat, nat))
    requires PagesOk(events) && Created(env, events, h).Some?
    ensures FoundAt(env, events, at.0, at.1, h, Created(env, events, h).value)
  {
    var before, e := events[..|events| - 1], events[|events| - 1];
    if Created(env, before, h).Some? {
      at := CreatedFrom(env, before, h);
      assert before[..at.0] == events[..at.0];
    } else {
      OneDriverEach(env, before, h);
      var s := Run(env, before);
      RunAgrees(env, before);
      FoundWellSpelled(s.watch, e.page.value, Held(s.files));
      var (w, found) := Watch.Poll(s.watch, e.page.value, Held(s.files));
      assert forall k :: 0 <= k < |found| ==> found[k] in found;
      var k := AdmitExtends(env, s.(watch := w), found, e.clock, h);
      at := (|before|, k);
    }
  }

  // ------------------------------------------------------------- after a restart

  /** No job can be made for this payment, and trying to loses those found after it. */
  predicate Stops(env: Env, s: Svc, o: Watch.ObservedPayment) {
    && o.xrplTxId !in s.live && Store.FileOf(o.commitment) in s.files
    && !Creatable(env, s.files[Store.FileOf(o.commitment)], o.xrplTxId)
  }

  /** A payment is found with a usable record, and none found before it stops the loop. */
  predicate Picked(env: Env, s: Svc, found: seq<Watch.ObservedPayment>, h: string) {
    exists k :: 0 <= k < |found| && PickedAt(env, s, found, h, k)
  }

  predicate PickedAt(env: Env, s: Svc, found: seq<Watch.ObservedPayment>, h: string, k: nat)
    requires k < |found|
  {
    && found[k].xrplTxId == h && Usable(env, s, found[k])
    && forall j :: 0 <= j < k ==> !Stops(env, s, found[j])
  }

  predicate Distinct(found: seq<Watch.ObservedPayment>) {
    forall i, j :: 0 <= i < j < |found| ==> found[i].xrplTxId != found[j].xrplTxId
  }

  lemma {:induction false} PollDistinct(w: Watch.State, page: seq<Watch.Entry>, held: set<string>)
    ensures var (v, found) := Watch.Poll(w, page, held);
            Distinct(found) && forall k :: 0 <= k < |found| ==> found[k].xrplTxId in v.seen
  {
    if page != [] {
      PollDistinct(w, page[..|page| - 1], held);
    }
  }

  /** Admitting one payment changes neither which of the others are usable nor which stop the loop. */
  lemma OthersAsBefore(env: Env, s: Svc, o: Watch.ObservedPayment, p: Watch.ObservedPayment, clock: Clock)
    requires p.xrplTxId != o.xrplTxId
    ensures var t := AdmitOne(env, s, o, clock).0;
            (Usable(env, t, p) <==> Usable(env, s, p)) && (Stops(env, t, p) <==> Stops(env, s, p))
  {
  }

  lemma PickedLater(env: Env, s: Svc, found: seq<Watch.ObservedPayment>, clock: Clock, h: string)
    requires found != [] && Distinct(found)
    ensures var t := AdmitOne(env, s, found[0], clock).0;
            Picked(env, s, found, h) <==>
            PickedAt(env, s, found, h, 0) || (!Stops(env, s, found[0]) && Picked(env, t, found[1..], h))
  {
    var t, rest := AdmitOne(env, s, found[0], clock).0, found[1..];
    forall k | 0 <= k < |rest|
      ensures Usable(env, t, rest[k]) <==> Usable(env, s, found[k + 1])
      ensures Stops(env, t, rest[k]) <==> Stops(env, s, found[k + 1])
    {
      OthersAsBefore(env, s, found[0], found[k + 1], clock);
    }
    if k :| 0 <= k < |found| && PickedAt(env, s, found, h, k) {
      if k > 0 {
        assert PickedAt(env, t, rest, h, k - 1);
      }
    }
    if k :| 0 <= k < |rest| && PickedAt(env, t, rest, h, k) {
      if !Stops(env, s, found[0]) {
        LaterPicked(env, s, t, found, h, k);
      }
    }
  }

  lemma LaterPicked(env: Env, s: Svc, t: Svc, found: seq<Watch.ObservedPayment>, h: string, k: nat)
    requires k + 1 < |found| && PickedAt(env, t, found[1..], h, k) && !Stops(env, s, found[0])
    requires forall i :: 1 <= i < |found| ==> (Usable(env, t, found[i]) <==> Usable(env, s, found[i]))
    requires forall i :: 1 <= i < |found| ==> (Stops(env, t, found[i]) <==> Stops(env, s, found[i]))
    ensures PickedAt(env, s, found, h, k + 1)
  {
    forall j | 0 <= j < k + 1 ensures !Stops(env, s, found[j]) {
      if j > 0 {
        assert !Stops(env, t, found[1..][j - 1]);
      }
    }
  }

  lemma {:induction false} AdmitPicks(env: Env, s: Svc, found: seq<Watch.ObservedPayment>, clock: Clock, h: string)
    requires Distinct(found)
    ensures h in Admit(env, s, found, clock).live <==> h in s.live || Picked(env, s, found, h)
    decreases |found|
  {
    if found != [] {
      var (t, ok) := AdmitOne(env, s, found[0], clock);
      PickedLater(env, s, found, clock, h);
      AdmitPicks(env, t, found[1..], clock, h);
    }
  }

  /** This tick's poll reports the payment. */
  predicate Reports(env: Env, s: Svc, page: Option<seq<Watch.Entry>>, h: string) {
    page.Some? && Picked(env, s, Watch.Poll(s.watch, page.value, Held(s.files)).1, h)
  }

  /** Some poll has reported the payment since the process started. */
  predicate ReportedSince(env: Env, events: seq<Event>, h: string) {
    events != [] &&
    var before, e := events[..|events| - 1], events[|events| - 1];
    !e.Restarts? &&
    (ReportedSince(env, before, h) || (e.Ticks? && Reports(env, Run(env, before), e.page, h)))
  }

  lemma MidwayLive(env: Env, events: seq<Event>, h: string)
    requires events != [] && events[|events| - 1].Ticks?
    ensures var s, e := Run(env, events[..|events| - 1]), events[|events| - 1];
            h in Midway(env, events).live <==> h in s.live || Reports(env, s, e.page, h)
  {
    var s, e := Run(env, events[..|events| - 1]), events[|events| - 1];
    if e.page.Some? {
      var (w, found) := Watch.Poll(s.watch, e.page.value, Held(s.files));
      PollDistinct(s.watch, e.page.value, Held(s.files));
      AdmitPicks(env, s.(watch := w), found, e.clock, h);
      assert forall k :: 0 <= k < |found| ==>
        (PickedAt(env, s.(watch := w), found, h, k) <==> PickedAt(env, s, found, h, k));
    }
  }

  /** What a tick makes of a payment's job, by whether it is live between the two loops. */
  lemma TickFate(env: Env, events: seq<Event>, h: string)
    requires PagesOk(events) && events != [] && events[|events| - 1].Ticks? && Agree(Midway(env, events))
    ensures var m, s := Midway(env, events), Run(env, events);
            && (h in s.disk <==> h in m.disk)
            && (h in m.live ==>
                  && s.disk[h] == J.Step(m.disk[h], events[|events| - 1].worlds(h))
                  && (h in s.live <==> Unfinished(s.disk[h])))
            && (h !in m.live ==> h !in s.live && (h in m.disk ==> s.disk[h] == m.disk[h]))
  {
  }

  /** Live exactly if on disk, unfinished, and reported since the process started. */
  ghost predicate LiveAsReported(env: Env, events: seq<Event>, h: string) {
    var s := Run(env, events);
    && (ReportedSince(env, events, h) ==> h in s.disk)
    && (h in s.live <==> h in s.disk && Unfinished(s.disk[h]) && ReportedSince(env, events, h))
  }

  lemma LiveTick(env: Env, events: seq<Event>, h: string)
    requires PagesOk(events) && events != [] && events[|events| - 1].Ticks?
    requires LiveAsReported(env, events[..|events| - 1], h)
    ensures LiveAsReported(env, events, h)
  {
    RunAgrees(env, events);
    MidwayLive(env, events, h);
    MidwayExtends(env, events, h);
    TickFate(env, events, h);
  }

  lemma LiveBetween(env: Env, events: seq<Event>, h: string)
    requires events != [] && !events[|events| - 1].Ticks?
    requires LiveAsReported(env, events[..|events| - 1], h)
    ensures LiveAsReported(env, events, h)
  {
  }

  lemma {:induction false} LiveReported(env: Env, events: seq<Event>, h: string)
    requires PagesOk(events)
    ensures LiveAsReported(env, events, h)
  {
    if events != [] {
      LiveReported(env, events[..|events| - 1], h);
      if events[|events| - 1].Ticks? {
        LiveTick(env, events, h);
      } else {
        LiveBetween(env, events, h);
      }
    }
  }

  /**
   * A restart does not resume everything from disk. A job is driven if and only
   * if it is on disk, unfinished, and some poll has reported its payment since the
   * process started.
   */
  lemma LiveExactlyWhen(env: Env, events: seq<Event>, h: string)
    requires PagesOk(events)
    ensures var s := Run(env, events);
            && (ReportedSince(env, events, h) ==> h in s.disk)
            && (h in s.live <==>
                  h in s.disk && Unfinished(s.disk[h]) && ReportedSince(env, events, h))
  {
    LiveReported(env, events, h);
  }

  /** A tick in which a payment's job is not live leaves its file alone. */
  lemma TickLeaves(env: Env, events: seq<Event>, h: string)
    requires PagesOk(events) && events != [] && events[|events| - 1].Ticks?
    requires h in Run(env, events[..|events| - 1]).disk && h !in Midway(env, events).live
    ensures h in Run(env, events).disk
    ensures Run(env, events).disk[h] == Run(env, events[..|events| - 1]).disk[h]
  {
    MidwayExtends(env, events, h);
  }

  lemma UnreportedStays(env: Env, events: seq<Event>, h: string)
    requires PagesOk(events) && events != [] && h in Run(env, events[..|events| - 1]).disk
    requires !ReportedSince(env, events[..|events| - 1], h) && !ReportedSince(env, events, h)
    ensures h in Run(env, events).disk
    ensures Run(env, events).disk[h] == Run(env, events[..|events| - 1]).disk[h]
  {
    LiveExactlyWhen(env, events[..|events| - 1], h);
    if events[|events| - 1].Ticks? {
      MidwayLive(env, events, h);
      TickLeaves(env, events, h);
    }
  }

  /** Until its payment is reported again, an unfinished job stays on disk as the restart found it. */
  lemma {:induction false} RestartAbandons(env: Env, events: seq<Event>, startLedger: int, more: seq<Event>, h: string)
    requires PagesOk(events + [Restarts(startLedger)] + more) && h in Run(env, events).disk
    requires forall n :: 0 <= n <= |more| ==> !ReportedSince(env, events + [Restarts(startLedger)] + more[..n], h)
    ensures h in Run(env, events + [Restarts(startLedger)] + more).disk
    ensures Run(env, events + [Restarts(startLedger)] + more).disk[h] == Run(env, events).disk[h]
    decreases |more|
  {
    var restarted := events + [Restarts(startLedger)];
    var all := restarted + more;
    if more == [] {
      assert all == restarted && restarted[..|events|] == events;
    } else {
      var init := more[..|more| - 1];
      assert all[..|all| - 1] == restarted + init;
      assert forall n :: 0 <= n <= |init| ==> init[..n] == more[..n];
      assert more[..|more|] == more;
      RestartAbandons(env, events, startLedger, init, h);
      UnreportedStays(env, all, h);
    }
  }

  /** A registration, a tick that finds its payment, a restart, and a tick that finds nothing new. */
  function ForgettingRun(b: Body, e: Watch.Entry, clock: Clock, w: J.World, start: int): seq<Event> {
    [Registers(b, 0)] + [Ticks(Some([e]), clock, _ => w)] + [Restarts(start)] + [Ticks(Some([]), clock, _ => w)]
  }

  /** The payment and the registration it commits to, as the SDK and the ledger write them. */
  predicate PaysFor(env: Env, b: Body, e: Watch.Entry, h: string) {
    && Complete(b) && Store.Accepts(env.keccak, RegistrationOf(b))
    && Creatable(env, Store.RecordOf(env.keccak, RegistrationOf(b), 0), h) && WellSpelled(h)
    && ReportOf(e, h, env.keccak(b.userOpData.value))
  }

  lemma RunNext(env: Env, events: seq<Event>, e: Event)
    ensures Run(env, events + [e]) == Next(env, Run(env, events), e)
  {
    assert (events + [e])[..|events|] == events;
  }

  lemma PollsOne(w: Watch.State, e: Watch.Entry, held: set<string>, h: string, c: string)
    requires ReportOf(e, h, c) && c in held && h !in w.seen
    ensures Watch.Poll(w, [e], held).1 == [Watch.Report(e, h, c)]
  {
    assert [e][..0] == [] && [e][0] == e;
    assert Watch.Poll(w, [], held) == (w, []);
    assert Watch.Examine(w, e, held).1 == Some(Watch.Report(e, h, c));
    assert [] + [Watch.Report(e, h, c)] == [Watch.Report(e, h, c)];
  }

  lemma AdmitsOne(env: Env, s: Svc, o: Watch.ObservedPayment, clock: Clock)
    requires o.xrplTxId !in s.live && Usable(env, s, o)
    ensures var r := s.files[Store.FileOf(o.commitment)];
            Admit(env, s, [o], clock) == Enter(env, s, r, o.xrplTxId, clock(o.xrplTxId))
  {
    assert [o][1..] == [];
    var t := AdmitOne(env, s, o, clock).0;
    assert Admit(env, t, [], clock) == t;
  }

  function Registered(env: Env, b: Body): Svc
    requires Complete(b)
  {
    var rec := Store.RecordOf(env.keccak, RegistrationOf(b), 0);
    FRESH.(files := map[Store.FileOf(rec.commitment) := rec])
  }

  lemma FirstObserve(env: Env, b: Body, e: Watch.Entry, clock: Clock, h: string)
    requires PaysFor(env, b, e, h)
    ensures var s := Registered(env, b);
            var rec := Store.RecordOf(env.keccak, RegistrationOf(b), 0);
            var w := Watch.Poll(s.watch, [e], Held(s.files)).0;
            Observe(env, s, Some([e]), clock) == Enter(env, s.(watch := w), rec, h, clock(h))
  {
    var c, s := env.keccak(b.userOpData.value), Registered(env, b);
    CommitmentTail(Watch.Body(e).value, c);
    Watch.FoundIsCommitment(Watch.Body(e).value);
    assert c in Held(s.files);
    PollsOne(s.watch, e, Held(s.files), h, c);
    var (w, found) := Watch.Poll(s.watch, [e], Held(s.files));
    AdmitsOne(env, s.(watch := w), found[0], clock);
    assert found == [found[0]];
  }

  lemma FirstTick(env: Env, b: Body, e: Watch.Entry, clock: Clock, w: J.World, h: string)
    requires PaysFor(env, b, e, h) && w.prepared.Ok?
    ensures var s := Run(env, [Registers(b, 0)] + [Ticks(Some([e]), clock, _ => w)]);
            h in s.disk && s.disk[h].state == J.RequestPrepared && h in s.live
  {
    FirstObserve(env, b, e, clock, h);
    assert ("0x" + h)[2..] == h;
    assert Intake(env, FRESH, b, 0).0 == Registered(env, b);
    assert [] + [Registers(b, 0)] == [Registers(b, 0)];
    RunNext(env, [], Registers(b, 0));
    RunNext(env, [Registers(b, 0)], Ticks(Some([e]), clock, _ => w));
  }

  /** A run that refutes it: the job is on disk, unfinished, and the tick after the restart does not drive it. */
  lemma RestartForgets(env: Env, b: Body, e: Watch.Entry, clock: Clock, w: J.World, start: int, h: string)
    requires PaysFor(env, b, e, h) && w.prepared.Ok?
    ensures var s := Run(env, ForgettingRun(b, e, clock, w, start));
            h in s.disk && s.disk[h].state == J.RequestPrepared && h !in s.live
  {
    FirstTick(env, b, e, clock, w, h);
    var two := [Registers(b, 0)] + [Ticks(Some([e]), clock, _ => w)];
    RunNext(env, two, Restarts(start));
    RunNext(env, two + [Restarts(start)], Ticks(Some([]), clock, _ => w));
  }

  // ------------------------------------------------------------------- delivery

  function TickCount(events: seq<Event>): nat {
    if events == [] then 0
    else TickCount(events[..|events| - 1]) + if events[|events| - 1].Ticks? then 1 else 0
  }

  /** No restart, and every tick's answers to the payment's job are the ones hoped for. */
  predicate AllGoesWell(events: seq<Event>, h: string, allowed: Option<int>) {
    forall k :: 0 <= k < |events| ==>
      !events[k].Restarts? && (events[k].Ticks? ==> JobRuns.GoesWell(events[k].worlds(h), allowed))
  }

  /** The job has not failed, has taken its steps so far, and is live while it is not executed. */
  ghost predicate Underway(env: Env, events: seq<Event>, h: string, allowed: Option<int>, taken: nat) {
    var s := Run(env, events);
    && h in s.disk && s.disk[h].state != J.Failed && s.disk[h].executionAllowedAt == allowed
    && (JobRuns.ToGo(s.disk[h].state) == 0 || JobRuns.ToGo(s.disk[h].state) + taken <= 5)
    && (s.disk[h].state != J.Executed ==> h in s.live)
  }

  lemma TickDelivers(env: Env, events: seq<Event>, h: string, allowed: Option<int>, taken: nat)
    requires PagesOk(events) && events != [] && events[|events| - 1].Ticks?
    requires JobRuns.GoesWell(events[|events| - 1].worlds(h), allowed)
    requires Underway(env, events[..|events| - 1], h, allowed, taken)
    ensures Underway(env, events, h, allowed, taken + 1)
  {
    RunAgrees(env, events);
    MidwayExtends(env, events, h);
    MidwayLive(env, events, h);
    TickFate(env, events, h);
    JobRuns.WellStep(Midway(env, events).disk[h], events[|events| - 1].worlds(h));
  }

  /** What a payment's job says of a delay before it is driven; a new job says nothing. */
  function DelaySoFar(s: Svc, h: string): Option<int> {
    if h in s.disk then s.disk[h].executionAllowedAt else None
  }

  lemma MidwayJob(env: Env, events: seq<Event>, h: string)
    requires PagesOk(events) && events != [] && events[|events| - 1].Ticks? && h in Midway(env, events).disk
    ensures var s, j := Run(env, events[..|events| - 1]), Midway(env, events).disk[h];
            j.executionAllowedAt == DelaySoFar(s, h) && (h !in s.disk ==> j.state == J.Observed)
  {
    var s, e := Run(env, events[..|events| - 1]), events[|events| - 1];
    RunAgrees(env, events[..|events| - 1]);
    if e.page.Some? {
      FoundWellSpelled(s.watch, e.page.value, Held(s.files));
      var (w, found) := Watch.Poll(s.watch, e.page.value, Held(s.files));
      assert forall k :: 0 <= k < |found| ==> found[k] in found;
      var _ := AdmitExtends(env, s.(watch := w), found, e.clock, h);
    }
  }

  lemma FirstDelivers(env: Env, events: seq<Event>, h: string)
    requires PagesOk(events) && events != [] && events[|events| - 1].Ticks?
    requires var s, e := Run(env, events[..|events| - 1]), events[|events| - 1];
             && Reports(env, s, e.page, h) && (h in s.disk ==> s.disk[h].state != J.Failed)
             && JobRuns.GoesWell(e.worlds(h), DelaySoFar(s, h))
    ensures Underway(env, events, h, DelaySoFar(Run(env, events[..|events| - 1]), h), 1)
  {
    RunAgrees(env, events);
    MidwayLive(env, events, h);
    MidwayExtends(env, events, h);
    MidwayJob(env, events, h);
    TickFate(env, events, h);
    JobRuns.WellStep(Midway(env, events).disk[h], events[|events| - 1].worlds(h));
  }

  lemma {:induction false} StaysUnderway(
    env: Env, events: seq<Event>, more: seq<Event>, h: string, allowed: Option<int>, taken: nat)
    requires PagesOk(events + more) && AllGoesWell(more, h, allowed) && Underway(env, events, h, allowed, taken)
    ensures Underway(env, events + more, h, allowed, taken + TickCount(more))
    decreases |more|
  {
    if more == [] {
      assert events + more == events;
    } else {
      var all, init := events + more, more[..|more| - 1];
      assert all[..|all| - 1] == events + init;
      StaysUnderway(env, events, init, h, allowed, taken);
      if all[|all| - 1].Ticks? {
        TickDelivers(env, all, h, allowed, taken + TickCount(init));
      }
    }
  }

  /**
   * A reported payment is executed. Once a tick reports it, and its job, if it has
   * one already, has not failed, five ticks whose answers are the ones hoped for
   * are enough, whatever is registered or reported meanwhile.
   */
  lemma ReportedIsExecuted(env: Env, before: seq<Event>, tick: Event, more: seq<Event>, h: string)
    requires PagesOk(before + [tick] + more) && tick.Ticks? && Reports(env, Run(env, before), tick.page, h)
    requires h in Run(env, before).disk ==> Run(env, before).disk[h].state != J.Failed
    requires AllGoesWell([tick] + more, h, DelaySoFar(Run(env, before), h)) && TickCount(more) >= 4
    ensures var s := Run(env, before + [tick] + more);
            h in s.disk && s.disk[h].state == J.Executed
  {
    var first := before + [tick];
    assert first[..|first| - 1] == before && ([tick] + more)[0] == tick;
    assert PagesOk(first) by {
      assert forall k :: 0 <= k < |first| ==> first[k] == (first + more)[k];
    }
    FirstDelivers(env, first, h);
    assert AllGoesWell(more, h, DelaySoFar(Run(env, before), h)) by {
      assert forall k :: 0 <= k < |more| ==> more[k] == ([tick] + more)[k + 1];
    }
    StaysUnderway(env, first, more, h, DelaySoFar(Run(env, before), h), 1);
  }

  // --------------------------------------------------- the bytes behind a payment

  /** Every record is filed under the hash of its bytes. */
  predicate FilesOk(env: Env, s: Svc) {
    forall f :: f in s.files ==> env.keccak(s.files[f].userOpData) == "0x" + f
  }

  lemma {:induction false} RunFiles(env: Env, events: seq<Event>)
    requires Store.LowerHash(env.keccak) && PagesOk(events)
    ensures FilesOk(env, Run(env, events))
  {
    if events != [] {
      var before, e := events[..|events| - 1], events[|events| - 1];
      RunFiles(env, before);
      var s := Run(env, before);
      if e.Ticks? && e.page.Some? {
        AdmitFiles(env, s.(watch := Watch.Poll(s.watch, e.page.value, Held(s.files)).0),
                   Watch.Poll(s.watch, e.page.value, Held(s.files)).1, e.clock);
      } else if e.Registers? && Complete(e.b) {
        var hash := env.keccak(RegistrationOf(e.b).userOpData);
        assert hash == "0x" + hash[2..];
      }
    }
  }

  lemma {:induction false} AdmitFiles(env: Env, s: Svc, found: seq<Watch.ObservedPayment>, clock: Clock)
    ensures Admit(env, s, found, clock).files == s.files
    decreases |found|
  {
    if found != [] {
      var o := found[0];
      AdmitFiles(env, s, found[1..], clock);
      if Usable(env, s, o) {
        var r := s.files[Store.FileOf(o.commitment)];
        AdmitFiles(env, Enter(env, s, r, o.xrplTxId, clock(o.xrplTxId)), found[1..], clock);
      }
    }
  }

  /** The entry of a page a reported payment comes from. */
  predicate ReportOf(e: Watch.Entry, hash: string, commitment: string) {
    && Watch.IsPayment(e) && Watch.HashOf(e) == Some(hash)
    && Watch.Commitment(Watch.Body(e).value) == Some(commitment)
  }

  lemma {:induction false} FoundOnPage(w: Watch.State, page: seq<Watch.Entry>, held: set<string>, k: nat)
      returns (e: Watch.Entry)
    requires k < |Watch.Poll(w, page, held).1|
    ensures var o := Watch.Poll(w, page, held).1[k]; e in page && ReportOf(e, o.xrplTxId, o.commitment)
    decreases |page|
  {
    var init := page[..|page| - 1];
    if k < |Watch.Poll(w, init, held).1| {
      e := FoundOnPage(w, init, held, k);
    } else {
      e := page[|page| - 1];
    }
  }

  lemma {:induction false} StepsKeepBytes(j: J.Job, ws: seq<J.World>)
    ensures JobRuns.Steps(j, ws).userOpData == j.userOpData && JobRuns.Steps(j, ws).xrplTxId == j.xrplTxId
  {
    if ws != [] {
      StepsKeepBytes(j, ws[..|ws| - 1]);
    }
  }

  /**
   * Whatever job the disk holds for a payment, some poll saw that payment, and the
   * bytes in the job hash to the commitment in its memos. Retries, delays, restarts
   * and later registrations never change them.
   */
  lemma BytesCommitted(env: Env, events: seq<Event>, h: string) returns (i: nat, e: Watch.Entry)
    requires Store.LowerHash(env.keccak) && PagesOk(events) && h in Run(env, events).disk
    ensures i < |events| && events[i].Ticks? && events[i].page.Some? && e in events[i].page.value
    ensures ReportOf(e, h, env.keccak(Run(env, events).disk[h].userOpData))
    ensures Run(env, events).disk[h].xrplTxId == "0x" + h
  {
    OneDriverEach(env, events, h);
    var job := Created(env, events, h).value;
    var at := CreatedFrom(env, events, h);
    StepsKeepBytes(job, Answers(env, events, h));
    i := at.0;
    assert PageOk(events[i].page);
    RunFiles(env, events[..i]);
    e := NewIsCommitted(env, Run(env, events[..i]), events[i].page.value, at.1, events[i].clock, h, job);
  }

  lemma CommitmentTail(tx: Watch.Tx, c: string)
    requires Watch.Commitment(tx) == Some(c)
    ensures c == "0x" + Store.FileOf(c)
  {
    Watch.FoundIsCommitment(tx);
  }

  lemma NewIsCommitted(env: Env, s: Svc, page: seq<Watch.Entry>, k: nat, clock: Clock, h: string, job: J.Job)
      returns (e: Watch.Entry)
    requires FilesOk(env, s) && PageOk(Some(page))
    requires NewFrom(env, s, Watch.Poll(s.watch, page, Held(s.files)).1, k, clock, h, job)
    ensures e in page && ReportOf(e, h, env.keccak(job.userOpData)) && job.xrplTxId == "0x" + h
  {
    var o := Watch.Poll(s.watch, page, Held(s.files)).1[k];
    e := FoundOnPage(s.watch, page, Held(s.files), k);
    CommitmentTail(Watch.Body(e).value, o.commitment);
    FoundWellSpelled(s.watch, page, Held(s.files));
    assert o in Watch.Poll(s.watch, page, Held(s.files)).1;
  }

  // ------------------------------------------------------------------- in place

  /** The job under h, stepped and written, and dropped if it is then terminal. */
  predicate OneStep(before: Svc, after: Svc, h: string, w: J.World) {
    h in before.live &&
    var j := J.Step(before.live[h], w);
    && after == before.(disk := after.disk, live := after.live)
    && after.disk == before.disk[h := j]
    && after.live == (if J.Terminal(j.state) then before.live - {h} else before.live[h := j])
  }

  /** Each value of drive is the one before with one more job driven. */
  ghost predicate Drives(drive: set<string> -> Svc, worlds: string -> J.World, keys: set<string>) {
    forall which: set<string>, h {:trigger OneMore(drive, worlds, which, h)} ::
      h in keys && h !in which ==> OneMore(drive, worlds, which, h)
  }

  ghost predicate OneMore(drive: set<string> -> Svc, worlds: string -> J.World, which: set<string>, h: string) {
    OneStep(drive(which), drive(which + {h}), h, worlds(h))
  }

  /** Driving one more job is driving it after the others. */
  lemma DriveOneMore(s: Svc, worlds: string -> J.World, which: set<string>, h: string)
    requires Agree(s) && h in s.live && h !in which
    ensures OneStep(Drive(s, worlds, which), Drive(s, worlds, which + {h}), h, worlds(h))
  {
    assert Drive(s, worlds, which).live[h] == s.live[h];
  }

  lemma DriveNone(s: Svc, worlds: string -> J.World)
    ensures Drive(s, worlds, {}) == s
  {
    assert Drive(s, worlds, {}).disk == s.disk && Drive(s, worlds, {}).live == s.live;
  }

  lemma HeldIs(env: Env, s: Store.Contents, c: string)
    requires Store.Inv(env.keccak, s)
    ensures c in Held(s.disk) <==> Watch.Holds(s, c) && Store.IsCommitment(c)
  {
    if Store.IsCommitment(c) {
      assert c == "0x" + Store.FileOf(c);
    }
    if c in Held(s.disk) {
      var f :| f in s.disk && c == "0x" + f && Store.IsCommitment(c);
      assert Store.FileOf(c) == f;
    }
  }

  /** What the watcher reports is spelled as the ledger and the store spell it. */
  predicate FoundOk(found: seq<Watch.ObservedPayment>) {
    forall k :: 0 <= k < |found| ==> WellSpelled(found[k].xrplTxId) && Store.IsCommitment(found[k].commitment)
  }

  lemma PollFoundOk(w: Watch.State, page: seq<Watch.Entry>, held: set<string>)
    requires PageOk(Some(page))
    ensures FoundOk(Watch.Poll(w, page, held).1)
  {
    var found := Watch.Poll(w, page, held).1;
    FoundWellSpelled(w, page, held);
    forall k | 0 <= k < |found| ensures WellSpelled(found[k].xrplTxId) && Store.IsCommitment(found[k].commitment) {
      assert found[k] in found;
      var e := FoundOnPage(w, page, held, k);
      Watch.FoundIsCommitment(Watch.Body(e).value);
    }
  }

  /** The jobs already driven and those still to be. */
  predicate Split(done: set<string>, todo: set<string>, all: set<string>) {
    done !! todo && all == done + todo
  }

  lemma SplitMoves(done: set<string>, todo: set<string>, all: set<string>, h: string)
    requires Split(done, todo, all) && h in todo
    ensures Split(done + {h}, todo - {h}, all)
  {
  }

  /** Live jobs only ever leave while they are driven. */
  predicate Within(m: map<string, P.LiveJob>, n: map<string, P.LiveJob>) {
    forall g :: g in m ==> g in n && m[g] == n[g]
  }

  lemma AdmitNext(env: Env, s: Svc, found: seq<Watch.ObservedPayment>, k: nat, clock: Clock)
    requires k < |found|
    ensures var (t, ok) := AdmitOne(env, s, found[k], clock);
            Admit(env, s, found[k..], clock) == if ok then Admit(env, t, found[k + 1..], clock) else t
  {
    assert found[k..][0] == found[k] && found[k..][1..] == found[k + 1..];
  }

  class ExecutorService {
    const env: Env
    const store: Store.PendingStore
    const watcher: Watch.Watcher
    const pipeline: P.ExecutorPipeline
    var live: map<string, P.LiveJob>

    ghost predicate Valid()
      reads this, live.Values, store, pipeline
    {
      && watcher.store == store && store.keccak == env.keccak && watcher.StoreOk()
      && LiveOk()
    }

    /** Each live job is under its own hash, and the disk has it as it is. */
    ghost predicate LiveOk()
      reads this, live.Values, pipeline
    {
      && (forall h :: h in pipeline.disk ==> pipeline.disk[h].id == h)
      && (forall h :: h in live ==> live[h].id == h && h in pipeline.disk && pipeline.disk[h] == live[h].Snapshot())
    }

    ghost function LiveJobs(): map<string, J.Job>
      reads this, live.Values
    {
      map h | h in live :: live[h].Snapshot()
    }

    ghost function Abs(): Svc
      reads this, live.Values, store`disk, watcher, pipeline
    {
      Svc(store.disk, watcher.Abs(), pipeline.disk, LiveJobs())
    }

    /** A process over the directories an earlier one may have left; it looks forward from a ledger. */
    constructor (env: Env, files: map<string, Store.PendingUserOp>, disk: map<string, J.Job>, startLedger: int)
      requires Store.LowerHash(env.keccak) && Store.RecordsOk(env.keccak, Store.Contents(map[], files))
      requires forall h :: h in disk ==> disk[h].id == h
      ensures Valid() && Abs() == Svc(files, Watch.State(startLedger, {}), disk, map[])
      ensures fresh(store) && fresh(watcher) && fresh(pipeline)
    {
      this.env := env;
      var s := new Store.PendingStore(env.keccak, files);
      var w := new Watch.Watcher(s);
      var p := new P.ExecutorPipeline(disk);
      store, watcher, pipeline, live := s, w, p, map[];
      new;
      w.SetStartLedger(startLedger);
    }

    /** POST /register. */
    method HandleRegister(body: Body, now: int) returns (reply: Reply)
      requires Valid()
      modifies store
      ensures Valid() && (Abs(), reply) == Intake(env, old(Abs()), body, now)
    {
      if OrElse(body.userOpData, "") == "" || OrElse(body.personalAccount, "") == "" {
        return BadRequest;
      }
      var r := Keep(RegistrationOf(body), now);
      reply := if r.Ok? then Accepted(r.value) else Refused(r.error);
    }

    /** The store's part of the intake. */
    method Keep(r: Store.Registration, now: int) returns (result: Result<string, Store.Mismatch>)
      requires watcher.store == store && store.keccak == env.keccak && watcher.StoreOk()
      modifies store
      ensures watcher.StoreOk()
      ensures var hash := env.keccak(r.userOpData);
              if Store.Accepts(env.keccak, r)
              then result == Ok(hash) &&
                   store.disk == old(store.disk)[Store.FileOf(hash) := Store.RecordOf(env.keccak, r, now)]
              else result == Err(Store.Mismatch(r.claimed.value, hash)) && store.disk == old(store.disk)
    {
      Store.RegisterKeeps(env.keccak, store.Abs(), r, now);
      result := store.DoRegister(r, now);
    }

    method Tick(page: Option<seq<Watch.Entry>>, clock: Clock, worlds: string -> J.World)
      requires Valid() && PageOk(page)
      modifies this, store`memory, watcher, pipeline, live.Values
      ensures Valid() && fresh(live.Values - old(live.Values))
      ensures Abs() == Ticked(env, old(Abs()), page, clock, worlds)
    {
      ObservePage(page, clock);
      assert LiveJobs().Keys == live.Keys;
      DriveAll(worlds);
    }

    method ObservePage(page: Option<seq<Watch.Entry>>, clock: Clock)
      requires Valid() && PageOk(page)
      modifies this, store`memory, watcher, pipeline
      ensures Valid() && fresh(live.Values - old(live.Values))
      ensures Abs() == Observe(env, old(Abs()), page, clock)
    {
      if page.Some? {
        var found := PollPage(page.value);
        AdmitFound(found, clock);
      }
    }

    method PollPage(page: seq<Watch.Entry>) returns (found: seq<Watch.ObservedPayment>)
      requires Valid() && PageOk(Some(page))
      modifies store`memory, watcher
      ensures Valid() && FoundOk(found)
      ensures var (w, f) := Watch.Poll(old(watcher.Abs()), page, Held(store.disk));
              found == f && Abs() == old(Abs()).(watch := w)
    {
      ghost var held := Held(store.disk);
      HeldAnswers();
      PollFoundOk(watcher.Abs(), page, held);
      found := watcher.PollPage(page, held);
    }

    lemma HeldAnswers()
      requires Valid()
      ensures watcher.Answers(Held(store.disk))
    {
      forall c: string
        ensures c in Held(store.disk) <==> Watch.Holds(store.Abs(), c) && Store.IsCommitment(c)
      {
        HeldIs(env, store.Abs(), c);
      }
    }

    method AdmitFound(found: seq<Watch.ObservedPayment>, clock: Clock)
      requires Valid() && FoundOk(found)
      modifies this, store`memory, pipeline
      ensures Valid() && fresh(live.Values - old(live.Values))
      ensures Abs() == Admit(env, old(Abs()), found, clock)
    {
      ghost var goal := Admit(env, Abs(), found, clock);
      assert found[0..] == found;
      for k := 0 to |found|
        invariant Valid() && fresh(live.Values - old(live.Values))
        invariant Admit(env, Abs(), found[k..], clock) == goal
      {
        AdmitNext(env, Abs(), found, k, clock);
        var ok := AdmitPayment(found[k], clock);
        if !ok {
          return;
        }
      }
    }

    method AdmitPayment(o: Watch.ObservedPayment, clock: Clock) returns (ok: bool)
      requires Valid() && WellSpelled(o.xrplTxId) && Store.IsCommitment(o.commitment)
      modifies this, store`memory, pipeline
      ensures Valid() && fresh(live.Values - old(live.Values))
      ensures (Abs(), ok) == AdmitOne(env, old(Abs()), o, clock)
    {
      ok := true;
      if o.xrplTxId !in live {
        var pending := LookUp(o.commitment);
        if pending.Some? {
          ok := CreateFor(pending.value, o.xrplTxId, clock(o.xrplTxId));
        }
      }
    }

    method LookUp(commitment: string) returns (pending: Option<Store.PendingUserOp>)
      requires Valid() && Store.IsCommitment(commitment)
      modifies store`memory
      ensures Valid() && Abs() == old(Abs())
      ensures var f := Store.FileOf(commitment);
              pending == if f in store.disk then Some(store.disk[f]) else None
    {
      Store.GetKeeps(env.keccak, store.Abs(), commitment);
      pending := store.DoGet(commitment);
    }

    method CreateFor(r: Store.PendingUserOp, hash: string, now: int) returns (ok: bool)
      requires LiveOk() && WellSpelled(hash) && hash !in live
      modifies this, pipeline
      ensures LiveOk() && fresh(live.Values - old(live.Values))
      ensures ok <==> Creatable(env, r, hash)
      ensures Abs() == if ok then Enter(env, old(Abs()), r, hash, now) else old(Abs())
    {
      var value, nonce := env.number(r.totalCallValue), env.number(r.nonce);
      if value.None? || nonce.None? {
        return false;
      }
      ghost var before := Abs();
      var job := MakeJob(r, hash, value.value, nonce.value, now);
      ok := job != null;
      if ok {
        AddLive(hash, job);
        assert Abs() == Enter(env, before, r, hash, now);
      }
    }

    /** The file of a payment and the object for it, not yet live; null for what is no hash. */
    method MakeJob(r: Store.PendingUserOp, hash: string, value: int, nonce: int, now: int) returns (job: P.LiveJob?)
      requires LiveOk() && WellSpelled(hash) && hash !in live
      requires env.number(r.totalCallValue) == Some(value) && env.number(r.nonce) == Some(nonce)
      modifies pipeline
      ensures LiveOk() && LiveJobs() == old(LiveJobs())
      ensures job == null <==> !Creatable(env, r, hash)
      ensures job == null ==> pipeline.disk == old(pipeline.disk)
      ensures job != null ==>
                && fresh(job) && job.id == hash && pipeline.disk == old(pipeline.disk)[hash := job.Snapshot()]
                && job.Snapshot() ==
                   if hash in old(pipeline.disk) then old(pipeline.disk)[hash] else NewJob(env, r, hash, now)
    {
      assert ("0x" + hash)[2..] == hash;
      job := pipeline.Create(hash, r.userOpData, value, r.personalAccount, nonce, now);
    }

    method AddLive(hash: string, job: P.LiveJob)
      requires LiveOk() && hash !in live && job.id == hash
      requires hash in pipeline.disk && pipeline.disk[hash] == job.Snapshot()
      modifies this
      ensures LiveOk() && live == old(live)[hash := job] && LiveJobs() == old(LiveJobs())[hash := job.Snapshot()]
    {
      live := live[hash := job];
      assert LiveJobs() == old(LiveJobs())[hash := job.Snapshot()];
    }

    method DriveAll(worlds: string -> J.World)
      requires LiveOk()
      modifies this, pipeline, live.Values
      ensures LiveOk() && Within(live, old(live))
      ensures Abs() == Drive(old(Abs()), worlds, old(live.Keys))
    {
      ghost var start := Abs();
      ghost var drive := (which: set<string>) => Drive(start, worlds, which);
      DriveNone(start, worlds);
      forall which: set<string>, h | h in live.Keys && h !in which
        ensures OneMore(drive, worlds, which, h)
      {
        DriveOneMore(start, worlds, which, h);
      }
      DriveEach(worlds, drive);
    }

    /** The loop, which takes the live jobs in any order. */
    method DriveEach(worlds: string -> J.World, ghost drive: set<string> -> Svc)
      requires LiveOk() && Abs() == drive({}) && Drives(drive, worlds, live.Keys)
      modifies this, pipeline, live.Values
      ensures LiveOk() && Within(live, old(live))
      ensures Abs() == drive(old(live.Keys))
    {
      var todo := live.Keys;
      ghost var done: set<string> := {};
      while todo != {}
        invariant LiveOk() && Within(live, old(live))
        invariant Split(done, todo, old(live.Keys)) && todo <= live.Keys
        invariant Abs() == drive(done)
        decreases |todo|
      {
        var h :| h in todo;
        assert OneMore(drive, worlds, done, h);
        DriveTo(h, worlds(h), drive(done + {h}));
        SplitMoves(done, todo, old(live.Keys), h);
        todo, done := todo - {h}, done + {h};
      }
    }

    /** One live job, one step; gone from memory if that was its last. */
    method DriveOne(h: string, w: J.World) returns (ghost j: J.Job)
      requires LiveOk() && h in live
      modifies this, pipeline, live[h]
      ensures LiveOk() && Within(live, old(live)) && old(live.Keys) - {h} <= live.Keys
      ensures j == J.Step(old(live[h].Snapshot()), w) && pipeline.disk == old(pipeline.disk)[h := j]
      ensures LiveJobs() == if J.Terminal(j.state) then old(LiveJobs()) - {h} else old(LiveJobs())[h := j]
    {
      ghost var jobs := LiveJobs();
      var done;
      done, j := StepLive(h, w);
      if done {
        DropLive(h);
        assert jobs[h := j] - {h} == jobs - {h};
      }
    }

    /** The same, for a state known beforehand. */
    method DriveTo(h: string, w: J.World, ghost after: Svc)
      requires LiveOk() && h in live && OneStep(Abs(), after, h, w)
      modifies this, pipeline, live[h]
      ensures LiveOk() && Within(live, old(live)) && old(live.Keys) - {h} <= live.Keys
      ensures Abs() == after
    {
      ghost var j := DriveOne(h, w);
      assert pipeline.disk == after.disk;
      assert LiveJobs() == after.live;
    }

    method DropLive(h: string)
      requires LiveOk() && h in live
      modifies this
      ensures LiveOk() && Within(live, old(live))
      ensures live.Keys == old(live.Keys) - {h} && LiveJobs() == old(LiveJobs()) - {h}
    {
      live := live - {h};
      assert LiveJobs() == old(LiveJobs()) - {h};
    }

    method StepLive(h: string, w: J.World) returns (done: bool, ghost j: J.Job)
      requires LiveOk() && h in live
      modifies pipeline, live[h]
      ensures LiveOk() && j == J.Step(old(live[h].Snapshot()), w) && done == J.Terminal(j.state)
      ensures pipeline.disk == old(pipeline.disk)[h := j]
      ensures LiveJobs() == old(LiveJobs())[h := j]
    {
      var job := live[h];
      ghost var jobs := LiveJobs();
      assert forall g :: g in live && g != h ==> live[g] != job;
      pipeline.StepOnDisk(job, w);
      j := job.Snapshot();
      done := job.state == J.Executed || job.state == J.Failed;
      assert forall g :: g in live && g != h ==> live[g].Snapshot() == jobs[g];
      forall g | g in live ensures g in pipeline.disk && pipeline.disk[g] == live[g].Snapshot() {
        if g != h {
          assert g in old(pipeline.disk) && old(pipeline.disk)[g] == jobs[g];
        }
      }
      assert LiveJobs() == jobs[h := j];
    }
  }
}
