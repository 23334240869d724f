/**
 * What each action of an executor does to its store, its disk and its tasks, over
 * the fields of the registration, the ledger entry, the record and the job.
 */
module ExecutorLaws {
  import opened Results
  import opened Executor
  import opened Jobs
  import E = WatchEntries
  import JobLaws
  import S = Service
  import Store
  import V = ServiceLaws
  import W = WireFormat
  import Watch

  // --------------------------------------------------------- what starts a task

  /** A registration is put in the cache at once, and its file is still to be written; a wrong claim does nothing. */
  lemma RegisteringStarts(env: Env, s: State, r: Store.Registration, now: int, low: string)
    requires TasksRefer(s)
    requires W.SameIgnoringCase(env.keccak(r.userOpData), low) && W.InLowerCase(low)
    ensures var hash, t := env.keccak(r.userOpData), Next(env, s, Register(r, now));
            && (Store.Misclaims(r, hash) ==> t == s)
            && (!Store.Misclaims(r, hash) ==>
                  && t == s.(store := s.store.(memory := t.store.memory), tasks := t.tasks)
                  && low in t.store.memory && Store.Files(t.store.memory[low], r, hash, now)
                  && Store.PutIn(s.store.memory, t.store.memory, low, t.store.memory[low])
                  && t.tasks == s.tasks + [Registering(t.store.memory[low])])
  {
    W.LowerOnce(env.keccak(r.userOpData), low);
    if r.claimed.Some? {
      W.LowerOnce(r.claimed.value, env.keccak(r.userOpData));
    }
  }

  /** An entry that holds a payment with this hash, whose memos commit to c. */
  ghost predicate Shows(e: Watch.Entry, hash: string, c: string) {
    exists tx :: E.Holds(e, tx) && E.Named(e, tx, hash) && E.TxCommitsTo(tx, c)
  }

  lemma ShowsIs(e: Watch.Entry, hash: string, c: string)
    ensures Shows(e, hash, c) <==>
            && Watch.IsPayment(e) && Watch.HashOf(e) == Some(hash)
            && Watch.Commitment(Watch.Body(e).value) == Some(c)
  {
    if Watch.Body(e).Some? {
      var tx := Watch.Body(e).value;
      E.TxExactlyWhen(tx, c);
      assert forall other :: E.Holds(e, other) ==> other == tx;
      assert Watch.IsPayment(e) ==> E.Holds(e, tx);
    }
  }

  /** Seeing a payment starts a look-up of what it commits to; seeing anything else starts nothing. */
  lemma SeeingStarts(env: Env, s: State, e: Watch.Entry, hash: string, c: string)
    requires TasksRefer(s)
    ensures Shows(e, hash, c) ==> Next(env, s, See(e)) == s.(tasks := s.tasks + [Getting(hash, c, false)])
    ensures (forall h, d :: !Shows(e, h, d)) ==> Next(env, s, See(e)) == s
  {
    ShowsIs(e, hash, c);
    if Watch.IsPayment(e) && Watch.HashOf(e).Some? && Watch.Commitment(Watch.Body(e).value).Some? {
      ShowsIs(e, Watch.HashOf(e).value, Watch.Commitment(Watch.Body(e).value).value);
    }
  }

  /** A script takes a job from the disk; one that failed it sends back to the start, and saves. */
  lemma ReopeningStarts(env: Env, s: State, id: string, now: int)
    requires TasksRefer(s)
    ensures var t := Next(env, s, Reopen(id, now));
            && (id !in s.disk ==> t == s)
            && (id in s.disk ==>
                  && t == s.(jobs := t.jobs, tasks := t.tasks)
                  && |t.jobs| == |s.jobs| + 1 && t.jobs[..|s.jobs|] == s.jobs
                  && var j, k := s.disk[id], t.jobs[|s.jobs|];
                     && (j.state != Failed ==> k == j && t.tasks == s.tasks)
                     && (j.state == Failed ==>
                           && k == j.(state := Observed, attempts := 0, lastError := None, updatedAt := now)
                           && t.tasks == s.tasks + [Stepping(|s.jobs|, Saving)]))
  {
  }

  /** A crash empties the cache and ends the tasks it kills; the files, and what else runs, stay. */
  lemma CrashLeaves(env: Env, s: State, killed: set<nat>)
    requires TasksRefer(s)
    ensures var t := Next(env, s, Crash(killed));
            && t.store.memory.Keys == {} && t.store.disk == s.store.disk
            && t.disk == s.disk && t.jobs == s.jobs && t.trace == s.trace && |t.tasks| == |s.tasks|
            && forall k :: 0 <= k < |s.tasks| ==> t.tasks[k] == if k in killed then Finished else s.tasks[k]
  {
  }

  // ------------------------------------------------------ what takes a task on

  /** A look-up for a tick ends with a record to make a job of, one for a poll with a payment to report. */
  predicate Answered(t: Task, hash: string, c: string, forTick: bool, r: Store.PendingUserOp) {
    if forTick then t == Loading(hash, r) else t == Found(hash, c)
  }

  /** A look-up reads the cache; failing that it reads the file, and then fills the cache; failing that it ends. */
  lemma LookUpGoesOn(env: Env, s: State, k: nat, w: World, low: string)
    requires k < |s.tasks| && s.tasks[k].Getting?
    requires W.SameIgnoringCase(s.tasks[k].commitment, low) && W.InLowerCase(low)
    ensures var Getting(hash, c, forTick) := s.tasks[k];
            var t, file := ResumeTask(env, s, k, w), V.FileName(c);
            && t == s.(tasks := t.tasks) && OnlyTask(s, t, k)
            && (low in s.store.memory ==> Answered(t.tasks[k], hash, c, forTick, s.store.memory[low]))
            && (low !in s.store.memory && file in s.store.disk ==>
                  t.tasks[k] == Caching(hash, c, forTick, s.store.disk[file]))
            && (low !in s.store.memory && file !in s.store.disk ==> t.tasks[k] == Finished)
  {
    W.LowerOnce(s.tasks[k].commitment, low);
  }

  /** One task moves and no other. */
  predicate OnlyTask(s: State, t: State, k: nat) {
    && k < |s.tasks| == |t.tasks|
    && forall i :: 0 <= i < |s.tasks| && i != k ==> t.tasks[i] == s.tasks[i]
  }

  lemma CachingGoesOn(env: Env, s: State, k: nat, w: World, low: string)
    requires k < |s.tasks| && s.tasks[k].Caching?
    requires W.SameIgnoringCase(s.tasks[k].commitment, low) && W.InLowerCase(low)
    ensures var Caching(hash, c, forTick, r) := s.tasks[k];
            var t := ResumeTask(env, s, k, w);
            && t == s.(store := s.store.(memory := t.store.memory), tasks := t.tasks) && OnlyTask(s, t, k)
            && Store.PutIn(s.store.memory, t.store.memory, low, r)
            && Answered(t.tasks[k], hash, c, forTick, r)
  {
    W.LowerOnce(s.tasks[k].commitment, low);
  }

  /** A registration ends with its file written; a payment reported is looked up again by the tick. */
  lemma RegisteringGoesOn(env: Env, s: State, k: nat, w: World)
    requires k < |s.tasks| && (s.tasks[k].Registering? || s.tasks[k].Found?)
    ensures var t := ResumeTask(env, s, k, w);
            && OnlyTask(s, t, k)
            && (s.tasks[k].Registering? ==>
                  && t == s.(store := s.store.(disk := t.store.disk), tasks := t.tasks) && t.tasks[k] == Finished
                  && var r := s.tasks[k].record;
                     Store.PutIn(s.store.disk, t.store.disk, V.FileName(r.commitment), r))
            && (s.tasks[k].Found? ==>
                  && t == s.(tasks := t.tasks)
                  && t.tasks[k] == Getting(s.tasks[k].hash, s.tasks[k].commitment, true))
  {
  }

  /** The digits of a hash, in upper case. */
  predicate Canonical(hash: string, id: string) {
    var body := JobLaws.WithoutPrefix(hash);
    && |id| == 64 && |body| == 64
    && forall k :: 0 <= k < 64 ==>
         id[k] as int == if 97 <= body[k] as int <= 122 then body[k] as int - 32 else body[k] as int
  }

  lemma CanonicalIs(hash: string, id: string)
    requires JobLaws.TxHash(hash) ==> Canonical(hash, id)
    ensures NormalizeXrplTxId(hash) == if JobLaws.TxHash(hash) then Some("0x" + id) else None
  {
    JobLaws.NormalExactlyWhen(hash);
    if JobLaws.TxHash(hash) {
      var n := NormalizeXrplTxId(hash).value;
      assert forall i :: 0 <= i < 64 ==> id[i] == n[2 + i];
      assert n == "0x" + id;
    }
  }

  /** A job is made of a payment and its record as the service makes it, or taken up from the disk. */
  lemma LoadingExactly(env: Env, s: State, k: nat, w: World, id: string)
    requires k < |s.tasks| && s.tasks[k].Loading?
    requires JobLaws.TxHash(s.tasks[k].hash) ==> Canonical(s.tasks[k].hash, id)
    ensures var hash, r, t := s.tasks[k].hash, s.tasks[k].record, ResumeTask(env, s, k, w);
            var readable := V.Readable(S.Env(env.keccak, env.number), r, hash);
            && t == s.(jobs := t.jobs, tasks := t.tasks)
            && (!readable ==> t.jobs == s.jobs && t.tasks == s.tasks[k := Finished])
            && (readable && id in s.disk ==>
                  t.jobs == s.jobs + [s.disk[id]] && t.tasks == s.tasks[k := Finished])
            && (readable && id !in s.disk ==>
                  && |t.jobs| == |s.jobs| + 1 && t.jobs[..|s.jobs|] == s.jobs
                  && S.Begins(S.Env(env.keccak, env.number), t.jobs[|s.jobs|], r, id, w.now)
                  && t.tasks == s.tasks[k := Stepping(|s.jobs|, Saving)])
  {
    CanonicalIs(s.tasks[k].hash, id);
    assert ("0x" + id)[2..] == id;
  }
}
