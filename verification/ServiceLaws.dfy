/**
 * What the service does with a registration and with a page of the ledger, over
 * the fields of the body, the record, the payment and the job.
 */
module ServiceLaws {
  import opened Results
  import opened Service
  import J = Jobs
  import JobLaws
  import Store
  import W = WireFormat
  import Watch

  // ------------------------------------------------------------------- intake

  /** Not given, or given as an empty text. */
  predicate Missing(o: Option<string>) {
    o.None? || o.value == ""
  }

  predicate Default(o: Option<string>, otherwise: string, text: string) {
    text == if o.Some? then o.value else otherwise
  }

  /** The name of the file a commitment is kept under. */
  function FileName(c: string): string {
    if |c| < 2 then "" else c[2..]
  }

  predicate WrongClaim(b: Body, hash: string) {
    !Missing(b.commitment) && !W.SameIgnoringCase(b.commitment.value, hash)
  }

  /** What is kept of a body. */
  predicate KeptOf(b: Body, hash: string, now: int, r: Store.PendingUserOp) {
    && r.commitment == hash && b.userOpData == Some(r.userOpData) && b.personalAccount == Some(r.personalAccount)
    && Default(b.nonce, "0", r.nonce) && Default(b.totalCallValue, "0", r.totalCallValue)
    && Default(b.summary, "(unlabelled)", r.summary) && r.registeredAt == now
  }

  /**
   * A body without bytes or account, or with a claim that is not the hash of the
   * bytes, changes nothing. Any other is kept in one file, under that hash.
   */
  lemma IntakeExactly(env: Env, s: Svc, b: Body, now: int)
    ensures var (t, reply) := Intake(env, s, b, now);
            && (Missing(b.userOpData) || Missing(b.personalAccount) ==> t == s && reply == BadRequest)
            && (!Missing(b.userOpData) && !Missing(b.personalAccount) ==>
                  var hash := env.keccak(b.userOpData.value);
                  && (WrongClaim(b, hash) ==>
                        t == s && reply == Refused(Store.Mismatch(b.commitment.value, hash)))
                  && (!WrongClaim(b, hash) ==>
                        && reply == Accepted(hash) && t == s.(files := t.files)
                        && FileName(hash) in t.files && KeptOf(b, hash, now, t.files[FileName(hash)])
                        && Store.PutIn(s.files, t.files, FileName(hash), t.files[FileName(hash)])))
  {
    if !Missing(b.userOpData) && b.commitment.Some? {
      W.LowerOnce(b.commitment.value, env.keccak(b.userOpData.value));
    }
  }

  // ------------------------------------------------------------------ the jobs

  /** A job can be made: the two amounts are numbers and the hash is one. */
  predicate Readable(env: Env, r: Store.PendingUserOp, hash: string) {
    env.number(r.totalCallValue).Some? && env.number(r.nonce).Some? && JobLaws.TxHash(hash)
  }

  lemma ReadableIs(env: Env, r: Store.PendingUserOp, hash: string)
    ensures Readable(env, r, hash) <==> Creatable(env, r, hash)
  {
    JobLaws.NormalExactlyWhen(hash);
  }

  /** The k-th payment is this one, with a record a job can be made from, and none before it ends the loop. */
  predicate TakenAt(env: Env, s: Svc, found: seq<Watch.ObservedPayment>, h: string, k: nat) {
    && k < |found| && found[k].xrplTxId == h
    && FileName(found[k].commitment) in s.files
    && Readable(env, s.files[FileName(found[k].commitment)], h)
    && forall i :: 0 <= i < k ==> Passed(env, s, found[i])
  }

  /** The payment is known, or no record of it is held, or a job can be made for it. */
  predicate Passed(env: Env, s: Svc, o: Watch.ObservedPayment) {
    || o.xrplTxId in s.live || FileName(o.commitment) !in s.files
    || Readable(env, s.files[FileName(o.commitment)], o.xrplTxId)
  }

  lemma TakenIs(env: Env, s: Svc, found: seq<Watch.ObservedPayment>, h: string)
    ensures Picked(env, s, found, h) <==> exists k: nat :: TakenAt(env, s, found, h, k)
  {
    forall r, hash ensures Readable(env, r, hash) <==> Creatable(env, r, hash) {
      ReadableIs(env, r, hash);
    }
    forall k: nat | k < |found| ensures TakenAt(env, s, found, h, k) <==> PickedAt(env, s, found, h, k) {
      assert forall i :: 0 <= i < k ==> (Passed(env, s, found[i]) <==> !Stops(env, s, found[i]));
    }
  }

  /** The job a tick steps for a payment: the one on disk, or a new one from a record held for it. */
  predicate Stepped(
    env: Env, s: Svc, found: seq<Watch.ObservedPayment>, clock: Clock, h: string, job: J.Job, k: nat)
  {
    if h in s.disk then job == s.disk[h]
    else
      && k < |found| && found[k].xrplTxId == h && FileName(found[k].commitment) in s.files
      && Begins(env, job, s.files[FileName(found[k].commitment)], h, clock(h))
  }

  /**
   * One tick, payment by payment. The jobs it steps are those already live and
   * those of payments just found with a usable record; each takes one step and
   * stays live until it is executed or has failed; no other file is touched.
   */
  lemma TickExactly(
      env: Env, s: Svc, page: seq<Watch.Entry>, clock: Clock, worlds: string -> J.World, h: string, held: set<string>)
      returns (job: J.Job, k: nat)
    requires Agree(s) && PageOk(Some(page))
    requires forall c :: c in held <==> |c| >= 2 && c[..2] == "0x" && W.InLowerCase(c) && c[2..] in s.files
    ensures var t, found := Ticked(env, s, Some(page), clock, worlds), Watch.Poll(s.watch, page, held).1;
            && t.files == s.files && t.watch == Watch.Poll(s.watch, page, held).0
            && (h in s.live || (exists i: nat :: TakenAt(env, s, found, h, i)) ==>
                  && Stepped(env, s, found, clock, h, job, k)
                  && h in t.disk && t.disk[h] == J.Step(job, worlds(h))
                  && (h in t.live <==> t.disk[h].state != J.Executed && t.disk[h].state != J.Failed)
                  && (h in t.live ==> t.live[h] == t.disk[h]))
            && (h !in s.live && (forall i: nat :: !TakenAt(env, s, found, h, i)) && h in s.disk ==>
                  h !in t.live && h in t.disk && t.disk[h] == s.disk[h])
  {
    HeldExactly(s, held);
    var (w, found) := Watch.Poll(s.watch, page, held);
    var m := Observe(env, s, Some(page), clock);
    FoundWellSpelled(s.watch, page, held);
    PollDistinct(s.watch, page, held);
    assert forall i :: 0 <= i < |found| ==> found[i] in found;
    k := AdmitExtends(env, s.(watch := w), found, clock, h);
    AdmitPicks(env, s.(watch := w), found, clock, h);
    TakenIs(env, s.(watch := w), found, h);
    assert forall i: nat :: TakenAt(env, s.(watch := w), found, h, i) <==> TakenAt(env, s, found, h, i);
    ObserveAgrees(env, s, Some(page), clock);
    job := *;
    if h in m.disk {
      job := m.disk[h];
    }
    AdmitWatch(env, s.(watch := w), found, clock);
  }

  lemma HeldExactly(s: Svc, held: set<string>)
    requires forall c :: c in held <==> |c| >= 2 && c[..2] == "0x" && W.InLowerCase(c) && c[2..] in s.files
    ensures held == Held(s.files)
  {
    forall c ensures c in held <==> c in Held(s.files) {
      W.LowerOnce(c, c);
      assert W.SameIgnoringCase(c, c);
      if |c| >= 2 && c[..2] == "0x" {
        assert c == "0x" + c[2..];
      }
      if c in Held(s.files) {
        var f :| f in s.files && c == "0x" + f && Store.IsCommitment(c);
        assert c[2..] == f;
      }
    }
  }

  lemma {:induction false} AdmitWatch(env: Env, s: Svc, found: seq<Watch.ObservedPayment>, clock: Clock)
    ensures Admit(env, s, found, clock).watch == s.watch
    decreases |found|
  {
    if found != [] {
      AdmitWatch(env, AdmitOne(env, s, found[0], clock).0, found[1..], clock);
    }
  }
}
