/**
 * Pending user operations, keyed by their commitment: a memory cache over files
 * on disk. The functions say what each operation does; the class does it in place.
 */
module Store {
  import opened Results
  import opened Hex
  import W = WireFormat

  datatype PendingUserOp = PendingUserOp(
    commitment: string,
    userOpData: string,
    personalAccount: string,
    nonce: string,
    totalCallValue: string,
    summary: string,
    registeredAt: int)

  /** What a caller hands over; a claimed commitment is optional, and "" counts as none. */
  datatype Registration = Registration(
    userOpData: string,
    personalAccount: string,
    nonce: string,
    totalCallValue: string,
    summary: string,
    claimed: Option<string>)

  datatype Mismatch = Mismatch(claimed: string, actual: string)

  datatype Contents = Contents(memory: map<string, PendingUserOp>, disk: map<string, PendingUserOp>)

  /** The hash is written as 0x and lower-case digits. */
  ghost predicate LowerHash(keccak: string -> string) {
    forall data :: HasPrefix(keccak(data)) && Lower(keccak(data)) == keccak(data)
  }

  /** The name of a commitment's file: all but the first two characters. */
  function FileOf(commitment: string): string {
    if |commitment| < 2 then "" else commitment[2..]
  }

  function RecordOf(keccak: string -> string, r: Registration, now: int): PendingUserOp {
    PendingUserOp(keccak(r.userOpData), r.userOpData, r.personalAccount, r.nonce, r.totalCallValue, r.summary, now)
  }

  predicate Accepts(keccak: string -> string, r: Registration) {
    r.claimed.None? || r.claimed.value == "" || Lower(r.claimed.value) == Lower(keccak(r.userOpData))
  }

  function Register(keccak: string -> string, s: Contents, r: Registration, now: int)
    : (Contents, Result<string, Mismatch>)
  {
    var commitment := keccak(r.userOpData);
    if !Accepts(keccak, r) then (s, Err(Mismatch(r.claimed.value, commitment)))
    else
      var record := RecordOf(keccak, r, now);
      (Contents(s.memory[Lower(commitment) := record], s.disk[FileOf(commitment) := record]), Ok(commitment))
  }

  function Get(s: Contents, commitment: string): (Contents, Option<PendingUserOp>) {
    var key := Lower(commitment);
    if key in s.memory then (s, Some(s.memory[key]))
    else if FileOf(commitment) in s.disk then
      (s.(memory := s.memory[key := s.disk[FileOf(commitment)]]), Some(s.disk[FileOf(commitment)]))
    else (s, None)
  }

  /** A new process over the same directory. */
  function Restart(s: Contents): Contents {
    s.(memory := map[])
  }

  // ------------------------------------------------------------ over the fields

  /** A claimed commitment that is not the hash, whatever the case of its letters. */
  predicate Misclaims(r: Registration, hash: string) {
    r.claimed.Some? && r.claimed.value != "" && !W.SameIgnoringCase(r.claimed.value, hash)
  }

  /** What is filed: the hash, what was handed over, and the time. */
  predicate Files(record: PendingUserOp, r: Registration, hash: string, now: int) {
    && record.commitment == hash && record.userOpData == r.userOpData && record.personalAccount == r.personalAccount
    && record.nonce == r.nonce && record.totalCallValue == r.totalCallValue && record.summary == r.summary
    && record.registeredAt == now
  }

  /** The entries of m with this one put in. */
  ghost predicate PutIn(m: map<string, PendingUserOp>, n: map<string, PendingUserOp>, key: string, r: PendingUserOp) {
    && key in n && n[key] == r && n.Keys == m.Keys + {key}
    && forall k :: k in m && k != key ==> n[k] == m[k]
  }

  /**
   * A wrong claim is refused and changes nothing; otherwise one record, under the
   * hash in lower case in memory and under the hash without its 0x on disk.
   */
  lemma RegisterExactly(keccak: string -> string, s: Contents, r: Registration, now: int, low: string)
    requires W.SameIgnoringCase(keccak(r.userOpData), low) && W.InLowerCase(low)
    ensures var hash, (t, reply) := keccak(r.userOpData), Register(keccak, s, r, now);
            && (Misclaims(r, hash) ==> t == s && reply == Err(Mismatch(r.claimed.value, hash)))
            && (!Misclaims(r, hash) ==>
                  && reply == Ok(hash) && low in t.memory
                  && Files(t.memory[low], r, hash, now)
                  && PutIn(s.memory, t.memory, low, t.memory[low])
                  && PutIn(s.disk, t.disk, if |hash| < 2 then "" else hash[2..], t.memory[low]))
  {
    W.LowerOnce(keccak(r.userOpData), low);
    if r.claimed.Some? {
      W.LowerOnce(r.claimed.value, keccak(r.userOpData));
    }
  }

  /** A look-up reads the memory, then the file; a file that is read stays in memory. */
  lemma GetExactly(s: Contents, c: string, low: string)
    requires W.SameIgnoringCase(c, low) && W.InLowerCase(low)
    ensures var file, (t, found) := if |c| < 2 then "" else c[2..], Get(s, c);
            && t.disk == s.disk
            && (low in s.memory ==> t == s && found == Some(s.memory[low]))
            && (low !in s.memory && file in s.disk ==>
                  found == Some(s.disk[file]) && PutIn(s.memory, t.memory, low, s.disk[file]))
            && (low !in s.memory && file !in s.disk ==> t == s && found == None)
  {
    W.LowerOnce(c, low);
  }

  // ------------------------------------------------------------- what it keeps

  /** A commitment as the watcher spells it. */
  predicate IsCommitment(c: string) {
    HasPrefix(c) && Lower(c) == c
  }

  /** Every record, cached or on disk, is filed under the hash of its bytes. */
  predicate RecordsOk(keccak: string -> string, s: Contents) {
    && (forall f :: f in s.disk ==> Lower(f) == f && FiledAs(keccak, s.disk[f], f))
    && (forall k :: k in s.memory ==> FiledAs(keccak, s.memory[k], FileOf(k)))
  }

  predicate FiledAs(keccak: string -> string, r: PendingUserOp, file: string) {
    r.commitment == keccak(r.userOpData) == "0x" + file
  }

  predicate Inv(keccak: string -> string, s: Contents) {
    && RecordsOk(keccak, s)
    && (forall k :: k in s.memory && HasPrefix(k) ==> FileOf(k) in s.disk && s.disk[FileOf(k)] == s.memory[k])
  }

  lemma RegisterKeeps(keccak: string -> string, s: Contents, r: Registration, now: int)
    requires LowerHash(keccak) && Inv(keccak, s)
    ensures Inv(keccak, Register(keccak, s, r, now).0)
  {
    var c := keccak(r.userOpData);
    assert c == "0x" + c[2..];
    LowerTail(c);
    var t := Register(keccak, s, r, now).0;
    forall k | k in t.memory && HasPrefix(k) ensures FileOf(k) in t.disk && t.disk[FileOf(k)] == t.memory[k] {
      if k != c {
        assert k == "0x" + FileOf(k);
      }
    }
  }

  lemma LowerTail(c: string)
    requires HasPrefix(c)
    ensures Lower(c)[2..] == Lower(c[2..]) && HasPrefix(Lower(c)) && FileOf(Lower(c)) == Lower(FileOf(c))
  {
  }

  lemma GetKeeps(keccak: string -> string, s: Contents, c: string)
    requires LowerHash(keccak) && Inv(keccak, s)
    ensures Inv(keccak, Get(s, c).0) && Get(s, c).0.disk == s.disk
  {
    var key := Lower(c);
    if key !in s.memory && FileOf(c) in s.disk {
      var f := FileOf(c);
      assert s.disk[f].commitment == "0x" + f && ("0x" + f)[2..] == f;
      assert FileOf(key) == f by {
        if |c| >= 2 {
          assert Lower(c)[2..] == Lower(c[2..]);
        }
      }
    }
  }

  // -------------------------------------------------------------------- runs

  datatype Op = DoRegister(r: Registration, now: int) | DoGet(commitment: string) | DoRestart

  function Apply(keccak: string -> string, s: Contents, op: Op): Contents {
    match op
    case DoRegister(r, now) => Register(keccak, s, r, now).0
    case DoGet(c) => Get(s, c).0
    case DoRestart => Restart(s)
  }

  function Run(keccak: string -> string, ops: seq<Op>): Contents {
    if ops == [] then Contents(map[], map[])
    else Apply(keccak, Run(keccak, ops[..|ops| - 1]), ops[|ops| - 1])
  }

  /** The record last registered under c, read off the history alone. */
  function LastRegistered(keccak: string -> string, ops: seq<Op>, c: string): Option<PendingUserOp> {
    if ops == [] then None
    else
      var op := ops[|ops| - 1];
      if op.DoRegister? && Accepts(keccak, op.r) && keccak(op.r.userOpData) == c
      then Some(RecordOf(keccak, op.r, op.now))
      else LastRegistered(keccak, ops[..|ops| - 1], c)
  }

  lemma {:induction false} RunKeeps(keccak: string -> string, ops: seq<Op>)
    requires LowerHash(keccak)
    ensures Inv(keccak, Run(keccak, ops))
  {
    if ops != [] {
      var before := Run(keccak, ops[..|ops| - 1]);
      RunKeeps(keccak, ops[..|ops| - 1]);
      match ops[|ops| - 1]
      case DoRegister(r, now) => RegisterKeeps(keccak, before, r, now);
      case DoGet(c) => GetKeeps(keccak, before, c);
      case DoRestart =>
    }
  }

  lemma {:induction false} DiskIsHistory(keccak: string -> string, ops: seq<Op>, c: string)
    requires LowerHash(keccak) && IsCommitment(c)
    ensures var disk := Run(keccak, ops).disk;
            LastRegistered(keccak, ops, c) == if FileOf(c) in disk then Some(disk[FileOf(c)]) else None
  {
    if ops != [] {
      DiskIsHistory(keccak, ops[..|ops| - 1], c);
      var op := ops[|ops| - 1];
      if op.DoRegister? {
        var h := keccak(op.r.userOpData);
        assert h == "0x" + h[2..] && c == "0x" + c[2..];
      }
    }
  }

  /**
   * In every history of registrations, look-ups and restarts, a look-up of a
   * commitment answers with the record last registered for it, whatever the
   * cache holds; and that record's bytes hash to the commitment.
   */
  lemma GetIsLastRegistered(keccak: string -> string, ops: seq<Op>, c: string)
    requires LowerHash(keccak) && IsCommitment(c)
    ensures Get(Run(keccak, ops), c).1 == LastRegistered(keccak, ops, c)
    ensures var r := Get(Run(keccak, ops), c).1; r.Some? ==> keccak(r.value.userOpData) == c
  {
    RunKeeps(keccak, ops);
    DiskIsHistory(keccak, ops, c);
    assert c == "0x" + c[2..];
  }

  /**
   * Dropping the cache changes the answer to a look-up exactly when the commitment
   * is spelled with upper-case letters and is cached: the cache ignores case, the
   * file name does not.
   */
  lemma CacheDropped(keccak: string -> string, ops: seq<Op>, c: string)
    requires LowerHash(keccak) && HasPrefix(c)
    ensures var s := Run(keccak, ops);
            Get(Restart(s), c).1 == Get(s, c).1 <==> (IsCommitment(c) || Lower(c) !in s.memory)
  {
    var s := Run(keccak, ops);
    RunKeeps(keccak, ops);
    LowerTail(c);
    if Lower(c) in s.memory {
      if FileOf(c) in s.disk {
        assert Lower(c[2..]) == c[2..];
        assert c == "0x" + c[2..] && Lower(c) == "0x" + Lower(c)[2..];
      }
    }
  }

  function InUpperCase(commitment: string): string
    requires HasPrefix(commitment)
  {
    "0x" + Upper(commitment[2..])
  }

  /**
   * One registration and two look-ups show it: spelled in upper case, what was
   * registered is found while it is cached and not after a restart.
   */
  lemma CaseShows(keccak: string -> string, r: Registration, now: int)
    requires LowerHash(keccak) && Accepts(keccak, r)
    requires InUpperCase(keccak(r.userOpData)) != keccak(r.userOpData)
    ensures var s := Run(keccak, [DoRegister(r, now)]);
            var c := InUpperCase(keccak(r.userOpData));
            && Get(s, c).1 == Some(RecordOf(keccak, r, now))
            && Get(Restart(s), c).1 == None
  {
    var h := keccak(r.userOpData);
    var c := InUpperCase(h);
    assert [DoRegister(r, now)][..0] == [];
    assert h == "0x" + h[2..];
    assert Lower(c) == h by {
      assert |c| == |h|;
      forall k | 0 <= k < |h| ensures Lower(c)[k] == h[k] {
        assert Lower(h)[k] == h[k];
      }
    }
  }

  /** keccak256 of no bytes at all. */
  const HASH_OF_NOTHING := "0xc5d2460186f7233c927e7db2dcc703c0e500b653ca82273b7bfad8045d85a470"

  lemma HashHasLetter()
    ensures |HASH_OF_NOTHING| == 66 && HASH_OF_NOTHING[62] == 'a'
  {
  }

  lemma UpperCaseDiffers(h: string, k: nat)
    requires HasPrefix(h) && 2 <= k < |h| && 'a' <= h[k] <= 'z'
    ensures InUpperCase(h) != h
  {
    assert InUpperCase(h)[k] == UpperChar(h[k]);
  }

  /** For instance, the operation without bytes. */
  lemma CaseShowsForNothing(keccak: string -> string, now: int)
    requires LowerHash(keccak) && keccak("0x") == HASH_OF_NOTHING
    ensures var r := Registration("0x", "0x00", "0", "0", "", None);
            var s := Run(keccak, [DoRegister(r, now)]);
            Get(s, InUpperCase(HASH_OF_NOTHING)).1.Some? && Get(Restart(s), InUpperCase(HASH_OF_NOTHING)).1.None?
  {
    HashHasLetter();
    UpperCaseDiffers(keccak("0x"), 62);
    CaseShows(keccak, Registration("0x", "0x00", "0", "0", "", None), now);
  }

  // ------------------------------------------------------------------- in place

  class PendingStore {
    const keccak: string -> string
    var memory: map<string, PendingUserOp>
    var disk: map<string, PendingUserOp>

    constructor (keccak: string -> string, disk: map<string, PendingUserOp>)
      ensures this.keccak == keccak && Abs() == Contents(map[], disk)
    {
      this.keccak := keccak;
      memory, this.disk := map[], disk;
    }

    function Abs(): Contents
      reads this
    {
      Contents(memory, disk)
    }

    method DoRegister(entry: Registration, now: int) returns (r: Result<string, Mismatch>)
      modifies this
      ensures (Abs(), r) == Register(keccak, old(Abs()), entry, now)
    {
      var commitment := keccak(entry.userOpData);
      if entry.claimed.Some? && entry.claimed.value != "" && Lower(entry.claimed.value) != Lower(commitment) {
        return Err(Mismatch(entry.claimed.value, commitment));
      }
      var record := PendingUserOp(commitment, entry.userOpData, entry.personalAccount, entry.nonce,
                                  entry.totalCallValue, entry.summary, now);
      memory := memory[Lower(commitment) := record];
      disk := disk[FileOf(commitment) := record];
      return Ok(commitment);
    }

    method DoGet(commitment: string) returns (r: Option<PendingUserOp>)
      modifies this`memory
      ensures (Abs(), r) == Get(old(Abs()), commitment)
    {
      var key := Lower(commitment);
      if key in memory {
        return Some(memory[key]);
      }
      if FileOf(commitment) !in disk {
        return None;
      }
      var record := disk[FileOf(commitment)];
      memory := memory[key := record];
      return Some(record);
    }
  }
}
