/**
 * The watcher: which payments to the Core Vault it reports, when, and how often.
 */
module Watch {
  import opened Results
  import opened Hex
  import Memo
  import Store

  /** A transaction's fields; a memo without text is None, and Memos may not be a list at all. */
  datatype Tx = Tx(
    kind: string,
    hash: Option<string>,
    memos: Option<seq<Option<string>>>,
    amount: string,
    account: string)

  /** One entry of an account_tx page. */
  datatype Entry = Entry(
    hash: Option<string>,
    ledgerIndex: Option<int>,
    validated: Option<bool>,
    txJson: Option<Tx>,
    tx: Option<Tx>)

  datatype ObservedPayment = ObservedPayment(
    xrplTxId: string,
    commitment: string,
    amount: string,
    sender: string,
    ledgerIndex: int)

  // ------------------------------------------------------- finding a commitment

  /** Node's lenient reading of hex text: it stops at the first pair that is not hex. */
  function LenientBytes(s: string): seq<byte> {
    if |s| < 2 || !IsDigit(s[0]) || !IsDigit(s[1]) then []
    else [16 * Value(s[0]) + Value(s[1])] + LenientBytes(s[2..])
  }

  function MemoCommitment(memo: Option<string>): Option<string> {
    if memo.None? then None
    else
      var decoded := Memo.Decode(LenientBytes(memo.value));
      if decoded.Ok? && decoded.value.ExecuteCommitted? then Some(decoded.value.userOpHash) else None
  }

  /** The commitment of the first memo that has one. */
  function FirstCommitment(memos: seq<Option<string>>): Option<string> {
    if memos == [] then None
    else if MemoCommitment(memos[0]).Some? then MemoCommitment(memos[0])
    else FirstCommitment(memos[1..])
  }

  function Commitment(tx: Tx): Option<string> {
    if tx.memos.None? then None else FirstCommitment(tx.memos.value)
  }

  method CommitmentFromMemos(tx: Tx) returns (r: Option<string>)
    ensures r == Commitment(tx)
    ensures r.Some? ==> exists k ::
      && 0 <= k < |tx.memos.value| && MemoCommitment(tx.memos.value[k]) == r
      && forall j :: 0 <= j < k ==> MemoCommitment(tx.memos.value[j]).None?
    ensures r.None? && tx.memos.Some? ==>
      forall k :: 0 <= k < |tx.memos.value| ==> MemoCommitment(tx.memos.value[k]).None?
  {
    if tx.memos.None? {
      return None;
    }
    var memos := tx.memos.value;
    for k := 0 to |memos|
      invariant Commitment(tx) == FirstCommitment(memos[k..])
      invariant forall j :: 0 <= j < k ==> MemoCommitment(memos[j]).None?
    {
      assert memos[k..][1..] == memos[k + 1..];
      if memos[k].Some? {
        var decoded := Memo.Decode(LenientBytes(memos[k].value));
        if decoded.Ok? && decoded.value.ExecuteCommitted? {
          return Some(decoded.value.userOpHash);
        }
      }
    }
    return None;
  }

  lemma {:induction false} LenientReadsHex(s: string)
    requires AllDigits(s) && |s| % 2 == 0
    ensures LenientBytes(s) == Pack(s)
  {
    if s != [] {
      LenientReadsHex(s[2..]);
    }
  }

  lemma FoundIsCommitment(tx: Tx)
    requires Commitment(tx).Some?
    ensures Store.IsCommitment(Commitment(tx).value) && |Commitment(tx).value| == 66
  {
    FoundInMemos(tx.memos.value);
  }

  lemma {:induction false} FoundInMemos(memos: seq<Option<string>>)
    requires FirstCommitment(memos).Some?
    ensures Store.IsCommitment(FirstCommitment(memos).value) && |FirstCommitment(memos).value| == 66
  {
    if MemoCommitment(memos[0]).Some? {
      Memo.HexOfBytes(LenientBytes(memos[0].value)[10..]);
    } else {
      FoundInMemos(memos[1..]);
    }
  }

  lemma SdkMemoRead(i: Memo.Instruction, checksummed: string -> bool)
    requires i.ExecuteCommitted? && Memo.Encoded(i, checksummed).Ok?
    ensures MemoCommitment(Some(Memo.ToXrplMemoHex(Memo.Encoded(i, checksummed).value))) == Some(Lower(i.userOpHash))
  {
    var bytes := Memo.Encoded(i, checksummed).value;
    Memo.DecodeEncoded(i, checksummed);
    UnpackDigits(bytes);
    PackUpper(Unpack(bytes));
    PackUnpack(bytes);
    LenientReadsHex(Memo.ToXrplMemoHex(bytes));
  }

  lemma {:induction false} FirstBehind(others: seq<Option<string>>, memo: Option<string>, rest: seq<Option<string>>)
    requires forall k :: 0 <= k < |others| ==> MemoCommitment(others[k]).None?
    requires MemoCommitment(memo).Some?
    ensures FirstCommitment(others + [memo] + rest) == MemoCommitment(memo)
  {
    var memos := others + [memo] + rest;
    if others != [] {
      FirstBehind(others[1..], memo, rest);
      assert memos[1..] == others[1..] + [memo] + rest;
    }
  }

  lemma FirstAt(tx: Tx, k: nat, c: string)
    requires tx.memos.Some? && k < |tx.memos.value| && MemoCommitment(tx.memos.value[k]) == Some(c)
    requires forall j :: 0 <= j < k ==> MemoCommitment(tx.memos.value[j]).None?
    ensures Commitment(tx) == Some(c)
  {
    var memos := tx.memos.value;
    FirstBehind(memos[..k], memos[k], memos[k + 1..]);
    assert memos == memos[..k] + [memos[k]] + memos[k + 1..];
  }

  /**
   * The SDK and the watcher agree: a committed-execute memo, encoded, written in
   * XRPL's hex and put on a payment behind memos of other kinds, is found and
   * yields the commitment it was made from.
   */
  lemma WatcherReadsSdkMemo(i: Memo.Instruction, checksummed: string -> bool, tx: Tx, k: nat)
    requires i.ExecuteCommitted? && Memo.Encoded(i, checksummed).Ok?
    requires tx.memos.Some? && k < |tx.memos.value|
    requires tx.memos.value[k] == Some(Memo.ToXrplMemoHex(Memo.Encoded(i, checksummed).value))
    requires forall j :: 0 <= j < k ==> MemoCommitment(tx.memos.value[j]).None?
    ensures Commitment(tx) == Some(Lower(i.userOpHash))
  {
    SdkMemoRead(i, checksummed);
    FirstAt(tx, k, Lower(i.userOpHash));
  }

  // ------------------------------------------------------------ one entry, one poll

  datatype State = State(lastLedger: int, seen: set<string>)

  function Body(e: Entry): Option<Tx> {
    if e.txJson.Some? then e.txJson else e.tx
  }

  /** The entry's hash; an empty one counts as none. */
  function HashOf(e: Entry): Option<string>
    requires Body(e).Some?
  {
    var h := if e.hash.Some? then e.hash else Body(e).value.hash;
    if h == Some("") then None else h
  }

  function LedgerOf(e: Entry): int {
    if e.ledgerIndex.Some? then e.ledgerIndex.value else 0
  }

  /** A payment the ledger has not disowned. */
  predicate IsPayment(e: Entry) {
    e.validated != Some(false) && Body(e).Some? && Body(e).value.kind == "Payment"
  }

  function Report(e: Entry, hash: string, commitment: string): ObservedPayment
    requires Body(e).Some?
  {
    ObservedPayment(hash, commitment, Body(e).value.amount, Body(e).value.account, LedgerOf(e))
  }

  /** A payment is reported if it is new, has a hash and a commitment, and the commitment is held. */
  function Match(w: State, e: Entry, held: set<string>): (State, Option<ObservedPayment>)
    requires Body(e).Some?
  {
    var hash, commitment := HashOf(e), Commitment(Body(e).value);
    if (hash.Some? && hash.value in w.seen) || commitment.None? || commitment.value !in held || hash.None?
    then (w, None)
    else (w.(seen := w.seen + {hash.value}), Some(Report(e, hash.value, commitment.value)))
  }

  /** One turn of the poll's loop; held says whether the store answers for a commitment. */
  function Examine(w: State, e: Entry, held: set<string>): (State, Option<ObservedPayment>) {
    if !IsPayment(e) then (w, None)
    else Match(if LedgerOf(e) > w.lastLedger then w.(lastLedger := LedgerOf(e)) else w, e, held)
  }

  function Poll(w: State, page: seq<Entry>, held: set<string>): (State, seq<ObservedPayment>) {
    if page == [] then (w, [])
    else
      var (v, found) := Poll(w, page[..|page| - 1], held);
      var (u, one) := Examine(v, page[|page| - 1], held);
      (u, if one.Some? then found + [one.value] else found)
  }

  /** The commitments a store answers for. */
  predicate Holds(s: Store.Contents, commitment: string) {
    Lower(commitment) in s.memory || Store.FileOf(commitment) in s.disk
  }

  class Watcher {
    const store: Store.PendingStore
    var lastLedger: int
    var seen: set<string>

    constructor (store: Store.PendingStore)
      ensures this.store == store && Abs() == State(0, {})
    {
      this.store := store;
      lastLedger, seen := 0, {};
    }

    function Abs(): State
      reads this
    {
      State(lastLedger, seen)
    }

    /** The commitments the store answers for. */
    ghost predicate Answers(held: set<string>)
      reads store
    {
      forall c :: c in held <==> Holds(store.Abs(), c) && Store.IsCommitment(c)
    }

    /** Every record is under its hash, and the cache agrees with the disk. */
    ghost predicate StoreOk()
      reads store
    {
      Store.LowerHash(store.keccak) && Store.Inv(store.keccak, store.Abs())
    }

    method SetStartLedger(index: int)
      modifies this
      ensures Abs() == State(index, old(seen))
    {
      lastLedger := index;
    }

    /** One polling pass over the page the ledger answered with. */
    method PollPage(page: seq<Entry>, ghost held: set<string>) returns (found: seq<ObservedPayment>)
      requires Answers(held)
      modifies this, store`memory
      ensures (Abs(), found) == Poll(old(Abs()), page, held)
      ensures store.disk == old(store.disk) && (StoreOk() <== old(StoreOk()))
      ensures Answers(held)
    {
      found := [];
      for k := 0 to |page|
        invariant (Abs(), found) == Poll(old(Abs()), page[..k], held)
        invariant store.disk == old(store.disk) && (StoreOk() <== old(StoreOk()))
        invariant Answers(held)
      {
        assert page[..k + 1][..k] == page[..k];
        var one := ExamineEntry(page[k], held);
        if one.Some? {
          found := found + [one.value];
        }
      }
      assert page[..|page|] == page;
    }

    /** Asks the store, which may fill its cache but never changes what it holds. */
    method LookUp(commitment: string, ghost tx: Tx, ghost held: set<string>)
        returns (pending: Option<Store.PendingUserOp>)
      requires Commitment(tx) == Some(commitment)
      requires Answers(held)
      modifies store`memory
      ensures pending.Some? <==> commitment in held
      ensures Answers(held)
      ensures StoreOk() <== old(StoreOk())
    {
      FoundIsCommitment(tx);
      ghost var before := store.Abs();
      pending := store.DoGet(commitment);
      HoldsAfterGet(before, commitment);
      if old(StoreOk()) {
        Store.GetKeeps(store.keccak, before, commitment);
      }
    }

    method ExamineEntry(entry: Entry, ghost held: set<string>) returns (r: Option<ObservedPayment>)
      requires Answers(held)
      modifies this, store`memory
      ensures (Abs(), r) == Examine(old(Abs()), entry, held)
      ensures store.disk == old(store.disk) && (StoreOk() <== old(StoreOk()))
      ensures Answers(held)
    {
      if entry.validated == Some(false) {
        return None;
      }
      var tx := if entry.txJson.Some? then entry.txJson else entry.tx;
      if tx.None? || tx.value.kind != "Payment" {
        return None;
      }
      var ledgerIndex := if entry.ledgerIndex.Some? then entry.ledgerIndex.value else 0;
      if ledgerIndex > lastLedger {
        lastLedger := ledgerIndex;
      }
      r := MatchEntry(entry, tx.value, ledgerIndex, held);
    }

    /** The rest of the turn, for a payment: is it one the store is waiting for? */
    method MatchEntry(entry: Entry, tx: Tx, ledgerIndex: int, ghost held: set<string>)
        returns (r: Option<ObservedPayment>)
      requires Answers(held) && Body(entry) == Some(tx) && ledgerIndex == LedgerOf(entry)
      modifies this, store`memory
      ensures (Abs(), r) == Match(old(Abs()), entry, held)
      ensures store.disk == old(store.disk) && (StoreOk() <== old(StoreOk()))
      ensures Answers(held)
    {
      var hash := if entry.hash.Some? then entry.hash else tx.hash;
      if hash.Some? && hash.value != "" && hash.value in seen {
        return None;
      }
      assert !(HashOf(entry).Some? && HashOf(entry).value in seen);
      var commitment := CommitmentFromMemos(tx);
      if commitment.None? {
        return None;
      }
      var pending := LookUp(commitment.value, tx, held);
      if pending.None? || hash.None? || hash.value == "" {
        return None;
      }
      assert HashOf(entry) == hash;
      seen := seen + {hash.value};
      return Some(ObservedPayment(hash.value, commitment.value, tx.amount, tx.account, ledgerIndex));
    }
  }

  /** A look-up answers just when the store holds the commitment, and changes none of the answers. */
  lemma HoldsAfterGet(s: Store.Contents, commitment: string)
    requires Store.IsCommitment(commitment)
    ensures Store.Get(s, commitment).1.Some? <==> Holds(s, commitment)
    ensures forall c :: Store.IsCommitment(c) ==> (Holds(Store.Get(s, commitment).0, c) <==> Holds(s, c))
  {
  }

  // ----------------------------------------------------------- sequences of polls

  /** What happens, in order, while the watcher polls: entries looked at, commitments registered. */
  datatype Event = Saw(e: Entry) | Registered(commitment: string)

  function HeldAfter(events: seq<Event>): set<string> {
    set k | 0 <= k < |events| && events[k].Registered? :: events[k].commitment
  }

  function Watching(start: int, events: seq<Event>): (State, seq<ObservedPayment>) {
    if events == [] then (State(start, {}), [])
    else
      var n := |events| - 1;
      var (w, found) := Watching(start, events[..n]);
      match events[n]
      case Registered(_) => (w, found)
      case Saw(e) =>
        var (v, one) := Examine(w, e, HeldAfter(events[..n]));
        (v, if one.Some? then found + [one.value] else found)
  }

  /** At position k the watcher sees a payment with a hash whose commitment is held by then. */
  predicate Eligible(events: seq<Event>, k: nat)
    requires k < |events|
  {
    && events[k].Saw? && IsPayment(events[k].e) && HashOf(events[k].e).Some?
    && Commitment(Body(events[k].e).value).Some?
    && Commitment(Body(events[k].e).value).value in HeldAfter(events[..k])
  }

  function EligibleHash(events: seq<Event>, k: nat): string
    requires k < |events| && Eligible(events, k)
  {
    HashOf(events[k].e).value
  }

  predicate FirstSighting(events: seq<Event>, k: nat)
    requires k < |events|
  {
    Eligible(events, k) &&
    forall j :: 0 <= j < k && Eligible(events, j) ==> EligibleHash(events, j) != EligibleHash(events, k)
  }

  /** The reference: the eligible first sightings among the first n events, in order. */
  function Filtered(events: seq<Event>, n: nat): seq<ObservedPayment>
    requires n <= |events|
  {
    if n == 0 then []
    else if FirstSighting(events, n - 1) then
      var e := events[n - 1].e;
      Filtered(events, n - 1) + [Report(e, HashOf(e).value, Commitment(Body(e).value).value)]
    else Filtered(events, n - 1)
  }

  function HighestLedger(start: int, events: seq<Event>): int {
    if events == [] then start
    else
      var n := |events| - 1;
      var rest := HighestLedger(start, events[..n]);
      if events[n].Saw? && IsPayment(events[n].e) && LedgerOf(events[n].e) > rest
      then LedgerOf(events[n].e) else rest
  }

  ghost predicate SeenExactly(events: seq<Event>, seen: set<string>) {
    && (forall k: nat :: k < |events| && Eligible(events, k) ==> EligibleHash(events, k) in seen)
    && (forall h :: h in seen ==> exists k: nat :: k < |events| && Eligible(events, k) && EligibleHash(events, k) == h)
  }

  lemma EligiblePrefix(events: seq<Event>, n: nat, k: nat)
    requires k < n <= |events|
    ensures Eligible(events[..n], k) <==> Eligible(events, k)
    ensures Eligible(events, k) ==> EligibleHash(events[..n], k) == EligibleHash(events, k)
    ensures FirstSighting(events[..n], k) <==> FirstSighting(events, k)
  {
    assert events[..n][..k] == events[..k];
    forall j: nat | j < k ensures Eligible(events[..n], j) <==> Eligible(events, j) {
      assert events[..n][..j] == events[..j];
    }
  }

  lemma {:induction false} FilteredPrefix(events: seq<Event>, n: nat, k: nat)
    requires k <= n <= |events|
    ensures Filtered(events[..n], k) == Filtered(events, k)
    decreases k
  {
    if k > 0 {
      FilteredPrefix(events, n, k - 1);
      EligiblePrefix(events, n, k - 1);
    }
  }

  lemma EligibleBefore(events: seq<Event>, h: string)
    requires events != []
    ensures var n := |events| - 1;
            (exists k: nat :: k < n && Eligible(events[..n], k) && EligibleHash(events[..n], k) == h) <==>
            (exists k: nat :: k < n && Eligible(events, k) && EligibleHash(events, k) == h)
  {
    var n := |events| - 1;
    if k: nat :| k < n && Eligible(events[..n], k) && EligibleHash(events[..n], k) == h {
      EligiblePrefix(events, n, k);
    }
    if k: nat :| k < n && Eligible(events, k) && EligibleHash(events, k) == h {
      EligiblePrefix(events, n, k);
      assert Eligible(events[..n], k) && EligibleHash(events[..n], k) == h;
    }
  }

  /** The hash of an eligible event before the last. */
  ghost predicate SeenBefore(events: seq<Event>, h: string)
    requires events != []
  {
    exists k: nat :: k < |events| - 1 && Eligible(events, k) && EligibleHash(events, k) == h
  }

  lemma SeenIsBefore(events: seq<Event>, seen: set<string>, h: string)
    requires events != [] && SeenExactly(events[..|events| - 1], seen)
    ensures h in seen <==> SeenBefore(events, h)
  {
    EligibleBefore(events, h);
  }

  lemma SeenGrows(events: seq<Event>, seen: set<string>, seen': set<string>)
    requires events != [] && SeenExactly(events[..|events| - 1], seen)
    requires seen' == if Eligible(events, |events| - 1) then seen + {EligibleHash(events, |events| - 1)} else seen
    ensures SeenExactly(events, seen')
    ensures FirstSighting(events, |events| - 1) <==>
            Eligible(events, |events| - 1) && EligibleHash(events, |events| - 1) !in seen
  {
    var n := |events| - 1;
    forall k: nat | k < n && Eligible(events, k) ensures EligibleHash(events, k) in seen {
      SeenIsBefore(events, seen, EligibleHash(events, k));
    }
    forall h | h in seen' ensures exists k: nat :: k <= n && Eligible(events, k) && EligibleHash(events, k) == h {
      SeenIsBefore(events, seen, h);
    }
    if Eligible(events, n) {
      SeenIsBefore(events, seen, EligibleHash(events, n));
    }
  }

  /**
   * The watcher refines a filter, over any sequence of polls with registrations
   * at any point between two look-ups: it reports, in order, each payment at its
   * first sighting with its commitment held, and nothing else. The cursor is the
   * highest ledger of the payments seen, starting from where it was set.
   */
  lemma {:induction false} WatcherIsFilter(start: int, events: seq<Event>)
    ensures var (w, found) := Watching(start, events);
            && found == Filtered(events, |events|)
            && w.lastLedger == HighestLedger(start, events)
            && SeenExactly(events, w.seen)
  {
    if events != [] {
      var n := |events| - 1;
      WatcherIsFilter(start, events[..n]);
      FilteredPrefix(events, n, n);
      var w, v := Watching(start, events[..n]).0, Watching(start, events).0;
      assert v.seen == if Eligible(events, n) then w.seen + {EligibleHash(events, n)} else w.seen;
      SeenGrows(events, w.seen, v.seen);
    }
  }

  lemma {:induction false} FilteredOnce(events: seq<Event>, n: nat, i: nat, j: nat)
    requires n <= |events| && i < j < |Filtered(events, n)|
    ensures Filtered(events, n)[i].xrplTxId != Filtered(events, n)[j].xrplTxId
    decreases n
  {
    if FirstSighting(events, n - 1) && j == |Filtered(events, n)| - 1 {
      var k := ReportedFrom(events, n - 1, i);
    } else {
      FilteredOnce(events, n - 1, i, j);
    }
  }

  lemma {:induction false} ReportedFrom(events: seq<Event>, n: nat, i: nat) returns (k: nat)
    requires n <= |events| && i < |Filtered(events, n)|
    ensures k < n && FirstSighting(events, k) && Filtered(events, n)[i].xrplTxId == EligibleHash(events, k)
    ensures Filtered(events, n)[i].commitment == Commitment(Body(events[k].e).value).value
    decreases n
  {
    if FirstSighting(events, n - 1) && i == |Filtered(events, n)| - 1 {
      k := n - 1;
    } else {
      k := ReportedFrom(events, n - 1, i);
    }
  }

  lemma {:induction false} HighestGrows(start: int, events: seq<Event>, n: nat)
    requires n <= |events|
    ensures HighestLedger(start, events[..n]) <= HighestLedger(start, events)
    decreases |events|
  {
    if n == |events| {
      assert events[..n] == events;
    } else {
      HighestGrows(start, events[..|events| - 1], n);
      assert events[..|events| - 1][..n] == events[..n];
    }
  }

  /** No payment is ever reported twice, although the cursor's ledger is asked for again. */
  lemma ReportedOnce(start: int, events: seq<Event>, i: nat, j: nat)
    requires i < j < |Watching(start, events).1|
    ensures Watching(start, events).1[i].xrplTxId != Watching(start, events).1[j].xrplTxId
  {
    WatcherIsFilter(start, events);
    FilteredOnce(events, |events|, i, j);
  }

  /** The cursor never moves back, and never behind where it was set. */
  lemma CursorMonotone(start: int, events: seq<Event>, n: nat)
    requires n <= |events|
    ensures start <= Watching(start, events[..n]).0.lastLedger <= Watching(start, events).0.lastLedger
  {
    WatcherIsFilter(start, events);
    WatcherIsFilter(start, events[..n]);
    HighestGrows(start, events, n);
    HighestGrows(start, events[..n], 0);
    assert events[..n][..0] == [];
  }

  function Saws(page: seq<Entry>): seq<Event> {
    seq(|page|, k requires 0 <= k < |page| => Saw(page[k]))
  }

  lemma WatchingOne(start: int, events: seq<Event>, e: Entry)
    ensures var (w, found) := Watching(start, events);
            var (v, one) := Examine(w, e, HeldAfter(events));
            Watching(start, events + [Saw(e)]) == (v, if one.Some? then found + [one.value] else found)
  {
    var all := events + [Saw(e)];
    assert all[..|all| - 1] == events;
  }

  /** A poll is its page looked at entry by entry: polls in a row make up one long watch. */
  lemma {:induction false} PollIsWatching(start: int, events: seq<Event>, page: seq<Entry>)
    ensures var (w, found) := Watching(start, events);
            var (v, more) := Poll(w, page, HeldAfter(events));
            Watching(start, events + Saws(page)) == (v, found + more)
    decreases |page|
  {
    if page == [] {
      assert events + Saws(page) == events;
      assert Watching(start, events).1 + [] == Watching(start, events).1;
    } else {
      var init, last := page[..|page| - 1], page[|page| - 1];
      PollIsWatching(start, events, init);
      SawsRegisterNothing(events, init);
      WatchingOne(start, events + Saws(init), last);
      SawsLast(events, page);
      var (w, found) := Watching(start, events);
      var (v, fewer) := Poll(w, init, HeldAfter(events));
      var one := Examine(v, last, HeldAfter(events)).1;
      assert one.Some? ==> (found + fewer) + [one.value] == found + (fewer + [one.value]);
    }
  }

  lemma SawsLast(events: seq<Event>, page: seq<Entry>)
    requires page != []
    ensures events + Saws(page) == (events + Saws(page[..|page| - 1])) + [Saw(page[|page| - 1])]
  {
  }

  lemma SawsRegisterNothing(events: seq<Event>, page: seq<Entry>)
    ensures HeldAfter(events + Saws(page)) == HeldAfter(events)
  {
    var all := events + Saws(page);
    forall c | c in HeldAfter(all) ensures c in HeldAfter(events) {
      var k :| 0 <= k < |all| && all[k].Registered? && all[k].commitment == c;
      assert k < |events|;
    }
    forall c | c in HeldAfter(events) ensures c in HeldAfter(all) {
      var k :| 0 <= k < |events| && events[k].Registered? && events[k].commitment == c;
      assert all[k] == events[k];
    }
  }
}
