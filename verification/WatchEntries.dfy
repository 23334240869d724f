/**
 * What the watcher reports, over the fields of the ledger's answers: said without
 * the watcher's own reading of an entry.
 */
module WatchEntries {
  import opened Results
  import opened Hex
  import opened Watch
  import Memo
  import Store
  import W = WireFormat

  // ------------------------------------------------------- the memo that is looked for

  /** The bytes of the hex pairs a text begins with, up to the first pair that is none. */
  predicate Reads(text: string, bytes: seq<byte>) {
    && 2 * |bytes| <= |text|
    && (forall k :: 0 <= k < |bytes| ==> W.Spelled(text[2 * k], text[2 * k + 1], bytes[k]))
    && !(2 * |bytes| + 2 <= |text| && W.HexChar(text[2 * |bytes|]) && W.HexChar(text[2 * |bytes| + 1]))
  }

  /** A memo of 42 bytes, the first 0xfe, the last 32 the hash, in lower case. */
  ghost predicate CommitsTo(memo: Option<string>, commitment: string) {
    && memo.Some? && W.InLowerCase(commitment)
    && exists bytes: seq<byte> ::
         Reads(memo.value, bytes) && |bytes| == 42 && bytes[0] == 0xfe && W.Spells(commitment, bytes[10..])
  }

  lemma ReadsNothing(text: string)
    requires |text| < 2 || !W.HexChar(text[0]) || !W.HexChar(text[1])
    ensures Reads(text, [])
  {
  }

  lemma {:induction false} LenientReads(text: string)
    ensures Reads(text, LenientBytes(text))
    decreases |text|
  {
    if |text| < 2 {
      ReadsNothing(text);
    } else {
      W.DigitValue(text[0]);
      W.DigitValue(text[1]);
      if IsDigit(text[0]) && IsDigit(text[1]) {
        LenientReads(text[2..]);
        W.OneByte(text[0], text[1]);
        ReadsOneMore(text, 16 * Value(text[0]) + Value(text[1]), LenientBytes(text[2..]));
      } else {
        ReadsNothing(text);
      }
    }
  }

  lemma ReadsOneMore(text: string, b: byte, rest: seq<byte>)
    requires |text| >= 2 && W.Spelled(text[0], text[1], b) && Reads(text[2..], rest)
    ensures Reads(text, [b] + rest)
  {
    var tail, bytes := text[2..], [b] + rest;
    forall k | 0 <= k < |bytes| ensures W.Spelled(text[2 * k], text[2 * k + 1], bytes[k]) {
      if k > 0 {
        assert W.Spelled(tail[2 * (k - 1)], tail[2 * (k - 1) + 1], rest[k - 1]);
        assert tail[2 * (k - 1)] == text[2 * k] && tail[2 * (k - 1) + 1] == text[2 * k + 1];
      }
    }
    var n := 2 * |bytes|;
    assert n + 2 <= |text| ==> tail[n - 2] == text[n] && tail[n - 1] == text[n + 1];
  }

  /** The reading is the only one. */
  lemma ReadsOnce(text: string, a: seq<byte>, b: seq<byte>)
    requires Reads(text, a) && Reads(text, b)
    ensures a == b
  {
    forall k | 0 <= k < |a| && k < |b| ensures a[k] == b[k] {
      SpelledIsHex(text[2 * k], text[2 * k + 1], a[k]);
      W.OneByte(text[2 * k], text[2 * k + 1]);
    }
    if |a| < |b| {
      SpelledIsHex(text[2 * |a|], text[2 * |a| + 1], b[|a|]);
    } else if |b| < |a| {
      SpelledIsHex(text[2 * |b|], text[2 * |b| + 1], a[|b|]);
    }
  }

  lemma SpelledIsHex(c: char, d: char, b: byte)
    requires W.Spelled(c, d, b)
    ensures W.HexChar(c) && W.HexChar(d) && IsDigit(c) && IsDigit(d)
  {
  }

  /** Two lower-case texts that spell the same bytes are the same. */
  lemma SpellsOnce(s: string, t: string, bytes: seq<byte>)
    requires W.Spells(s, bytes) && W.Spells(t, bytes) && W.InLowerCase(s) && W.InLowerCase(t)
    ensures s == t
  {
    forall k | 0 <= k < |s| ensures s[k] == t[k] {
      if k >= 2 {
        var j := (k - 2) / 2;
        assert W.Spelled(s[2 + 2 * j], s[3 + 2 * j], bytes[j]) && W.Spelled(t[2 + 2 * j], t[3 + 2 * j], bytes[j]);
      }
    }
  }

  /** What a memo yields, exactly: it is read, and carries a committed execute. */
  lemma MemoExactlyWhen(memo: Option<string>, c: string)
    ensures MemoCommitment(memo) == Some(c) <==> CommitsTo(memo, c)
  {
    if memo.Some? {
      var bytes := LenientBytes(memo.value);
      LenientReads(memo.value);
      W.DecodesExactlyWhen(bytes);
      if CommitsTo(memo, c) {
        var other: seq<byte> :|
          Reads(memo.value, other) && |other| == 42 && other[0] == 0xfe && W.Spells(c, other[10..]);
        ReadsOnce(memo.value, bytes, other);
        SpellsOnce(c, Memo.Decode(bytes).value.userOpHash, bytes[10..]);
      }
    }
  }

  /** The first memo that commits to anything commits to c. */
  ghost predicate TxCommitsTo(tx: Tx, c: string) {
    tx.memos.Some? && exists k :: 0 <= k < |tx.memos.value| && FirstAtMemo(tx.memos.value, k, c)
  }

  ghost predicate FirstAtMemo(memos: seq<Option<string>>, k: nat, c: string)
    requires k < |memos|
  {
    CommitsTo(memos[k], c) && forall j, d :: 0 <= j < k ==> !CommitsTo(memos[j], d)
  }

  lemma {:induction false} FirstMemo(memos: seq<Option<string>>) returns (k: nat)
    ensures FirstCommitment(memos).Some? ==>
              && k < |memos| && MemoCommitment(memos[k]) == FirstCommitment(memos)
              && forall j :: 0 <= j < k ==> MemoCommitment(memos[j]).None?
    ensures FirstCommitment(memos).None? ==> forall j :: 0 <= j < |memos| ==> MemoCommitment(memos[j]).None?
  {
    k := 0;
    if memos != [] && MemoCommitment(memos[0]).None? {
      k := FirstMemo(memos[1..]);
      assert forall j :: 1 <= j < |memos| ==> memos[j] == memos[1..][j - 1];
      k := k + 1;
    }
  }

  lemma NoneExactlyWhen(memo: Option<string>)
    ensures MemoCommitment(memo).None? <==> forall d :: !CommitsTo(memo, d)
  {
    forall d ensures MemoCommitment(memo) == Some(d) <==> CommitsTo(memo, d) {
      MemoExactlyWhen(memo, d);
    }
    assert MemoCommitment(memo).Some? ==> CommitsTo(memo, MemoCommitment(memo).value);
  }

  lemma FirstAtExactly(memos: seq<Option<string>>, k: nat, c: string)
    requires k < |memos|
    ensures FirstAtMemo(memos, k, c) <==>
            MemoCommitment(memos[k]) == Some(c) && forall j :: 0 <= j < k ==> MemoCommitment(memos[j]).None?
  {
    MemoExactlyWhen(memos[k], c);
    forall j | 0 <= j < k ensures MemoCommitment(memos[j]).None? <==> forall d :: !CommitsTo(memos[j], d) {
      NoneExactlyWhen(memos[j]);
    }
  }

  lemma TxExactlyWhen(tx: Tx, c: string)
    ensures Commitment(tx) == Some(c) <==> TxCommitsTo(tx, c)
  {
    if tx.memos.Some? {
      var memos := tx.memos.value;
      var k := FirstMemo(memos);
      forall j | 0 <= j < |memos|
        ensures FirstAtMemo(memos, j, c) <==>
                MemoCommitment(memos[j]) == Some(c) && forall l :: 0 <= l < j ==> MemoCommitment(memos[l]).None?
      {
        FirstAtExactly(memos, j, c);
      }
      assert Commitment(tx) == Some(c) ==> FirstAtMemo(memos, k, c);
    }
  }

  // ------------------------------------------------------------------- sightings

  /** The entry holds this transaction, a Payment the ledger has not disowned. */
  predicate Holds(e: Entry, tx: Tx) {
    && e.validated != Some(false) && tx.kind == "Payment"
    && (e.txJson == Some(tx) || (e.txJson == None && e.tx == Some(tx)))
  }

  /** The hash it goes by. */
  predicate Named(e: Entry, tx: Tx, hash: string) {
    hash != "" && (e.hash == Some(hash) || (e.hash == None && tx.hash == Some(hash)))
  }

  predicate RegisteredBefore(events: seq<Event>, k: nat, c: string)
    requires k <= |events|
  {
    exists j :: 0 <= j < k && events[j] == Registered(c)
  }

  /** At position k the ledger shows a payment with a hash, whose commitment is registered by then. */
  ghost predicate Sighting(events: seq<Event>, k: nat, tx: Tx, hash: string, c: string)
    requires k < |events|
  {
    && events[k].Saw? && Holds(events[k].e, tx) && Named(events[k].e, tx, hash)
    && TxCommitsTo(tx, c) && RegisteredBefore(events, k, c)
  }

  /** And not under this hash before. */
  ghost predicate FirstOf(events: seq<Event>, k: nat, tx: Tx, hash: string, c: string)
    requires k < |events|
  {
    && Sighting(events, k, tx, hash, c)
    && forall j, other, d :: 0 <= j < k ==> !Sighting(events, j, other, hash, d)
  }

  lemma SightingIs(events: seq<Event>, k: nat, tx: Tx, hash: string, c: string)
    requires k < |events|
    ensures Sighting(events, k, tx, hash, c) <==>
            && Eligible(events, k) && Body(events[k].e) == Some(tx) && EligibleHash(events, k) == hash
            && Commitment(tx) == Some(c)
  {
    TxExactlyWhen(tx, c);
    HeldIs(events, k, c);
  }

  lemma HeldIs(events: seq<Event>, k: nat, c: string)
    requires k <= |events|
    ensures c in HeldAfter(events[..k]) <==> RegisteredBefore(events, k, c)
  {
    var before := events[..k];
    if c in HeldAfter(before) {
      var j :| 0 <= j < |before| && before[j].Registered? && before[j].commitment == c;
      assert events[j] == Registered(c);
    }
    if j :| 0 <= j < k && events[j] == Registered(c) {
      assert before[j] == events[j];
    }
  }

  lemma FirstIs(events: seq<Event>, k: nat, tx: Tx, hash: string, c: string)
    requires k < |events|
    ensures FirstOf(events, k, tx, hash, c) <==>
            && FirstSighting(events, k) && Body(events[k].e) == Some(tx) && EligibleHash(events, k) == hash
            && Commitment(tx) == Some(c)
  {
    SightingIs(events, k, tx, hash, c);
    forall j, other, d | 0 <= j < k
      ensures Sighting(events, j, other, hash, d) <==>
              && Eligible(events, j) && Body(events[j].e) == Some(other) && EligibleHash(events, j) == hash
              && Commitment(other) == Some(d)
    {
      SightingIs(events, j, other, hash, d);
    }
    forall j | 0 <= j < k && Eligible(events, j) && EligibleHash(events, j) == hash
      ensures exists other, d :: Sighting(events, j, other, hash, d)
    {
      var other := Body(events[j].e).value;
      assert Sighting(events, j, other, hash, Commitment(other).value);
    }
  }

  /** The report of a payment: its hash and commitment, and the transaction's own amount, sender and ledger. */
  predicate Tells(r: ObservedPayment, e: Entry, tx: Tx, hash: string, c: string) {
    && r.xrplTxId == hash && r.commitment == c && r.amount == tx.amount && r.sender == tx.account
    && (e.ledgerIndex == Some(r.ledgerIndex) || (e.ledgerIndex == None && r.ledgerIndex == 0))
  }

  // ----------------------------------------------------------------- main results

  lemma {:induction false} FilteredTells(events: seq<Event>, n: nat, i: nat) returns (k: nat, tx: Tx)
    requires n <= |events| && i < |Filtered(events, n)|
    ensures k < n && var r := Filtered(events, n)[i];
            FirstOf(events, k, tx, r.xrplTxId, r.commitment) &&
            Tells(r, events[k].e, tx, r.xrplTxId, r.commitment) && |Filtered(events, k)| == i
    decreases n
  {
    if FirstSighting(events, n - 1) && i == |Filtered(events, n)| - 1 {
      k, tx := n - 1, Body(events[n - 1].e).value;
      FirstIs(events, k, tx, EligibleHash(events, k), Commitment(tx).value);
    } else {
      k, tx := FilteredTells(events, n - 1, i);
    }
  }

  lemma {:induction false} FilteredGrows(events: seq<Event>, k: nat, n: nat)
    requires k <= n <= |events|
    ensures Filtered(events, k) <= Filtered(events, n)
    decreases n
  {
    if k < n {
      FilteredGrows(events, k, n - 1);
    }
  }

  /** Every report is of a first sighting, tells what the ledger showed there, and reports keep their order. */
  lemma ReportsAreSightings(start: int, events: seq<Event>, i: nat) returns (k: nat, tx: Tx)
    requires i < |Watching(start, events).1|
    ensures var r := Watching(start, events).1[i];
            && k < |events| && FirstOf(events, k, tx, r.xrplTxId, r.commitment)
            && Tells(r, events[k].e, tx, r.xrplTxId, r.commitment)
            && |Watching(start, events[..k]).1| == i
  {
    WatcherIsFilter(start, events);
    k, tx := FilteredTells(events, |events|, i);
    WatcherIsFilter(start, events[..k]);
    FilteredPrefix(events, k, k);
  }

  /** Every first sighting is reported. */
  lemma SightingsAreReported(start: int, events: seq<Event>, k: nat, tx: Tx, hash: string, c: string)
    requires k < |events| && FirstOf(events, k, tx, hash, c)
    ensures exists r :: r in Watching(start, events).1 && Tells(r, events[k].e, tx, hash, c)
  {
    WatcherIsFilter(start, events);
    var r := FilteredHas(events, k, tx, hash, c);
    FilteredGrows(events, k + 1, |events|);
  }

  lemma FilteredHas(events: seq<Event>, k: nat, tx: Tx, hash: string, c: string) returns (r: ObservedPayment)
    requires k < |events| && FirstOf(events, k, tx, hash, c)
    ensures r in Filtered(events, k + 1) && Tells(r, events[k].e, tx, hash, c)
  {
    FirstIs(events, k, tx, hash, c);
    r := Filtered(events, k + 1)[|Filtered(events, k)|];
  }

  /** A payment was seen at this ledger; without a number that is ledger 0. */
  predicate SeenAt(events: seq<Event>, k: nat, tx: Tx, ledger: int)
    requires k < |events|
  {
    && events[k].Saw? && Holds(events[k].e, tx)
    && (events[k].e.ledgerIndex == Some(ledger) || (events[k].e.ledgerIndex == None && ledger == 0))
  }

  /** The cursor is the greatest of its start and the ledgers of the payments seen, registered or not. */
  lemma {:induction false} CursorExactly(start: int, events: seq<Event>)
    ensures var cursor := Watching(start, events).0.lastLedger;
            && start <= cursor
            && (forall k, tx, ledger :: 0 <= k < |events| && SeenAt(events, k, tx, ledger) ==> ledger <= cursor)
            && (cursor == start || exists k, tx :: 0 <= k < |events| && SeenAt(events, k, tx, cursor))
  {
    if events != [] {
      var n := |events| - 1;
      var init := events[..n];
      CursorExactly(start, init);
      var before, cursor := Watching(start, init).0.lastLedger, Watching(start, events).0.lastLedger;
      forall k, tx, ledger | 0 <= k < |events| && SeenAt(events, k, tx, ledger) ensures ledger <= cursor {
        assert k < n ==> SeenAt(init, k, tx, ledger);
      }
      if cursor != before {
        assert SeenAt(events, n, Body(events[n].e).value, cursor);
      } else if cursor != start {
        var k, tx :| 0 <= k < |init| && SeenAt(init, k, tx, cursor);
        assert SeenAt(events, k, tx, cursor);
      }
    }
  }
}
