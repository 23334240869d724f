# ONESIG and LATCH: a verified model

This project models the parts of the repository that hold state and must not lose
it, and proves what they promise. `dafny verify dfyconfig.toml` checks all of it.

* **The memo codec** (`Hex`, `Memo`, `WireFormat`): the seven instructions an XRPL memo
  can carry.
* **The executor** (`Store`, `Watch`, `WatchEntries`, `Jobs`, `JobRuns`, `JobLaws`,
  `LostRaces`, `Pipeline`, `Service`, `ServiceLaws`, `Executor`, `ExecutorLaws`, `Fleet`,
  `Chain`): bytes are registered, a payment carrying their hash is seen, and a persisted
  job takes it through attestation and proof to execution.
* **LATCH** (`Triggers`, `TriggerLaws`, `LatchModel`, `LatchLaws`, `Latch`, `LatchRuns`,
  `LatchCounts`, `LatchTicks`, `LatchCollects`, `LatchAtomic`, and `LatchSample` for
  concrete runs): intents armed in an enclave, fired by a tick, collected, cancelled or
  expired.
* **Two smaller protocols**: the promise chain that serializes handlers (`Server`) and
  the resumable registration of a TEE node (`Registration`).

## How it is put together

Each operation has a specification function on values. Code that works in place is a
class (`PendingStore`, `Watcher`, `LiveJob`, `ExecutorPipeline`, `ExecutorService`,
`Intent`, `Enclave`, `Server`, `Registrar`) whose methods are proved to do what the
function says to the state. The results about all runs are lemmas about the functions.

Beside these stands a second account, which says what each operation does over literal
bytes, characters and constants, and over the fields of requests, ledger entries, receipts,
records and jobs, without naming any function it is checked against: `WireFormat` for the
memos, `TriggerLaws` and `LatchLaws` for LATCH, `WatchEntries` for the watcher, `JobLaws`
for the steps of a job, `ServiceLaws` and `ExecutorLaws` for service and executors, and
`RegisterExactly`, `GetExactly`, `NotedExactlyWhen`, `RunExactly` and `KeptExactly` in the
modules they concern. The results about runs are about operations so described.

Asynchrony is modelled at two grains. A pipeline step exists whole (`Jobs.Step`) and cut
at each await (`Jobs.Advance`); `Jobs.UninterruptedStep` connects them. `JobRuns` and
`Service` are runs with one driver and ticks that do not overlap; `Executor` and `Fleet`
let any task of any executor advance at any moment, which covers overlapping ticks and
scripts working on the same state directory. A LATCH tick exists whole
(`LatchModel.Tick`) and split at its await (`Visit` and `Settle`), and
`LatchAtomic.TickIsRun` says that the one is a run of the other; in the split machine
intents are objects with identity, because a re-arm replaces the map entry while a
suspended tick holds the old object. There an action visits any entry of the map at any
time, which allows more than the source's insertion order does.

The environment is nondeterministic: whatever verifier, chain, data-availability layer
and clock answer is a parameter of each action. keccak256 is an arbitrary function that
writes 0x and lower-case digits; nothing assumes it injective. The ledger is an immutable
function from normal transaction ids to transactions, and pages are assumed truthful about
the transactions they name. Only `Fleet.ExecutedIsSpent` assumes anything of the chain
(`Fleet.Honest`): a request is for the transaction it was prepared for, a mint that goes
through consumes its payment, and a positive answer to isTransactionIdUsed is true.
`Chain` replaces that assumption by a chain that decides: it mines a sent transaction at
any later moment, reverts it if the payment is consumed or for a reason of its own,
consumes the payment otherwise unless rate limits put the mint off, and receipts and
reads report what it decided.

## Where the code and its documentation disagree

The model follows the code. Each claim below has a concrete run that refutes it and the
exact condition under which it holds.

* `extension/typescript/src/app/handlers.ts:52` says state is serialized and needs no
  locking. Handlers are; ticks are started by a timer outside the queue
  (`packages/executor/src/latch.ts:54-58`) and can overlap. `OverlapOvercounts` is a run
  in which `firedTotal` exceeds `armedTotal`. `OneTickBalances` and `BalancesUnlessTwo`
  say what keeps the counters right, `DriftsExactlyWhen` which checks in flight can still
  put them wrong, and `Accounting` by how much. `ReleaseSafety` and `RevokedForever` hold
  all the same.
* `extension/typescript/src/__tests__/latch.test.ts:114` says bytes are released exactly
  once. A collected intent can be collected again (`handlers.ts:245-252`):
  `CollectedTwice` is such a run, and `CollectsAgain` says exactly when a later COLLECT
  releases.
* `docs/WHATS-NEW.md:48` has lag retry indefinitely and genuine errors give up after five
  attempts. Lag counts towards the five (`pipeline.ts:267-274`): `LagFails` is a run with
  one genuine error, and `FailureCharacterized` the exact condition.
* `packages/executor/src/pipeline.ts:28-33` calls losing the race a normal outcome, not a
  failure. That is so when the error names it; a transaction that is mined and reverts
  does not (`pipeline.ts:222-224`). `FiveRevertsFail` gives jobs that fail though their
  payment is spent, and `LostRaceFails` the exact condition.
* `packages/executor/src/service.ts:13-15` says a restart resumes everything from disk. The
  live jobs start empty and the watcher only looks forward (`service.ts:108-113`):
  `RestartForgets` is a run in which the tick after a restart leaves an unfinished job
  alone, `LiveExactlyWhen` says when a job is driven again and `RestartAbandons` what
  becomes of the others. `scripts/resume-job.ts` can pick them up by hand.
* The store's cache ignores the case of a commitment and its file names do not
  (`store.ts:72-76`): `CaseShows` and `CaseShowsForNothing` exhibit it, and `CacheDropped`
  says exactly when it matters. The watcher only ever asks in lower case.

## Model

| member | source | states |
|---|---|---|
| `Memo.EncodeHeader` | packages/sdk/src/memo.ts:63-77 | The ten header bytes (opcode, wallet id, fee as big-endian uint64), or exactly the error of the first field out of range. |
| `Memo.ParseBytes` | packages/sdk/src/memo.ts:83-86 | The parse loop fills the buffer with the byte of each pair of digits. |
| `Memo.HexToBytes` | packages/sdk/src/memo.ts:79-91 | The result is the bytes that the text spells; it refuses exactly the texts without 0x or with a non-digit, those of odd length, and those of the wrong byte count, in that order. |
| `Memo.Concat` | packages/sdk/src/memo.ts:93-102 | The copy loop into one buffer yields the parts one after another, none overwritten. |
| `Memo.AssertLength` | packages/sdk/src/memo.ts:105-114 | Passes a memo unchanged if and only if it has the length the contract requires for its opcode. |
| `Memo.EncodeExecuteCommittedMemo` | packages/sdk/src/memo.ts:126-134 | The 42-byte layout of a committed execute, or the first error of header and hash. |
| `Memo.EncodeExecuteInlineMemo` | packages/sdk/src/memo.ts:145-159 | The layout of an inline execute, refused over 1024 bytes. |
| `Memo.EncodeSetExecutorMemo` | packages/sdk/src/memo.ts:170-184 | The 30-byte layout of a pin; the address is checked first and the zero address refused. |
| `Memo.EncodeRemoveExecutorMemo` | packages/sdk/src/memo.ts:194-197 | The bare header of an unpin. |
| `Memo.EncodeIgnoreMemo` | packages/sdk/src/memo.ts:202-205 | The 42-byte layout of an ignore. |
| `Memo.NonceBytes` | packages/sdk/src/memo.ts:212-217 | The byte loop from the low end writes the nonce as 32 big-endian bytes. |
| `Memo.EncodeSetNonceMemo` | packages/sdk/src/memo.ts:208-220 | The 42-byte layout of a nonce; outside uint256 it is refused. |
| `Memo.EncodeReplacementFeeMemo` | packages/sdk/src/memo.ts:223-237 | The 50-byte layout of a fee bump: target, then the new fee as big-endian uint64. |
| `Memo.DecodeEncoded` | packages/sdk/src/memo.ts:126-309 | Round trip: for all seven instructions over the full domains, what an encoder emits decodes to what it was given (hex in lower case). |
| `Memo.LayoutDecoded` | packages/sdk/src/memo.ts:265-309 | Every accepted memo is byte for byte the layout of the instruction it decodes to: decoding is injective. |
| `Memo.EncodeDecoded` | packages/sdk/src/memo.ts:126-309 | The other round trip: an accepted memo re-encodes to itself, except an inline memo over 1024 bytes and a pin to the zero address, which are refused with those errors. |
| `Memo.WireRoundTrip` | packages/sdk/src/memo.ts:242-249 | XRPL form (upper-case hex, no prefix) reads back to the same bytes. |
| `Memo.WireRewrite` | packages/sdk/src/memo.ts:242-249 | Text read from the wire and written again is the same text in upper case, without its prefix. |
| `Memo.FromXrplMemoHex` | packages/sdk/src/memo.ts:246-249 | Reads text with or without 0x; refuses non-digits and odd lengths. |
| `WireFormat.EncodedBytes` | packages/sdk/src/memo.ts:63-237 | Over literal bytes: what an encoder emits starts with exactly 0xff, 0xfe, 0xe0, 0xe1, 0xe2, 0xd0 or 0xd1, has the wallet id as byte 1 and the fee most significant first in bytes 2 to 9 (so byte 9 is fee mod 256), and carries its payload and its length. |
| `WireFormat.EncodesExactlyWhen` | packages/sdk/src/memo.ts:63-237 | Over literal bounds: an encoder succeeds if and only if wallet id and fee fit, hashes are 0x and 64 digits, an address is 0x and 40 digits and not zero, an inline payload keeps the memo within 1024 bytes, a nonce fits 256 bits and a fee 64. |
| `WireFormat.DecodesExactlyWhen` | packages/sdk/src/memo.ts:265-309 | A memo decodes if and only if it has ten bytes and its first is 0xff, or is 0xfe, 0xe0 or 0xe1 with 42 bytes in all, 0xe2 with 50, 0xd0 with 30 or 0xd1 with 10; to the one instruction those bytes carry. |
| `WireFormat.WireDigits` | packages/sdk/src/memo.ts:242-244 | XRPL hex has two upper-case digits for each byte, the high one first, and no prefix. |
| `WireFormat.WireReads` | packages/sdk/src/memo.ts:246-249 | Text is read if and only if, its 0x aside, it is an even number of digits, and each byte is what its two digits spell. |
| `Triggers.TriggerRoundTrip` | extension/typescript/src/app/triggers.ts:41-68 | A trigger written as JSON parses back to itself if and only if it is well formed (21-byte feed id, decimal value, positive time). |
| `Triggers.IsTriggered` | extension/typescript/src/app/triggers.ts:117-133 | A PRICE trigger without a reading never fires; with one it fires at the threshold either way, and beyond it on its own side only; a TIME trigger fires from its time on. |
| `TriggerLaws.ParsesExactlyWhen` | extension/typescript/src/app/triggers.ts:41-68 | Over the fields of the JSON: which requests are understood, and as which trigger. |
| `TriggerLaws.RefusesBecause` | extension/typescript/src/app/triggers.ts:42-67 | What is no object, of no known kind, or without a positive time is refused with that error, and nothing else is. |
| `TriggerLaws.PriceRefusedBecause` | extension/typescript/src/app/triggers.ts:45-55 | The three errors of a price trigger, in the order they are checked. |
| `TriggerLaws.DecimalIs` | extension/typescript/src/app/triggers.ts:129 | The threshold is the number its digits spell. |
| `Latch.Enclave.constructor` | extension/typescript/src/app/handlers.ts:52-55 | The enclave starts empty and satisfies the invariant. |
| `Latch.Enclave.HandleArm` | extension/typescript/src/app/handlers.ts:125-175 | In place, ARM does what the specification says and keeps the invariant; a re-arm makes a new object and leaves the replaced one as it was. |
| `Latch.Enclave.HandleStatus` | extension/typescript/src/app/handlers.ts:180-197 | STATUS answers from the lifecycle alone and changes nothing. |
| `Latch.Enclave.HandleCancel` | extension/typescript/src/app/handlers.ts:208-225 | CANCEL marks and erases an armed intent, refuses every other, and touches no other object. |
| `Latch.Enclave.HandleCollect` | extension/typescript/src/app/handlers.ts:235-253 | COLLECT releases a fired or already collected intent and refuses every other, in place. |
| `Latch.Enclave.ReportState` | extension/typescript/src/app/handlers.ts:77-85 | The counting loop reports exactly the number of map entries armed and fired. |
| `Latch.Enclave.Visit` | extension/typescript/src/app/handlers.ts:265-275 | The part of a tick before its await: expire and erase, or ask for a reading. |
| `Latch.Enclave.Settle` | extension/typescript/src/app/handlers.ts:275-286 | The part after the await writes to the object the check was made for, whatever has happened to it. |
| `Latch.Enclave.Tick` | extension/typescript/src/app/handlers.ts:264-286 | The loop over the map, uninterrupted, makes every entry what the specification of a whole tick says, whatever the order. |
| `LatchRuns.StepKeeps` | extension/typescript/src/app/handlers.ts:125-286 | Every handler and every half of a tick keeps the machine invariant, with any number of ticks suspended on any objects. |
| `LatchRuns.RunGood` | extension/typescript/src/app/handlers.ts:125-286 | The machine invariant holds in every reachable state of every interleaving. |
| `LatchRuns.ReleaseSafety` | extension/typescript/src/app/handlers.ts:235-286 | In every interleaving, a successful COLLECT(c) returns bytes hashing to c, or 0x exactly if that object was ever cancelled or expired; and a check of that very object, before its deadline, found its trigger met. |
| `LatchRuns.RevokedForever` | extension/typescript/src/app/handlers.ts:215-225 | Once an object is cancelled or expired its bytes are 0x for ever, even if a pending check marks it fired. |
| `LatchRuns.BoundedHolding` | extension/typescript/src/app/handlers.ts:144-167 | Always armedAt < deadline <= armedAt + maximum, and firedAt < deadline when set, in every interleaving. |
| `LatchRuns.BytesStaySealed` | extension/typescript/src/app/handlers.ts:77-253 | Two runs that differ only in operation bytes with the same commitments give the same responses throughout, released bytes excepted. |
| `LatchCounts.Accounting` | extension/typescript/src/app/handlers.ts:160-168 | Exact in every interleaving: armedTotal + repeated firings = firedTotal + armed + cancelled + expired. |
| `LatchCounts.OverlapOvercounts` | extension/typescript/src/app/handlers.ts:264-286 | For any hash, a concrete run of two overlapping ticks in which one intent is armed and firedTotal becomes 2. |
| `LatchTicks.BalancesUnlessTwo` | extension/typescript/src/app/handlers.ts:264-286 | While no object ever has two checks in flight the counters balance, firedTotal = objects fired or collected, and firedTotal <= armedTotal, commands running between the halves of ticks. |
| `LatchTicks.DriftNeedsTwo` | extension/typescript/src/app/handlers.ts:264-286 | Counters that do not balance show that two checks of one object were in flight together. |
| `LatchTicks.OneTickBalances` | packages/executor/src/latch.ts:52-58 | If no tick asks for a reading while another check is unanswered, the counters balance in every run. |
| `LatchTicks.DriftsExactlyWhen` | extension/typescript/src/app/handlers.ts:275-280 | From balanced counters, some outcome of the checks in flight makes them drift if and only if one that can be met is of an object that has fired, or two that can be met are of one object. |
| `LatchCollects.SpentForever` | extension/typescript/src/app/handlers.ts:245-253 | An object once fired or collected stays so, with the same bytes, through any further actions. |
| `LatchCollects.EntryMoves` | extension/typescript/src/app/handlers.ts:154-167 | An entry names the same object if and only if no ARM of its commitment has been accepted since. |
| `LatchCollects.SpentExactlyWhen` | extension/typescript/src/app/handlers.ts:275-280 | An object is fired or collected if and only if some check of it came back met. |
| `LatchCollects.CollectsAgain` | extension/typescript/src/app/handlers.ts:235-253 | Once COLLECT(c) has released, a later COLLECT(c) releases if and only if a check of the intent its entry now names was met; until an ARM of c is accepted that is the same intent, and it releases the very same bytes. |
| `LatchCollects.CollectedTwice` | extension/typescript/src/app/handlers.ts:245-252 | For any hash, a concrete run in which one intent, armed once and fired once, is collected twice. |
| `LatchCounts.FiredAccount` | extension/typescript/src/app/handlers.ts:278-280 | In every interleaving firedTotal = objects now fired or collected + repeated firings. |
| `LatchCounts.ReportedArmed` | extension/typescript/src/app/handlers.ts:77-85 | The armed count over the map equals the number of armed objects ever made: no armed object is unreachable. |
| `LatchCounts.AtomicBalanced` | extension/typescript/src/app/handlers.ts:125-286 | With uninterrupted ticks the invariant and firedTotal = fired or collected objects hold in every reachable state. |
| `LatchCounts.Conservation` | extension/typescript/src/app/handlers.ts:77-85 | With uninterrupted ticks: armedTotal = firedTotal + armed + ever cancelled + ever expired across re-arms; hence armed + firedTotal <= armedTotal and awaitingCollection <= firedTotal. |
| `LatchCounts.EverIsNow` | extension/typescript/src/app/handlers.ts:215-225 | With uninterrupted ticks the objects ever cancelled, or ever expired, are those that are so now. |
| `LatchCounts.TickHolds` | extension/typescript/src/app/handlers.ts:264-286 | What a tick leaves armed is within its deadline, below the ceiling, and has an unmet trigger. |
| `LatchLaws.ArmExactly` | extension/typescript/src/app/handlers.ts:154-174 | A request that passes the checks changes nothing and is answered alreadyArmed if the intent under its hash still waits; in every other case (new, cancelled, expired, fired, collected) it arms one new object with exactly its bytes, trigger and deadline, armed now, and the entry names that object. |
| `LatchLaws.ArmRefuses` | extension/typescript/src/app/handlers.ts:125-152 | ARM refuses if and only if some check fails, and then changes nothing. |
| `LatchLaws.ArmRefusesBecause` | extension/typescript/src/app/handlers.ts:125-152 | Which check is reported: the first that fails, with the claimed and the actual hash, or the error of the trigger. |
| `LatchLaws.StatusExactly` | extension/typescript/src/app/handlers.ts:184-196 | STATUS looks under the lower-case spelling first and shows state, arming time, deadline and firing time, each as the intent has it. |
| `LatchLaws.CancelExactly` | extension/typescript/src/app/handlers.ts:212-224 | CANCEL erases the intent that waits, and refuses with the state of any other. |
| `LatchLaws.CollectExactly` | extension/typescript/src/app/handlers.ts:239-252 | COLLECT releases the bytes of a fired or collected intent and says of an armed, cancelled or expired one which it is. |
| `LatchLaws.NamelessRefused` | extension/typescript/src/app/handlers.ts:181-240 | STATUS, CANCEL and COLLECT refuse a request that is no object or names no commitment. |
| `LatchLaws.ReportExactly` | extension/typescript/src/app/handlers.ts:77-85 | The two counts are exactly the entries armed and the entries fired. |
| `LatchLaws.VisitExactly` | extension/typescript/src/app/handlers.ts:265-275 | A visit skips what does not wait, expires and erases at the deadline, and asks for a reading before it. |
| `LatchLaws.SettleExactly` | extension/typescript/src/app/handlers.ts:275-280 | A reading that meets the trigger at the time the tick began fires that object, whatever its state; any other does nothing to it. |
| `LatchLaws.TickExactly` | extension/typescript/src/app/handlers.ts:264-286 | A whole tick fires the intents that wait, are before their deadline and have their condition met, erases those at or past their deadline, leaves the rest, and adds to firedTotal how many it fired. |
| `LatchLaws.FiredByTick` | extension/typescript/src/app/handlers.ts:264-280 | For every intent: a tick fires it if and only if it waits, now is before its deadline and the reading meets its trigger; its firing time is then now. |
| `LatchAtomic.TickIsRun` | extension/typescript/src/app/handlers.ts:264-286 | From any state of the split machine, with any checks in flight, a whole tick is a run of its visits and settlements that gives the same enclave and leaves those checks as they were. |
| `LatchAtomic.AtomicIsSplit` | extension/typescript/src/app/handlers.ts:264-286 | Every enclave reached by commands and whole ticks is one the split machine reaches with nothing in flight, so what is proved of all interleavings holds of it. |
| `LatchAtomic.ReleasedExactlyWhenDue` | extension/typescript/src/app/handlers.ts:235-286 | With whole ticks COLLECT(c) releases if and only if some tick found the intent under c waiting, before its deadline and with its condition met; the bytes hash to c and the firing time is the time of such a tick. |
| `Store.PendingStore.DoRegister` | packages/executor/src/store.ts:47-69 | Refuses a wrong claimed commitment and changes nothing; else files the record in memory and on disk under the hash of its bytes. |
| `Store.PendingStore.DoGet` | packages/executor/src/store.ts:71-83 | Cache first, then disk, filling the cache; nothing else changes. |
| `Store.GetIsLastRegistered` | packages/executor/src/store.ts:47-83 | After any registrations, look-ups and restarts, a look-up of a lower-case commitment returns the record last registered for it, and its bytes hash to the commitment. |
| `Store.CacheDropped` | packages/executor/src/store.ts:71-83 | Dropping the cache leaves a look-up unchanged if and only if the commitment is lower-case or not cached. |
| `Store.CaseShows` | packages/executor/src/store.ts:71-83 | For every registration whose hash has a letter: spelled in upper case it is found while cached, and not after a restart. |
| `Store.CaseShowsForNothing` | packages/executor/src/store.ts:71-83 | The same at a concrete input, the operation without bytes and its known hash. |
| `Store.DiskIsHistory` | packages/executor/src/store.ts:55-67 | The files are a function of the history of registrations alone. |
| `Store.RegisterExactly` | packages/executor/src/store.ts:47-69 | A claim that is given, not empty and not the hash in some case is refused and changes nothing; otherwise exactly one record, with what was handed over and the time, in memory under the lower-case hash and on disk under the hash without 0x. |
| `Store.GetExactly` | packages/executor/src/store.ts:71-83 | A look-up answers from memory under the lower-case spelling, else from the file of the spelling given, which then fills the memory. |
| `Watch.CommitmentFromMemos` | packages/executor/src/watcher.ts:40-56 | The scan returns the hash of the first memo that decodes as a committed execute, and null only if none does. |
| `Watch.WatcherReadsSdkMemo` | packages/executor/src/watcher.ts:40-56 | A committed-execute memo encoded by the SDK, in XRPL hex, behind memos of other kinds, is found and yields the commitment it was made from. |
| `Watch.FoundIsCommitment` | packages/executor/src/watcher.ts:40-56 | What is found is 0x and 64 lower-case digits, so store keys and file names agree. |
| `Watch.Watcher.PollPage` | packages/executor/src/watcher.ts:80-123 | The polling loop in place is the specification of a poll; the store keeps what it holds. |
| `Watch.Watcher.ExamineEntry` | packages/executor/src/watcher.ts:91-119 | One turn of the loop: the cursor moves for every payment, the seen set only for reported ones. |
| `Watch.Watcher.SetStartLedger` | packages/executor/src/watcher.ts:126-128 | Sets the cursor and nothing else. |
| `Watch.WatcherIsFilter` | packages/executor/src/watcher.ts:58-123 | Over any polls and registrations, the reports are, in order, the first sightings of payments with their commitment held, and nothing else; the cursor is the highest ledger of the payments seen. |
| `Watch.ReportedOnce` | packages/executor/src/watcher.ts:59-67 | No hash is ever reported twice although the cursor is inclusive. |
| `Watch.CursorMonotone` | packages/executor/src/watcher.ts:95-96 | The cursor never decreases, nor falls behind where it was set. |
| `Watch.PollIsWatching` | packages/executor/src/watcher.ts:80-123 | Polls in a row are one long watch, so the filter theorem speaks of them. |
| `WatchEntries.MemoExactlyWhen` | packages/executor/src/watcher.ts:45-50 | A memo yields c if and only if its text reads as 42 bytes, the first 0xfe, the last 32 spelled by c in lower case. |
| `WatchEntries.TxExactlyWhen` | packages/executor/src/watcher.ts:40-56 | A transaction yields c if and only if the first of its memos that yields anything yields c. |
| `WatchEntries.ReportsAreSightings` | packages/executor/src/watcher.ts:89-122 | Over the fields of the entries: each report is of an entry not marked validated false, whose tx_json (or tx, if there is none) is a Payment, under its own or else its transaction's non-empty hash, seen so for the first time with its commitment registered; amount, sender and ledger are those shown; reports keep that order. |
| `WatchEntries.SightingsAreReported` | packages/executor/src/watcher.ts:89-122 | Each such first sighting is reported. |
| `WatchEntries.CursorExactly` | packages/executor/src/watcher.ts:91-96 | The cursor is the greatest of its start and the ledgers of the payments seen, registered or not. |
| `Jobs.NormalForm` | packages/executor/src/pipeline.ts:83-89 | Prefix and case of a hash do not matter, and a normal form is its own. |
| `Jobs.UninterruptedStep` | packages/executor/src/pipeline.ts:152-282 | A step cut at every await, if nothing interrupts it, is the whole step: same job, and it ends by writing that job exactly when the step saves. |
| `JobRuns.CrashesStutter` | packages/executor/src/pipeline.ts:106-152 | Disk and memory agree after every event, and a run with restarts and crashes inside steps leaves the job the crash-free run leaves. |
| `JobRuns.FeesBounded` | packages/executor/src/pipeline.ts:167-177 | Between resets submitRequest is called at most 5 + (crashes inside steps) times, and a round is recorded at most once. |
| `JobRuns.NoSecondAttestation` | packages/executor/src/pipeline.ts:190-205 | Once its round is final no error, delay or crash sends a job back to paying for an attestation. |
| `JobRuns.AttemptsCount` | packages/executor/src/pipeline.ts:248-270 | attempts is the number of throwing steps since the last progress; polls that only wait do not reset it. |
| `JobRuns.FailureCharacterized` | packages/executor/src/pipeline.ts:267-278 | A job has failed if and only if some non-retryable error was at least the fifth error of any kind in a row. |
| `JobRuns.LagCounts` | packages/executor/src/pipeline.ts:267-274 | Lag counts towards the five: after four errors of any kind the next hard error fails the job, be it the first. |
| `JobRuns.LagFails` | packages/executor/src/pipeline.ts:267-274 | A concrete run: a fresh job that meets four lagging answers and then one hard error has failed. |
| `JobRuns.Succeeds` | packages/executor/src/pipeline.ts:152-282 | While every call succeeds without a new delay, a job that has not failed is executed if and only if it has taken as many steps as its state needs, at most five. |
| `JobRuns.LagNeverFails` | packages/executor/src/pipeline.ts:267-278 | Verifier and data-availability lag alone never fails a job, however long. |
| `JobRuns.DelayRespected` | packages/executor/src/pipeline.ts:197-236 | Once a step has recorded a delay until time D no later step calls for execution before the clock reads D; which D a receipt makes it record is `JobLaws.StepMines`. |
| `LostRaces.RevertNamesRace` | packages/executor/src/pipeline.ts:222-224 | The message of a mined revert names the lost race if and only if the transaction hash itself contains the selector. |
| `LostRaces.LostRaceFails` | packages/executor/src/pipeline.ts:250-278 | A job whose execution reverts on chain because the payment is spent becomes failed if and only if this is at least its fifth error in a row and the hash does not contain the selector. |
| `LostRaces.FiveRevertsFail` | packages/executor/src/pipeline.ts:250-278 | Runs that show it: five such reverts, whatever the hashes, the payment spent all along, and the job has failed. |
| `JobLaws.NormalExactlyWhen` | packages/executor/src/pipeline.ts:83-89 | A hash has a normal form if and only if it is 64 hex digits with or without 0x; the form is 0x and those digits in upper case. |
| `JobLaws.RaceExactlyWhen` | packages/executor/src/pipeline.ts:352-355 | An error names a lost race if and only if its text, in any case, contains 0x18dce79f. |
| `JobLaws.StepFails` | packages/executor/src/pipeline.ts:250-282 | What a step that meets an error leaves: executed if the job was proven, the error names a lost race and the chain confirms it; else one attempt more, the message, and failed exactly if the error is hard and this makes five. |
| `JobLaws.StepMoves` | packages/executor/src/pipeline.ts:156-205 | What a step without an error leaves before execution: the next state, with the request or the round just answered, no attempts and no error; and which steps leave the job alone. |
| `JobLaws.StepMines` | packages/executor/src/pipeline.ts:207-241 | What a mined execution leaves: executed without a timed delay event, else delayed until 1000 times the seconds of the first timed one in the receipt. |
| `JobLaws.StepCalls` | packages/executor/src/pipeline.ts:152-282 | Every call a step makes, in order, with its arguments: the proof is asked for the request and round of the job, the execution carries the bytes and the value of the job. |
| `JobLaws.SavesExactlyWhen` | packages/executor/src/pipeline.ts:178-205 | A step ends without a save only for a round not final, a delay not over, or a finished job. |
| `JobLaws.ReceiptDelayRespected` | packages/executor/src/pipeline.ts:197-236 | If a mined execution's receipt tells a delay until s seconds, no later step calls for execution before the clock reads 1000 s milliseconds. |
| `Pipeline.FindDelayedEvent` | packages/executor/src/pipeline.ts:326-347 | The scan returns the time of the first delay event that carries one, and null only if none does. |
| `Pipeline.ExecutorPipeline.Load` | packages/executor/src/pipeline.ts:106-112 | A fresh object equal to the file, or null if there is none. |
| `Pipeline.ExecutorPipeline.Save` | packages/executor/src/pipeline.ts:114-119 | The file becomes the job, stamped; no other file changes. |
| `Pipeline.ExecutorPipeline.Create` | packages/executor/src/pipeline.ts:121-145 | Reuses the job on disk if there is one, whatever the new parameters; disk and object agree. |
| `Pipeline.ExecutorPipeline.StepOnDisk` | packages/executor/src/pipeline.ts:152-282 | A step of a job the disk has as it is leaves the file as the job, and no other file changed. |
| `Pipeline.ExecutorPipeline.Step` | packages/executor/src/pipeline.ts:152-282 | The in-place step is the specification of a step, and disk and memory agree after it if they did before. |
| `Pipeline.ExecutorPipeline.TryStep` | packages/executor/src/pipeline.ts:155-246 | The switch in place: what is written before an error is thrown stays written. |
| `Pipeline.ExecutorPipeline.Run` | packages/executor/src/pipeline.ts:307-322 | The loop terminates if sleeping and mining take time; on exit the job is executed or failed or the deadline has passed, and not before. |
| `Pipeline.TurnCloser` | packages/executor/src/pipeline.ts:312-320 | The lexicographic measure: a turn leaves less time, or as much time and fewer stages. |
| `Pipeline.AfterIsSteps` | packages/executor/src/pipeline.ts:307-322 | Turns of the loop are steps of the one-driver machine, so all results on its runs hold of the loop. |
| `Executor.AdvanceKeeps` | packages/executor/src/pipeline.ts:152-282 | From one await to the next a step keeps every job complete and committed, even if other steps moved the job meanwhile, and makes only calls with nothing missing. |
| `Executor.NextKeeps` | packages/executor/src/service.ts:272-303 | Any action of an executor, at any moment, keeps the invariant: registration, poll, look-up, creation, step, reset, crash. |
| `Executor.ReopenKeeps` | scripts/resume-job.ts:61-70 | Resetting a failed job by hand keeps the invariant. |
| `ExecutorLaws.RegisteringStarts` | packages/executor/src/store.ts:47-67 | A registration fills the cache at once and has its file still to write; a wrong claim does neither. |
| `ExecutorLaws.SeeingStarts` | packages/executor/src/watcher.ts:91-105 | An entry starts a look-up of a hash and a commitment exactly if it shows a payment with that hash whose memos commit to it. |
| `ExecutorLaws.LookUpGoesOn` | packages/executor/src/store.ts:71-83 | A look-up reads the cache, then the file, then gives up; no other task moves. |
| `ExecutorLaws.LoadingExactly` | packages/executor/src/pipeline.ts:121-145 | A job is made of exactly what payment and record say, or taken up from the disk, or not made if an amount or the hash cannot be read. |
| `ExecutorLaws.ReopeningStarts` | scripts/resume-job.ts:61-70 | A failed job is sent back to the start with nothing else of it changed; any other is taken up as it is. |
| `Fleet.FleetKeeps` | packages/executor/src/service.ts:272-303 | Every executor of a fleet keeps its invariant in every run. |
| `Fleet.EndToEnd` | packages/executor/src/service.ts:272-288 | In every run of any number of executors, the bytes passed to executeDirectMintingWithData for t hash to the commitment in t's first decodable 0xFE memo, and the proof was requested for t. |
| `Fleet.FieldsPresent` | packages/executor/src/pipeline.ts:156-241 | With steps on the same job interleaved at every await, and resets, no call lacks its request or round, and every job has the fields its state needs. |
| `Fleet.ExecutedIsSpent` | packages/executor/src/pipeline.ts:207-304 | Whoever wins the race, a job that says executed is for a payment the chain has consumed. |
| `Fleet.ExecutedExactlyWhen` | packages/executor/src/pipeline.ts:207-265 | A step makes a job executed if and only if a mint went through without any delay event, or the error names a lost race and the chain confirms it; a failed confirmation read never does. |
| `Chain.ExecutedIsConsumed` | packages/executor/src/pipeline.ts:207-304 | On a chain where a sent transaction may be mined at any later moment, even if its step has died or given up, and may revert for any reason, a job that says executed is for a consumed payment: won, lost, refused, or retried after a lost receipt. |
| `Service.ExecutorService.constructor` | packages/executor/src/service.ts:79-92 | A process over existing directories starts with no live job and looks forward. |
| `Service.ExecutorService.HandleRegister` | packages/executor/src/service.ts:140-163 | Intake: incomplete bodies and wrong commitments change nothing; defaults are filled in; the record is filed under its hash. |
| `Service.ExecutorService.Tick` | packages/executor/src/service.ts:272-303 | One tick in place: poll, look up, create, then one step for every live job in any order, terminal ones dropped; disk and memory agree. |
| `Service.ExecutorService.AdmitFound` | packages/executor/src/service.ts:274-291 | The first loop: known payments and unheld commitments are skipped, an unusable record loses the payments after it. |
| `Service.ExecutorService.DriveEach` | packages/executor/src/service.ts:294-302 | The second loop does the same whatever the order of the live jobs. |
| `Service.OneDriverEach` | packages/executor/src/service.ts:272-303 | Over any registrations, ticks, failed polls and restarts, the file of a payment is its first job stepped once for each tick in which it was live. |
| `Service.FailedExactlyWhen` | packages/executor/src/service.ts:294-302 | In any history of the service a payment's job has failed if and only if a hard error was at least the fifth in a row in what its ticks answered. |
| `Service.BytesCommitted` | packages/executor/src/service.ts:274-288 | The bytes in a payment's file hash to the commitment on a payment of that hash that some poll saw; retries, restarts and later registrations never change them. |
| `Service.ReportedEnters` | packages/executor/src/service.ts:274-288 | If every record reported is usable, every reported payment becomes live, not only the first. |
| `Service.CreatedFrom` | packages/executor/src/service.ts:278-287 | A job is created once, from the record held when its payment was first found. |
| `Service.LiveExactlyWhen` | packages/executor/src/service.ts:104-115 | A job is driven if and only if it is on disk, unfinished, and some poll has reported its payment since the process started, with a usable record and no unusable one before it. |
| `Service.ReportedIsExecuted` | packages/executor/src/service.ts:272-303 | Once a tick reports a payment whose job has not failed, five ticks whose answers all succeed without a new delay execute it, whatever is registered or reported meanwhile. |
| `Service.RestartForgets` | packages/executor/src/service.ts:104-115 | For any registration and payment that fit and any start ledger, a run: the job is on disk and unfinished, and a successful tick after the restart does not drive it. |
| `Service.RestartAbandons` | packages/executor/src/service.ts:104-115 | After a restart, until its payment is reported again, an unfinished job stays on disk as it was. |
| `Service.LiveIsUnfinished` | packages/executor/src/service.ts:297-298 | A live job is neither executed nor failed. |
| `ServiceLaws.IntakeExactly` | packages/executor/src/service.ts:140-163 | Over the fields of the body: which bodies are refused and how, and the record kept of the others, with 0, 0 and (unlabelled) for what is missing. |
| `ServiceLaws.TickExactly` | packages/executor/src/service.ts:272-303 | One tick, payment by payment: the jobs stepped are those live and those of payments just found with a usable record; each takes one step from its file, or from a new job with what the record says, and stays live until executed or failed; no other file is touched. |
| `Server.Server.DoSerialize` | extension/typescript/src/base/server.ts:184-191 | In place: the new call hangs on the old queue, and the queue on the new call. |
| `Server.Server.Turn` | extension/typescript/src/base/server.ts:184-191 | One turn of the event loop in place is the specification of that turn. |
| `Server.FifoMutex` | extension/typescript/src/base/server.ts:184-191 | In every interleaving the log of starts and ends reads 0, 0, 1, 1, 2, 2, ...: in order of submission, each once, never two at a time. |
| `Server.RejectionIsPrivate` | extension/typescript/src/base/server.ts:185-189 | The promise the k-th caller holds is rejected if and only if the k-th function was; the queue itself never is. |
| `Server.NotedExactlyWhen` | extension/typescript/src/base/server.ts:184-191 | The log is the history: an end is noted with an outcome if and only if some turn settled that running function so, and a start if and only if some turn started it with the call ahead of it over. |
| `Server.EveryScheduleDrains` | extension/typescript/src/base/server.ts:179-183 | From every reachable state, whatever rejects and in whatever order turns are taken, no schedule is longer than three turns a function, and when none can be taken every submitted function has run exactly once. |
| `Server.Drains` | extension/typescript/src/base/server.ts:179-183 | From every reachable state, and for any outcomes, there is a schedule that drains the queue. |
| `Registration.Registrar.RegisterNode` | extension/tools/pkg/fccutils/registration.go:59-172 | The command in place, step by step with its saves, is the specification of one invocation. |
| `Registration.ResumeOnce` | extension/tools/pkg/fccutils/registration.go:66-172 | A failed run and its resumption come to one run that got the answers of both. |
| `Registration.ResumeIsOneRun` | extension/tools/pkg/fccutils/registration.go:66-172 | However often it fails and is resumed, a registration leaves the same file, the same outcome and the same achievements in the same order as one uninterrupted run. |
| `Registration.ResumeKeepsOrder` | extension/tools/pkg/fccutils/registration.go:76-168 | Over any failures and resumes each of r, R, a is achieved at most once and in order, the availability check uses the id of the most recent attestation, and success means every commanded step was achieved. |
| `Registration.RunExactly` | extension/tools/pkg/fccutils/registration.go:76-168 | One run, step by step: each commanded step is achieved, with the id it was answered, if and only if the commanded steps before it were answered too (the first by a fresh attestation on a registered machine, by pre-registration on any other); it succeeds if and only if all were. |
| `Registration.KeptExactly` | extension/tools/pkg/fccutils/registration.go:93-172 | What a run leaves in the state file: nothing after success, else the steps that got through and the ids of the last attestation and of the check. |

## Left out

- HTTP, JSON-RPC, viem, XRPL, Xaman and FDC network calls: their answers are parameters.
- `userop.ts` (ABI encoding of a user operation), `prepare.ts` (assembling a payment to sign from contract reads), `config.ts` (addresses and endpoints), `fassets.ts` (destination and fee of a direct mint): not part of this model.
- Torn writes and tampering with state files: a save is atomic and only the code writes state files. Failed saves are not modelled either.
- A mid-step crash on disk: it happens before the step's save; whatever the chain had accepted by then stays accepted and is counted in `FeesBounded`.
- Fleet.EndToEnd: claims nothing of `totalCallValue`, `nonce` and `label` (`summary` here), which are not bound by the hash and are last-writer-wins.
- JobRuns.FeesBounded: assumes that errors of submitRequest are not the retryable kind, which only the verifier and the data-availability layer raise.
- JobRuns.DelayRespected, and JobLaws.ReceiptDelayRespected with it: for one driver with a monotone clock; crashes and reloads between steps are covered through `CrashesStutter`.
- Service.OneDriverEach: for ticks that do not overlap, a working disk, and hashes that, if they are hashes at all, have the 64 upper-case digits a ledger gives (two spellings of one hash would be two live jobs on one file); with overlapping ticks at-most-once submission is not claimed.
- Service.ReportedEnters: claims nothing of payments beyond the page the ledger returned (30 entries).
- Service.ExecutorService.Tick: live jobs are stepped in any order where the source uses insertion order.
- Service.ExecutorService.HandleRegister: the other routes (`/prepare`, `/status`, `/pending`, demo page, Xaman) only read or forward.
- Watch.Watcher.PollPage: the page is given; the range and the limit the request carries are the ledger's affair.
- Pipeline.ExecutorPipeline.Run: times are integers in milliseconds and the precision of JavaScript numbers is not modelled; termination needs that sleeping and waiting for a receipt advance the clock.
- Latch.Enclave.HandleArm: keccak256 of hex with an odd number of digits, which the library may refuse, is a value like any other; framing of messages (hex of UTF-8 of JSON) is not modelled, requests are JSON values; times are reals.
- Latch.Enclave.Tick: the readings of one tick are given per commitment; reading a feed is I/O.
- Chain.ExecutedIsConsumed: whether rate limits put a mint off, or the contract refuses it, is left open; a transaction whose hash the executor never learned counts as one somebody else relayed.
- LatchRuns.BytesStaySealed: about responses, not about timing or log lines.
- Memo.EncodeSetExecutorMemo: the checksum rule for mixed-case addresses is a predicate parameter.
- Memo.EncodeHeader: wallet ids are integers; a fractional one, which the source refuses too, cannot be written.
- Server.FifoMutex: a function that never settles blocks the queue for ever; that such a function settles is a turn the event loop takes in `EveryScheduleDrains`. Dispatch and the shape of responses are not modelled.
- Registration.Registrar.RegisterNode: saves succeed; an unreadable state file or malformed node info, which stop the command before its first step, and the pauses between steps are left out.
- Registration.ResumeKeepsOrder: for the same command given again after failures; a new command after success starts from nothing, as in the source.
- `PendingStore.list`, logs, dates, deployment scripts, `InstructionSender.sol` and its cancel path, the Go and Python hello-world handlers: not part of this model.
