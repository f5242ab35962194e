# DividendX: verified model of the faucet journal, the PT/DR accounting and the hosted sessions

DividendX splits a tokenised stock into a principal claim (PT) and a dividend claim (DR). This project models the parts
of the repository whose correctness is an argument over whole runs, and proves those arguments in Dafny.

| modules | what they model |
|---|---|
| `JsonStore`, `JournalStore` | the compare-and-swap store, the optimistic loop `mutateJson`, and the faucet journal's histories on it |
| `Journal`, `JournalObject`, `JournalProtocol`, `JournalLaws` | the durable faucet journal, and any number of workers running `execute` and `reconcile` against it and a chain |
| `Numbers`, `Bytes`, `OnChainMath`, `SdkArithmetic` | the two implementations of the retention index: byte-bounded and unreduced on chain, reduced rationals in the SDK |
| `Redemption`, `CustodyLaws`, `ExactShares` | cumulative redemption payouts, custody requirements and quotes; what pools and payouts are, in inequalities |
| `RetentionIndex`, `EventArrival`, `AnnualModel`, `AnnualOrder`, `AnnualObject`, `AnnualLaws`, `RecordLaws` | the annual reference model: event journal, index, deposits, burns, finalization, redemption, and independence of arrival order |
| `Counting`, `ClockedStore`, `SessionMeter` | read, clock, swap workers on one value; the per-session request meter |
| `SessionLedger`, `SessionQuotas`, `SessionLifecycle`, `SessionLaws` | the hosted session ledger, its quotas over whole runs, and the life of one session under the broker |
| `ResumableStep`, `ResumableLaws`, `Base58` | write-ahead signed attempts over crashes and restarts; the signature encoder |
| `RpcScheduler`, `RpcRefusals`, `RpcSchedulerObject` | the RPC start scheduler, and why it refuses |
| `DemoClient`, `DemoInvariants`, `DemoLaws`, `DemoObject` | the legacy demo client and its receipts |

Where the source mutates objects (`DurableJournal`, `AnnualReferenceModel`, the session ledger and meter clones, the
scheduler, the demo client) there is a class whose methods are proved to produce exactly the state and outcome of a
specification function; the invariants and whole-run theorems are lemmas about those functions. Protocols are step
relations over shared state, worker-local snapshots and an abstract chain, so that a theorem over all step sequences
covers every interleaving, crash and retry.

The `…Laws` modules, `ExactShares` and `RpcRefusals` state, on the fields of the state and without the specification
functions' own helpers, when each operation goes through, what it moves and what its errors say.

## Assumptions

- A store swap reports success exactly when it replaced the value; a call that throws may or may not have committed.
- Session ids are fresh (`SessionLifecycle.FreshIds`). Operation ids determine the operation they were hashed from.
- A chain signature executes at most once, only after it was submitted, and debits at most its reservation; a reported
  error or confirmation is true and final.
- In `ClockedStore` the clock does not go back. The journal and the scheduler need no such assumption.
- The session broker changes a record's status only through the ledger operations of `SessionLedger.Op`; this is how
  `packages/hosted-broker/src/broker.ts` is written.

## Where the code does not meet a promise

- `release` of the faucet journal writes any target state over any non-terminal one. A caller that releases to an earlier
  state makes the record forget that an attempt exists (`Journal.ReleaseCanForgetAnAttempt`). `Journal.ReleaseKeepsIff`
  gives the exact condition, and the service's own calls satisfy it.
- The creation cooldown of the session ledger is forgotten after two days. Every run keeps it if and only if it is at
  most two days or the limits let nothing start (`SessionQuotas.CooldownHoldsIff`). The default is 30 seconds.
- A resumable step that must not repeat can succeed twice if a caller tries again in a process whose attempt write was
  lost: the attempt in memory is submitted although the state file does not hold it. It succeeds at most once in every
  run if and only if callers do not do that (`ResumableStep.AtMostOneSuccessIff`). Trying again in the process after any
  other failure is covered and safe. The bootstrap script does not retry.
- What the annual journal holds depends only on the records offered, and not on their order, if and only if they concern
  at most 64 events and the highest revision of each comes with one content (`AnnualOrder.ArrivalOrderIrrelevantIff`).
  Otherwise the first content stays, or a late event is refused. The index always depends only on what is held.

## Model

| member | source | states |
|---|---|---|
| `JsonStore.CasStore.MutateJson` | packages/hosted-broker/src/json-store.ts:151-165 | no lost update: on success the last commit is this call's mutation applied to the commit just before it; it commits once on success, never on rejection or exhaustion, as the fault says when a swap throws; it gives up only after losing every attempt |
| `JsonStore.CasStore.TryOnce` | packages/hosted-broker/src/json-store.ts:154-163 | one turn of the loop: committed, rejected by the value read, threw, or lost to somebody else's commit |
| `JsonStore.CasStore.Swap` | packages/hosted-broker/src/json-store.ts:9-13 | a swap succeeds exactly on the expected content and then extends the chain of commits |
| `JsonStore.RevisionCountsCommits` | packages/hosted-broker/src/json-store.ts:151-165 | for any store whose mutations bump a revision, commit k carries revision k + 1; `JournalStore` discharges the hypothesis |
| `JsonStore.CommittedValuesNeverRepeat` | packages/hosted-broker/src/json-store.ts:9-13 | then no two commits hold the same value |
| `JournalStore.MutationsBump` | packages/hosted-devnet/src/ledger.ts:27-33 | each of the journal's seven mutations raises the revision by one whenever it commits |
| `JournalStore.RevisionIsCommitNumber` | packages/hosted-devnet/src/ledger.ts:27-33 | along every history of journal mutations commit k carries revision k + 1 |
| `JournalStore.LedgersNeverRepeat` | packages/hosted-devnet/src/ledger.ts:27-33 | no ledger is stored twice |
| `JournalStore.SameContentMeansNoCommit` | packages/hosted-devnet/src/ledger.ts:27-33 | finding the content read earlier means nobody committed in between: content etags cannot suffer ABA |
| `JournalStore.Mutate` | packages/hosted-devnet/src/ledger.ts:27-33 | a journal call through eight attempts against any other workers: on success its ledger is its mutation of the commit just before, and its revision is the number of commits |
| `Journal.ReserveGrantKeeps` | packages/hosted-devnet/src/ledger.ts:45-69 | a grant keeps counters equal to the operations they count, under every daily and lifetime limit, and only adds records |
| `Journal.ReserveObservationKeeps` | packages/hosted-devnet/src/ledger.ts:71-89 | the same for observations |
| `Journal.AcquireKeeps` | packages/hosted-devnet/src/ledger.ts:91-106 | a lease gets the next fence and its operation carries it; nothing recorded is undone |
| `Journal.PersistPreparedKeeps` | packages/hosted-devnet/src/ledger.ts:108-119 | an attempt is written only into a reserved operation by its current lease |
| `Journal.TransitionKeeps` | packages/hosted-devnet/src/ledger.ts:151-164 | a transition keeps attempts and leases, changes one record, and leaves terminal records alone |
| `Journal.ReleaseKeepsIff` | packages/hosted-devnet/src/ledger.ts:130-149 | release keeps the journal's promises exactly when the target state does not lie before the recorded one |
| `Journal.ReleaseCanForgetAnAttempt` | packages/hosted-devnet/src/ledger.ts:130-149 | a concrete release that breaks them |
| `JournalObject.DurableJournal.ReserveGrant` | packages/hosted-devnet/src/ledger.ts:45-69 | the in-place method is the specification function, error cases included |
| `JournalObject.DurableJournal.ReserveObservation` | packages/hosted-devnet/src/ledger.ts:71-89 | changing the ledger in place is the specification function: existing bucket returned, lifetime budget refused, record and counter added |
| `JournalObject.DurableJournal.Acquire` | packages/hosted-devnet/src/ledger.ts:91-106 | inactive snapshot or record, busy lease, or next fence and lease written in place, as specified |
| `JournalObject.DurableJournal.PersistPrepared` | packages/hosted-devnet/src/ledger.ts:108-119 | wrong state, lost lease, or attempt and fence written in place, as specified |
| `JournalObject.DurableJournal.Release` | packages/hosted-devnet/src/ledger.ts:130-149 | the lease is cleared if it is the caller's; a state is written only under a live fence, as specified |
| `JournalObject.DurableJournal.Transition` | packages/hosted-devnet/src/ledger.ts:151-164 | terminal records untouched, missing attempts refused, otherwise state and times written in place, as specified |
| `JournalProtocol.SingleAttempt` | packages/hosted-devnet/src/service.ts:44-99 | in every run of any workers, with crashes, stale snapshots, expired leases and uncertain swaps and sends: at most one attempt is ever sent per operation, it is the recorded one for ever, and a record has an attempt exactly when it is not reserved |
| `JournalProtocol.Fencing` | packages/hosted-devnet/src/ledger.ts:91-149 | once a later lease of a kind exists, an earlier one can never again persist, pass the send fence, change a record or clear the newer lease |
| `JournalProtocol.RecordsOnlyAdvance` | packages/hosted-devnet/src/ledger.ts:91-164 | state rank never falls, terminal records are frozen, a live lease carries its operation's fence, confirmed operations executed on chain |
| `JournalProtocol.SpendingBounded` | packages/hosted-devnet/src/contract.ts:3-12 | everything debited on chain is at most the lifetime counter, which is the reservation times the number of operations and at most the cap |
| `JournalProtocol.DailyLimits` | packages/hosted-devnet/src/ledger.ts:45-69 | no UTC day grants more than the global, visitor and address limits |
| `JournalProtocol.GrantsCanComplete` | packages/hosted-devnet/src/service.ts:65-99 | from any state whose limits leave room, with the lease absent or expired and a worker idle, that worker can reserve, lease, persist, send, release and confirm a grant with any covered debit |
| `JournalProtocol.ApplyKeeps` | packages/hosted-devnet/src/service.ts:65-99 | every step of every worker keeps the system invariant and undoes nothing |
| `Bytes.RoundTrip` | packages/transaction-sdk/src/bytes.ts:64-80 | decoding the minimal little-endian bytes gives the number back, and the top byte is not zero |
| `Bytes.LengthBound` | programs/dividendx/src/math.rs:99-103 | a number fits k bytes exactly when it is below 2^(8k) |
| `Bytes.BytesToBigIntLe` | packages/transaction-sdk/src/bytes.ts:64-68 | the loop computes the positional value |
| `Bytes.BigintToMinimalLe` | packages/transaction-sdk/src/bytes.ts:70-80 | the loop produces the minimal bytes |
| `Numbers.ReduceSpec` | packages/transaction-sdk/src/arithmetic.ts:19-30 | dividing by the gcd gives an equal ratio in lowest terms |
| `Numbers.GcdLoop` | packages/transaction-sdk/src/arithmetic.ts:19-24 | the loop computes the gcd |
| `OnChainMath.DecodeSpec` | programs/dividendx/src/math.rs:19-30 | exactly the patterns between the two bounds decode, and the significand and exponent read from a pattern give it back |
| `OnChainMath.BitOrderIsValueOrder` | programs/dividendx/src/math.rs:32-37 | comparing bit patterns is comparing values |
| `OnChainMath.FactorBounds` | programs/dividendx/src/math.rs:39-66 | a qualified pair multiplies the numerator by less than 2^53 and the denominator by less than 2^116, and never raises the index |
| `OnChainMath.IndexBounds` | programs/dividendx/src/math.rs:39-66 | k qualified events keep the numerator below 2^(53k), the denominator below 2^(116k) and the index in (0, 1] |
| `OnChainMath.AccumulateExact` | programs/dividendx/src/state.rs:3-4 | up to 64 qualified events the byte bound is never reached and the fold is exact |
| `OnChainMath.AccumulateOkIff` | programs/dividendx/src/math.rs:39-66 | the fold succeeds exactly on lists of qualified events |
| `OnChainMath.SplitNeverFails` | programs/dividendx/src/math.rs:68-83 | every u64 quantity splits under every such index; the pools add up and the principal pool is positive |
| `SdkArithmetic.MultiplyRetentionRatios` | packages/transaction-sdk/src/arithmetic.ts:80-93 | the loop returns exactly the specified result: the reduced product, or the error of the first event that fails, or a refusal beyond 64 events |
| `SdkArithmetic.DecodersAgree` | packages/transaction-sdk/src/arithmetic.ts:45-63 | the rational-range decoder accepts the same u64 patterns as the program and reads the same value |
| `SdkArithmetic.QualificationAgrees` | packages/transaction-sdk/src/arithmetic.ts:65-78 | the SDK accepts an event exactly when the program does, with the same ratio in lowest terms |
| `SdkArithmetic.ProductAgrees` | packages/transaction-sdk/src/arithmetic.ts:80-93 | on at most 64 qualified events the SDK product exists, is in lowest terms and equals the program's index |
| `SdkArithmetic.ProductOkIff` | packages/transaction-sdk/src/arithmetic.ts:80-93 | it exists exactly on qualified lists |
| `SdkArithmetic.ArithmeticsAgree` | packages/transaction-sdk/src/arithmetic.ts:80-101 | both implementations accept the same lists and split every quantity into the same pools |
| `Redemption.PayoutsAgree` | programs/dividendx/src/math.rs:85-97 | program and SDK refuse the same redemptions and pay the same |
| `Redemption.PayoutIsRoundedShare` | packages/transaction-sdk/src/arithmetic.ts:103-116 | each call pays its proportional share rounded down or up |
| `Redemption.PathIndependent` | packages/transaction-sdk/src/arithmetic.ts:103-116 | over any sequence of payout calls, refused ones included, the total paid is floor(R·P/S) of the total redeemed R, never more than S is redeemed, and all of S pays P |
| `Redemption.LastCallPays` | packages/transaction-sdk/src/arithmetic.ts:103-116 | the call that completes the supply pays at least 1 of a non-empty pool |
| `Redemption.RequiredCustodyRaw` | packages/transaction-sdk/src/quotes.ts:18-49 | the checks in order compute the custody requirement or the error |
| `Redemption.QuotedRedemptionKeepsHealth` | packages/transaction-sdk/src/quotes.ts:166-196 | a quoted redemption keeps every consistency check and a healthy vault healthy |
| `Redemption.QuotedRecombineKeepsHealth` | packages/transaction-sdk/src/quotes.ts:145-164 | a quoted recombination keeps a healthy vault healthy |
| `Redemption.RunStaysHealthy` | packages/transaction-sdk/src/quotes.ts:18-55 | over any run of redemptions the vault stays healthy and each side has been paid exactly its entitlement |
| `RetentionIndex.CurrentIndex` | packages/sdk/src/annual-reference.ts:337-349 | the loop computes the index of the latest accepted revisions |
| `RetentionIndex.IndexSpec` | packages/sdk/src/annual-reference.ts:337-349 | the index is the product of the in-year factors, in lowest terms and in (0, 1] |
| `RetentionIndex.IndexIgnoresOrder` | packages/sdk/src/annual-reference.ts:337-349 | folding the same factors in another order gives the same reduced index |
| `RetentionIndex.MoreEventsMoreDividend` | packages/sdk/src/annual-reference.ts:337-368 | one more factor of at most one never lowers the DR share |
| `AnnualOrder.SameEventsSameIndex` | packages/sdk/src/annual-reference.ts:337-349 | two states of the model with the same recorded events have the same index |
| `AnnualOrder.RecordIsArrival` | packages/sdk/src/annual-reference.ts:391-407 | before finalization recordEvent does to the events exactly what one arrival does |
| `AnnualOrder.RunHoldsLatest` | packages/sdk/src/annual-reference.ts:391-407 | an unfinalized run of any calls, offered at most 64 events, ends with the valid record of highest revision of each |
| `AnnualOrder.ArrivalOrderIrrelevant` | packages/sdk/src/annual-reference.ts:337-407 | two unfinalized runs offered the same records, in any order and among any other calls, have the same index and, for the same accountable amount, the same pools |
| `AnnualOrder.ArrivalOrderIrrelevantIff` | packages/sdk/src/annual-reference.ts:391-407 | all such runs hold the same events exactly when there are at most 64 events and each top revision has one content |
| `AnnualOrder.UndeterminedRunsDiffer` | packages/sdk/src/annual-reference.ts:391-407 | otherwise two runs offered the same records hold different events |
| `EventArrival.FirstTopWins` | packages/sdk/src/annual-reference.ts:394-405 | a record of top revision that arrives first stays |
| `EventArrival.LateEventRefused` | packages/sdk/src/annual-reference.ts:402-405 | with more than 64 events any one of them can be refused by arriving last |
| `AnnualOrder.NewEventNeverLowersDividend` | packages/sdk/src/annual-reference.ts:351-407 | accepting a record of a new event never lowers the DR pool of previewAllocation |
| `AnnualModel.RecordError` | packages/sdk/src/annual-reference.ts:552-574 | a record is refused exactly when it is not valid, as an identity error only for an ill-formed id, chain, issuer or mint |
| `AnnualModel.AllocationOk` | packages/sdk/src/annual-reference.ts:351-368 | the pools add up to the accountable amount, and the PT pool is positive when there is one |
| `AnnualModel.DepositKeeps` | packages/sdk/src/annual-reference.ts:370-389 | a deposit keeps balances equal to supplies and custody exact; a refused one changes nothing |
| `AnnualModel.RecordEventKeeps` | packages/sdk/src/annual-reference.ts:391-407 | the event journal stays valid and within its limit |
| `AnnualModel.TransferKeeps` | packages/sdk/src/annual-reference.ts:409-419 | a transfer conserves each side |
| `AnnualModel.RecombineKeeps` | packages/sdk/src/annual-reference.ts:421-437 | recombination removes both claims and their collateral |
| `AnnualModel.BurnKeeps` | packages/sdk/src/annual-reference.ts:439-452 | supply, burned and redeemed still make up the accountable amount, so the late check cannot fail |
| `AnnualModel.FinalizeKeeps` | packages/sdk/src/annual-reference.ts:454-477 | the snapshot freezes pools that add up |
| `AnnualModel.PayoutCovered` | packages/sdk/src/annual-reference.ts:479-490 | the pool always covers a redemption; the last claims of a side empty it and are paid |
| `AnnualModel.RedeemKeeps` | packages/sdk/src/annual-reference.ts:492-517 | the remaining pool is the pool less the entitlement of all claims redeemed; late checks cannot fail |
| `AnnualModel.ApplyKeeps` | packages/sdk/src/annual-reference.ts:370-550 | every call keeps the invariant, and a failing call changes nothing |
| `AnnualModel.RunOk` | packages/sdk/src/annual-reference.ts:370-550 | over every run: balances sum to supplies, claims are conserved per side, and without a custody report custody is exactly obligation plus donations |
| `AnnualModel.PaidExactly` | packages/sdk/src/annual-reference.ts:479-517 | in every reachable finalized state a side has been paid its entitlement; redeeming every claim empties the pool |
| `AnnualModel.SnapshotFrozen` | packages/sdk/src/annual-reference.ts:454-477 | once finalized, no run changes snapshot, events or accountable amount |
| `AnnualObject.AnnualReferenceModel.Deposit` | packages/sdk/src/annual-reference.ts:370-389 | the in-place method is the specification function, error cases included |
| `AnnualObject.AnnualReferenceModel.RecordEvent` | packages/sdk/src/annual-reference.ts:391-407 | refusals in the source's order, identity errors included; idempotent repeats and higher revisions handled in place |
| `AnnualObject.AnnualReferenceModel.Transfer` | packages/sdk/src/annual-reference.ts:409-419 | both balances written in place, or the first refusal with nothing changed |
| `AnnualObject.AnnualReferenceModel.Recombine` | packages/sdk/src/annual-reference.ts:421-437 | supplies, custody and account written in place, or the first refusal with nothing changed |
| `AnnualObject.AnnualReferenceModel.Burn` | packages/sdk/src/annual-reference.ts:439-452 | balance and supply change before the counter is checked, as in the source |
| `AnnualObject.AnnualReferenceModel.Finalize` | packages/sdk/src/annual-reference.ts:454-477 | the snapshot and the remaining pools are written in place, or the first refusal with nothing changed |
| `AnnualObject.AnnualReferenceModel.Redeem` | packages/sdk/src/annual-reference.ts:492-517 | preview, refusals and the writes in the source's order, with the late counter check |
| `AnnualObject.AnnualReferenceModel.Donate` | packages/sdk/src/annual-reference.ts:519-525 | custody and donations grow together, or the amount is refused |
| `AnnualObject.AnnualReferenceModel.ReportActualCustody` | packages/sdk/src/annual-reference.ts:532-534 | any u64 replaces the custody figure |
| `ClockedStore.CommitsAreOrdered` | packages/hosted-broker/src/ledger.ts:132-149 | in every interleaving of read, clock, swap the commits are one chain of atomic operations at non-decreasing times |
| `ClockedStore.ChainIsRun` | packages/hosted-broker/src/ledger.ts:132-149 | conversely every such chain is the history of some run |
| `ClockedStore.RankCounts` | packages/hosted-broker/src/ledger.ts:132-149 | if every operation raises a rank by one, the rank counts the commits |
| `ClockedStore.ContentSwapAgrees` | packages/hosted-broker/src/ledger.ts:132-149 | then every run with swaps on equal content is the run with swaps on equal versions |
| `SessionMeter.MeterIsSafe` | packages/hosted-broker/src/ledger.ts:106-130 | from no meter, over every concurrent run of initializations, charges and closes: one creation, then charges within the total, mutation and per-minute limits, then at most one close; the binding never changes and nothing resets or reopens the meter |
| `SessionMeter.NextCommit` | packages/hosted-broker/src/ledger.ts:280-303 | each further commit keeps the counters equal to the charges granted, in total and in the current minute |
| `SessionMeter.InitializersAgree` | packages/hosted-broker/src/ledger.ts:106-116 | whoever succeeds in initializing at any later moment asked for the binding of the one creating commit and finds all charges counted; creating again is refused |
| `SessionMeter.MeterContentSwapAgrees` | packages/hosted-broker/src/ledger.ts:118-130 | although a meter has no revision, no stored meter of a run repeats, so content etags are as good as versions |
| `SessionMeter.MeterClone.Charge` | packages/hosted-broker/src/ledger.ts:280-299 | charging the clone in place is the specification function, refusals in the source's order |
| `SessionLedger.LazyEqualsEager` | packages/hosted-broker/src/ledger.ts:68-88 | normalizing at t1 and then at t2 is normalizing once at t2 |
| `SessionLedger.NormalizeIsSound` | packages/hosted-broker/src/ledger.ts:60-88 | no record starts to hold capacity; none that still holds it is dropped, nor any that held it and whose tombstone outlives its expiry; latest never dangles |
| `SessionLedger.LedgerObject.AgeRecords` | packages/hosted-broker/src/ledger.ts:72-78 | the first loop ages every record |
| `SessionLedger.LedgerObject.PurgeRecords` | packages/hosted-broker/src/ledger.ts:79-81 | the second loop deletes exactly the purged ones |
| `SessionLedger.LedgerObject.NormalizeInPlace` | packages/hosted-broker/src/ledger.ts:68-88 | in-place normalization is the specification function |
| `SessionLedger.LedgerObject.ReserveInPlace` | packages/hosted-broker/src/ledger.ts:216-255 | the reserve transaction, every refusal in order |
| `SessionLedger.LedgerObject.UpdateInPlace` | packages/hosted-broker/src/ledger.ts:257-264 | the unconditional update |
| `SessionLedger.LedgerObject.UpdateFencedInPlace` | packages/hosted-broker/src/ledger.ts:266-278 | the fenced update, applied exactly when status, latest and expiry allow |
| `SessionQuotas.LedgerContentSwapAgrees` | packages/hosted-broker/src/ledger.ts:132-149 | in every run commit k carries revision k + 1, no ledger is stored twice, and a swap on content is a swap on version |
| `SessionQuotas.DailyLimitsHold` | packages/hosted-broker/src/ledger.ts:216-255 | in every run no day sees more creations than the global, visitor and address limits although counters are pruned; each kept counter is exact and its total is the sum over visitors and over addresses |
| `SessionQuotas.ShortCooldownKept` | packages/hosted-broker/src/ledger.ts:82-87 | with a cooldown of at most two days, creations by one visitor are at least that far apart |
| `SessionQuotas.LongCooldownBroken` | packages/hosted-broker/src/ledger.ts:85-87 | for a longer one, a run that breaks it |
| `SessionQuotas.CooldownHoldsIff` | packages/hosted-broker/src/ledger.ts:223-226 | every run keeps the cooldown exactly when it is at most two days or nothing can start |
| `SessionLifecycle.ReadyAtMostOnce` | packages/hosted-broker/src/broker.ts:276-301 | in every run a session becomes ready at most once, from starting, while latest and unexpired |
| `SessionLifecycle.LifeOnlyAdvances` | packages/hosted-broker/src/broker.ts:129-301 | once it leaves starting or ready it never returns, keeps its identity, and never regains the latest slot |
| `SessionLifecycle.SupersededNeverForwardable` | packages/hosted-broker/src/ledger.ts:168-214 | after its visitor creates another session of the kind, a session is never forwardable again |
| `SessionLifecycle.HoldersAreKept` | packages/hosted-broker/src/ledger.ts:79-81 | in every reachable ledger, normalization never deletes a session that holds capacity |
| `SessionLifecycle.CapacityAtCreation` | packages/hosted-broker/src/ledger.ts:227-229 | a creation leaves at most the active limit holding capacity |
| `ResumableStep.WriteAhead` | packages/devnet-runtime/src/transactions.ts:49-147 | over every run that ignores no lost attempt write, with retries after all other failures: every submitted signature is on disk, and every attempt on disk but the last is settled although only the last is ever inspected |
| `ResumableStep.NewSignatureOnlyWhenSettled` | packages/devnet-runtime/src/transactions.ts:56-82 | over the same runs a new signature is made only when every earlier submission has a final outcome; an expired one of unknown outcome blocks |
| `ResumableStep.ReturnsAreChecked` | packages/devnet-runtime/src/transactions.ts:97-147 | over every run without exception, a call that returns saw its check hold, and a returned signature succeeded on chain |
| `ResumableStep.LostWriteSucceedsTwice` | packages/devnet-runtime/src/transactions.ts:83-147 | a run in which a retry after a lost attempt write succeeds twice |
| `ResumableStep.AtMostOneSuccessIff` | packages/devnet-runtime/src/transactions.ts:49-147 | a step that must not repeat succeeds at most once in every run exactly when no caller tries again in a process that holds an attempt its state file does not |
| `Base58.ScaleDigits` | packages/devnet-runtime/src/transactions.ts:15-19 | the inner loop multiplies by 256 and adds, digits and carry together holding the exact value |
| `Base58.MultiplyAdd` | packages/devnet-runtime/src/transactions.ts:13-21 | one byte: value * 256 + byte, with no superfluous leading digit |
| `Base58.Encode` | packages/devnet-runtime/src/transactions.ts:10-25 | the loops produce the positional specification |
| `Base58.TrimmedIsNumeral` | packages/devnet-runtime/src/transactions.ts:13-21 | a digit array without a superfluous leading digit is determined by its value |
| `Base58.LeadingCorrespond` | packages/devnet-runtime/src/transactions.ts:22-24 | leading zero bytes and leading '1's are equal in number, also for all-zero input, and values agree |
| `Base58.RoundTrip` | packages/devnet-runtime/src/transactions.ts:10-25 | a decoder recovers every byte string |
| `Base58.Injective` | packages/devnet-runtime/src/transactions.ts:10-25 | different byte strings have different encodings |
| `RpcScheduler.SchedulerIsSafe` | packages/hosted-devnet/src/chain.ts:48-126 | for every sequence of calls, aborts, cooldowns and timers at any clock readings: starts are an interval apart, in call order, outside cooldowns, before their deadlines and never after closing; the queue is bounded; every call is waiting or settled; no request starts after its signal; a waiting one has a wake-up no later than any deadline |
| `RpcScheduler.PumpShrinks` | packages/hosted-devnet/src/chain.ts:96-105 | after a pump nobody waits whose deadline has passed, and nobody was added |
| `RpcScheduler.PumpStartsAllItCan` | packages/hosted-devnet/src/chain.ts:106-125 | a pump stops only at an empty queue or a head that is too early |
| `RpcScheduler.ApplyKeeps` | packages/hosted-devnet/src/chain.ts:57-125 | each single event keeps the scheduler invariant |
| `RpcSchedulerObject.RpcStartScheduler.Acquire` | packages/hosted-devnet/src/chain.ts:57-77 | the in-place method is the specification function |
| `RpcSchedulerObject.RpcStartScheduler.ApplyCooldown` | packages/hosted-devnet/src/chain.ts:79-85 | an invalid delay closes the scheduler; a valid one only extends the cooldown and pumps |
| `RpcSchedulerObject.RpcStartScheduler.FailClosed` | packages/hosted-devnet/src/chain.ts:87-94 | the loop rejects every waiter, clears the timer and closes |
| `RpcSchedulerObject.RpcStartScheduler.Pump` | packages/hosted-devnet/src/chain.ts:96-125 | both loops and the nested pump of an aborted head compute the specification function |
| `DemoClient.TermsOk` | packages/sdk/src/index.ts:243-251 | positive multipliers that do not fall are accepted, and the DR part is one less the first over the second |
| `DemoClient.ShareBounds` | packages/sdk/src/index.ts:243-251 | the DR share is less than a positive amount |
| `DemoInvariants.RunIsSound` | packages/sdk/src/index.ts:392-639 | after every run the opening balances plus all receipts since the last reset are the current balances, USDC and every asset are conserved, no balance is negative and every series is sound |
| `DemoInvariants.DepositOkIff` | packages/sdk/src/index.ts:433-473 | in every reachable state a deposit is refused only for condition, fixture, balance, phase or a zero dividend; the range checks cannot fail |
| `DemoInvariants.SaleKeeps` | packages/sdk/src/index.ts:490-525 | a sale conserves USDC and DR and its receipt says exactly what moved |
| `DemoInvariants.SettleOkIff` | packages/sdk/src/index.ts:536-559 | settlement succeeds exactly for a closed series under a ready condition |
| `DemoInvariants.ClosedSeriesSettles` | packages/sdk/src/index.ts:536-559 | in every reachable state a closed series settles once the condition is ready |
| `DemoInvariants.RedeemsWhatItPreviews` | packages/sdk/src/index.ts:416-592 | a previewed redemption goes through; pool and range checks cannot fail |
| `DemoInvariants.LastClaimsPayThePool` | packages/sdk/src/index.ts:563-592 | the last claims of a side can be redeemed for the rest of its pool, and the series completes exactly when both sides are redeemed |
| `DemoInvariants.RecombineOkIff` | packages/sdk/src/index.ts:594-625 | recombination fails only for reasons the holder can see |
| `DemoObject.Session.Deposit` | packages/sdk/src/index.ts:433-473 | the in-place method is the specification function; a failing call changes nothing |
| `DemoObject.Session.QuoteSale` | packages/sdk/src/index.ts:475-488 | a quote is stored under a fresh number of this session, or the first refusal with nothing changed |
| `DemoObject.Session.AcceptSale` | packages/sdk/src/index.ts:490-525 | claims, USDC, quote and receipt change in place, or the first refusal; a rejected quote is gone |
| `DemoObject.Session.CloseDeposits` | packages/sdk/src/index.ts:527-534 | only an open series closes, with an empty receipt |
| `DemoObject.Session.Settle` | packages/sdk/src/index.ts:536-559 | the pools are frozen in place, or the first refusal with nothing changed |
| `DemoObject.Session.Redeem` | packages/sdk/src/index.ts:563-592 | claims, collateral, pool and receipt change in place; the series completes with its last claims |
| `DemoObject.Session.Reset` | packages/sdk/src/index.ts:635-639 | a new session: opening state, a new generation, no quotes |
| `DemoObject.Session.Recombine` | packages/sdk/src/index.ts:594-625 | claims, collateral and receipt change in place; the series is cancelled with its last collateral |
| `JournalLaws.GrantOkIff` | packages/hosted-devnet/src/ledger.ts:45-69 | a grant is reserved exactly when the faucet is enabled and it exists already or fewer than 30, 3 and 12 grants of the day and room under 1,000,000,000 are left; the new record's fields |
| `JournalLaws.GrantErrors` | packages/hosted-devnet/src/ledger.ts:45-69 | each quota error says which of those limits is reached |
| `JournalLaws.ObservationOkIff` | packages/hosted-devnet/src/ledger.ts:71-89 | an observation is reserved exactly when it exists already or the lifetime budget has room |
| `JournalLaws.AcquireOkIff` | packages/hosted-devnet/src/ledger.ts:91-106 | a lease is granted exactly to active records when none of the kind is live, and is refused as busy exactly when one is; it lives 45 seconds |
| `JournalLaws.PersistOkIff` | packages/hosted-devnet/src/ledger.ts:108-119 | only the unexpired lease of a reserved operation writes its attempt |
| `JournalLaws.SendFenceIff` | packages/hosted-devnet/src/ledger.ts:121-128 | the fence holds exactly for the unexpired lease whose fence the operation carries |
| `JournalLaws.ReleaseOkIff` | packages/hosted-devnet/src/ledger.ts:130-149 | a state is written exactly under the caller's unexpired lease and fence, and only the caller's lease is cleared |
| `JournalLaws.TransitionOkIff` | packages/hosted-devnet/src/ledger.ts:151-164 | a verdict is written exactly into an active operation with an attempt |
| `JournalLaws.LeaseErrors` | packages/hosted-devnet/src/ledger.ts:91-164 | a lost lease or a changed operation is reported only when it is so |
| `JournalLaws.LeaseStays` | packages/hosted-devnet/src/ledger.ts:91-149 | no step removes or replaces a lease except its owner's release or an acquisition after expiry |
| `JournalLaws.LeaseExcludesOthers` | packages/hosted-devnet/src/ledger.ts:91-106 | in every run, while the owner does not release a lease and nobody acquires after its expiry, it stays and no second lease of the kind is issued |
| `JournalLaws.FreeLeaseIsGranted` | packages/hosted-devnet/src/service.ts:65-75 | a worker with an active operation gets the lease when none of its kind is live |
| `JournalLaws.SendsFollowFence` | packages/hosted-devnet/src/service.ts:76-78 | an attempt is sent only by a worker whose last ledger check passed the send fence |
| `JournalLaws.DisabledForGood` | packages/hosted-devnet/src/ledger.ts:166-168 | once the faucet is disabled no run reserves another grant, and the first reason stays |
| `ExactShares.ChainSplitIsFloor` | programs/dividendx/src/math.rs:68-83 | the pools add up, and dr * d <= quantity * (d - n) < (dr + 1) * d for the index n/d |
| `ExactShares.SdkSplitIsFloor` | packages/transaction-sdk/src/arithmetic.ts:95-101 | exactly ratios of at most one are accepted, with the same inequalities |
| `ExactShares.AllocationIsFloor` | packages/sdk/src/annual-reference.ts:351-368 | the same for the annual model's pools at its current index |
| `ExactShares.PoolsAreExact` | packages/sdk/src/annual-reference.ts:454-477 | in every reachable finalized state the frozen DR pool satisfies them at the index of the events held |
| `ExactShares.EntitledIsFloor` | packages/transaction-sdk/src/arithmetic.ts:103-116 | what the first R claims are paid is the floor of R·P/S |
| `ExactShares.FactorIsRatio` | programs/dividendx/src/math.rs:39-66 | an event's factor is its first multiplier over its second |
| `ExactShares.QualifiedIff` | programs/dividendx/src/math.rs:32-37 | an event qualifies exactly when both patterns lie in [2^-32, 2^32) and the second is no smaller |
| `CustodyLaws.RequiredCustodyIff` | packages/transaction-sdk/src/quotes.ts:18-49 | custody can be told exactly when the pools make up the supply and each side was paid the floor of its share; it is then what is left of the pools |
| `CustodyLaws.RedemptionQuotedIff` | packages/transaction-sdk/src/quotes.ts:166-196 | a redemption is quoted exactly for owned claims of a finalized, healthy series within its supply and with a payout, which keeps the paid total a floor |
| `CustodyLaws.RecombineQuotedIff` | packages/transaction-sdk/src/quotes.ts:145-164 | a recombination is quoted exactly before finalization for owned pairs within healthy custody, one for one |
| `CustodyLaws.PayoutsOkIff` | packages/transaction-sdk/src/arithmetic.ts:103-116 | which payout calls SDK and program accept |
| `AnnualLaws.DepositOkIff` | packages/sdk/src/annual-reference.ts:370-389 | deposits are taken exactly before the year starts, from known accounts and while custody is open and the totals fit; what they move |
| `AnnualLaws.DepositErrors` | packages/sdk/src/annual-reference.ts:370-389 | each error's cause holds |
| `AnnualLaws.TransferOkIff` | packages/sdk/src/annual-reference.ts:409-419 | a transfer goes through exactly between two known accounts with the claims, which leave one and arrive at the other |
| `AnnualLaws.RecombineOkIff` | packages/sdk/src/annual-reference.ts:421-437 | when pairs recombine before finalization, and what moves |
| `AnnualLaws.BurnOkIff` | packages/sdk/src/annual-reference.ts:439-452 | burning needs nothing but the claims, at any time |
| `AnnualLaws.FinalizeOkIff` | packages/sdk/src/annual-reference.ts:454-477 | finalization goes through exactly once, at maturity, with a complete ledger of final events and open custody |
| `AnnualLaws.FinalizeErrors` | packages/sdk/src/annual-reference.ts:454-477 | each error's cause holds |
| `AnnualLaws.RedeemOkIff` | packages/sdk/src/annual-reference.ts:479-517 | a redemption goes through exactly after finalization, for held claims, with open custody and a payout unless zero is allowed |
| `AnnualLaws.RedeemMoves` | packages/sdk/src/annual-reference.ts:492-517 | it is paid what the cumulative rule owes, to the account that gives up the claims |
| `AnnualLaws.RedeemErrors` | packages/sdk/src/annual-reference.ts:479-517 | each error's cause holds |
| `RecordLaws.ParseReadsDigits` | packages/sdk/src/annual-reference.ts:192-205 | a plain decimal is accepted exactly when short enough and not zero, and has the value its digits say |
| `RecordLaws.ParseOnlyPlain` | packages/sdk/src/annual-reference.ts:192-205 | nothing but plain decimals is accepted |
| `RecordLaws.YearLength` | packages/sdk/src/annual-reference.ts:212-221 | the months of a year have 365 days and one more exactly in leap years |
| `RecordLaws.WeightIsRatio` | packages/sdk/src/annual-reference.ts:337-349 | only a qualified event of the year weighs, by its first multiplier over its second |
| `RecordLaws.AcceptedIff` | packages/sdk/src/annual-reference.ts:391-407 | a record enters exactly when it is well-formed, about this series, and new with room or of a higher revision |
| `SessionLaws.HoldsOnFields` | packages/hosted-broker/src/ledger.ts:60-66 | a record holds capacity exactly when its provider may still be running, or it is unexpired and not failed with its sandbox gone |
| `SessionLaws.NormalizeIff` | packages/hosted-broker/src/ledger.ts:68-88 | exactly records past their tombstone that occupy nothing are dropped; how the others age |
| `SessionLaws.RunningSurvives` | packages/hosted-broker/src/ledger.ts:60-81 | a sandbox whose provider may still be running is never forgotten |
| `SessionLaws.ReserveCreatesIff` | packages/hosted-broker/src/ledger.ts:216-255 | a sandbox is created exactly when the visitor has none occupying capacity, is not cooling down, fewer than the limit occupy capacity and the day's counters have room |
| `SessionLaws.ReserveErrors` | packages/hosted-broker/src/ledger.ts:216-255 | each refusal's cause holds |
| `SessionLaws.FullCapacityRefuses` | packages/hosted-broker/src/ledger.ts:226-229 | no reservation creates while as many sandboxes as the limit are running or unfinished |
| `SessionLaws.CreatedFields` | packages/hosted-broker/src/ledger.ts:239-253 | deadlines, expiry, tombstone and pointers of a created session |
| `SessionLaws.ForwardableIff` | packages/hosted-broker/src/ledger.ts:168-214 | the stored fields decide who may be used: ready, unexpired and latest |
| `SessionLaws.FencedWrites` | packages/hosted-broker/src/ledger.ts:266-278 | a fenced write is applied exactly to an unexpired latest session in an allowed state, and what it writes |
| `SessionLaws.UpdateWrites` | packages/hosted-broker/src/ledger.ts:257-264 | an update reaches every record kept, and what it writes |
| `SessionLaws.ReadyBeforeDeadline` | packages/hosted-broker/src/broker.ts:276-301 | over every run a session becomes ready before its provisioning deadline |
| `SessionMeter.ChargeGrantedIff` | packages/hosted-broker/src/ledger.ts:280-303 | at every moment of every run a charge is granted exactly to the open, unexpired meter's binding while the charges granted so far leave room in total, in the minute and in mutations |
| `SessionMeter.CloseAcceptedIff` | packages/hosted-broker/src/ledger.ts:118-130 | a close is accepted exactly from the binding of an open meter |
| `ResumableLaws.ConfirmedIsReturned` | packages/devnet-runtime/src/transactions.ts:61-68 | a confirmed last attempt whose check holds is returned, and nothing is signed or sent |
| `ResumableLaws.ConfirmedButAbsent` | packages/devnet-runtime/src/transactions.ts:61-68 | without the check the call fails, unless the step may repeat |
| `ResumableLaws.PendingIsResent` | packages/devnet-runtime/src/transactions.ts:83-94 | an unexpired attempt without outcome is sent again as it is |
| `ResumableLaws.ExpiredUnknownStops` | packages/devnet-runtime/src/transactions.ts:69-82 | an expired attempt without outcome ends the call with nothing signed or sent |
| `ResumableLaws.FailedIsReplaced` | packages/devnet-runtime/src/transactions.ts:108-139 | a failed or missing attempt is replaced by one that is recorded, then sent |
| `ResumableLaws.SuccessIsReturned` | packages/devnet-runtime/src/transactions.ts:139-147 | a sent attempt that succeeds and whose check holds is returned |
| `RpcRefusals.RefusalsAreJustified` | packages/hosted-devnet/src/chain.ts:48-126 | over every run each start and refusal is justified by earlier events: a timeout by the deadline, a start plus the interval or a cooldown; an abort by its signal; a closed scheduler by the closing; a full queue by as many open requests |
| `RpcRefusals.HeadWithTime` | packages/hosted-devnet/src/chain.ts:106-125 | a head that has time is never refused: it starts if it may, or waits with a timer |
| `RpcRefusals.CooldownHonoured` | packages/hosted-devnet/src/chain.ts:79-85 | after a cooldown call nothing starts before its clock reading plus the delay, in whatever follows |
| `RpcRefusals.ClosedForGood` | packages/hosted-devnet/src/chain.ts:79-94 | after failing closed, or an invalid delay, nothing starts any more |
| `DemoLaws.DepositMoves` | packages/sdk/src/index.ts:433-473 | exactly which balances a deposit moves |
| `DemoLaws.SaleMoves` | packages/sdk/src/index.ts:490-525 | exactly which balances an accepted sale moves, and that it uses up the quote |
| `DemoLaws.RedeemMoves` | packages/sdk/src/index.ts:563-592 | exactly which balances a redemption moves |
| `DemoLaws.RecombineMoves` | packages/sdk/src/index.ts:594-625 | exactly which balances a recombination moves |
| `DemoLaws.SettleFreezes` | packages/sdk/src/index.ts:536-559 | settlement freezes the supply, gives the DR side the floor of the event's share and the PT side the rest |
| `DemoLaws.RedeemOkIff` | packages/sdk/src/index.ts:416-431 | when a redemption goes through |
| `DemoLaws.QuoteOkIff` | packages/sdk/src/index.ts:475-488 | a quote is made exactly for a sale possible now, for one minute and this version |
| `DemoLaws.AcceptOkIff` | packages/sdk/src/index.ts:490-525 | in every reachable state a quote is accepted exactly when stored, unexpired, current and the condition ready; phase, balance and range checks never decide |
| `DemoLaws.RejectedQuotes` | packages/sdk/src/index.ts:490-500 | a rejected quote is deleted, a foreign one stale, an unknown one missing |
| `DemoLaws.DepositErrors` | packages/sdk/src/index.ts:433-473 | each error's cause holds |
| `DemoClient.ShareIsFloor` | packages/sdk/src/index.ts:243-251 | the DR share is the floor of the event's part of the amount |

## Left out

- React pages, wallet UI, browser clients and hosted session hooks: user interface only.
- RPC, fetch retries, the blob SDK and the sandbox provider: foreign calls, present only as answers the environment gives.
- Hashing, HMAC, cookies, signer files, JSON size limits and schema validation of stored values.
- Anchor/Borsh coding, PDA derivation, mint extensions and the on-chain instruction handlers.
- Raydium flow, guided-runtime orchestration, issuer readers and calendar.rs: linear scripts, schema checks or finite cases.
- The worker side of `execute`, `reconcile` and `executeResumableStep` is a step relation on values, not a class: every await is a step boundary, which is what crashes and interleaving need.
- The broker's HTTP handling, polling and provider calls: only its ledger operations are modelled. There is no invariant on active sessions beyond the moment of a creation, because unconditional updates may make an old record hold capacity again.
- The legacy charge path for sessions without a meter, and ledger fields no decision reads (domain, genesis hash, launch time).
- Back-off delays between compare-and-swap attempts, and the 12-attempt limit inside `ClockedStore` (a worker may give up at any time there; `MutateJson` models the bound).
- Quote guards (expiry, minimum output, version) and deriveEligibility in quotes.ts.
- Civil-date validation and canonical JSON in annual-reference.ts: dates arrive as years and start and maturity as parameters.
- `submittedAt` timestamps, simulation and the spending budget of a resumable step: they can only make a call fail.
- In the demo client, decimal parsing and formatting: a deposit arrives as its raw amount, multipliers as ratios.
- Non-integer arguments (NaN, fractions) of scheduler and amounts: the source refuses them before any state changes, or closes the scheduler.
