# Verified model of the BERT market maker and its depositor vault

A Dafny 4.11 model of the parts of the bot that hold other people's money or decide what happens to it, with proofs over
every input, every run and every failure the code allows for:

- **The vault's ledger and payout protocol.** The tables and every statement the store runs on them (`Ledger`,
  `DepositorStore`), share and token arithmetic (`ShareMath`), the value behind a share through a drain (`PoolValue`), the
  payout protocol as a transition system with faults, crashes and handlers running at every await (`PayoutProtocol`,
  `PayoutDestinations`, `PayoutLimits`), what each payout is computed from and what its settlement writes
  (`PayoutQuotes`), what the tables say of each row and payment (`PayoutRecords`), and the executor as imperative code
  proved to be exactly that protocol (`WithdrawalExecutor`).
- **Deposits.** The protocol from an inbound transfer to minted shares (`DepositProtocol`, `DepositOutcomes`, `DepositNav`), and the
  watcher, pipeline and recredit command as imperative code (`DepositPipeline`).
- **Whitelist cooldowns** (`Whitelist`, `Cooldowns`) and the **two-factor gate** (`RateLimiter`, `AccessGate`,
  `AccessLimits`, `Commands`).
- **The position's lifecycle.** `decide` and the bounded price history (`Strategy`), `executeRebalance` and its sizing
  (`Rebalancer`), runs of ticks (`PositionLifecycle`), the daily cap and the minimum interval (`DailyCap`, `RebalanceSpacing`), and the choice of bins for a partial
  close (`PartialClose`).

State that the source changes in place is a class whose methods are proved against functions on values; the theorems are
about those functions and about runs of them. `dafny verify dfyconfig.toml` checks the whole project.

## How the code and its own promises compare

Several things the code or its comments promise hold only under a condition. Each such condition is proved exact, and
a failing case is exhibited:

- The value per share never falls over a drain if and only if the wallet holds the reserve or the position is worth less
  than two lamports: SOL that refills the reserve is not NAV, and a partial close is asked for SOL only by a row that is
  short of it (`PoolValue.DrainNeverLowersNavIff`). A row raises it exactly when its fee and dust outweigh that SOL
  (`PoolValue.RowRaisesIff`).
- A partial close that frees exactly what it is asked for lets the row be paid if and only if the wallet held the reserve
  or the row was not short of SOL: below the reserve the freed SOL refills it first (`ShareMath.ShortfallCoversIff`).
- A withdrawal is paid at most once in every run if and only if the audit write in the handler of a failed mark-sent
  cannot throw (`PayoutLimits.PaidOnceIff`).
- A landed transfer is completed, alerted to the operator or still in hand, in every run in which the process does not die;
  dying between the transfer and the settlement leaves a payment with none of these
  (`PayoutRecords.EveryPaymentIsAccountedFor`, `PayoutRecords.DeathForgets`).
- A payout's destination was active when the handler read it. It reads it before it awaits the NAV, so it is active when
  the row is queued, whatever the tick does meanwhile, if and only if every pending change that could be applied last is to
  that address (`PayoutDestinations.QueuedWhileActiveIff`, `PayoutLimits.QueuedToReplacedAddress`).
- A credit keeps the value per share if and only if no stored snapshot is later than its timestamp or it is worth nothing.
  The pipeline stamps it with the time of the sweep, so a recredit made meanwhile can be later
  (`DepositNav.CreditKeepsNavIff`, `DepositNav.StaleCreditRun`).
- The latest snapshot is the last one written if and only if none is later. processOne stamps its snapshot with the clock
  it read before its awaits, so a credit made meanwhile can be later (`PayoutLimits.StaleSnapshotRun`).
- A recredit takes user and amounts from the newest detection and the signature from the newest sweep. These belong
  together in every run if and only if no transaction pays two deposit addresses (`DepositOutcomes.MintsFollowSweepsIff`).
  A duplicate recredit writes nothing, while a duplicate in the pipeline also writes a deposit_sweep_failed row. The comments
  in src/vault/depositPipeline.ts:47-55 and 178-183 say that an uncredited inflow is retried with whatever is left at the
  address; the code builds every sweep from the inflow's own amounts, so whether a retry lands is left to the environment.
- `verifyCode` reads the clock twice. No code is accepted twice if and only if no time step begins between the two reads
  (`AccessLimits.UsedOnceIff`); the recorded counters increase in any case.
- The daily cap and the minimum interval hold if and only if executions do not overlap, and the command line is a process
  of its own (`DailyCap.CapHoldsIff`, `RebalanceSpacing.SpacedIff`).
- Clearing the degraded flag is safe if and only if it is not the case that a position is live while none is stored
  (`PositionLifecycle.ClearingIsSafeIff`).
- Trimming the price history is harmless if and only if the kept samples outlast the sustained window
  (`Strategy.TrimmingIsSafeIff`).

## Assumptions

- A transfer or submit that throws moved nothing, a close lands only on a live position, and transaction fees are zero.
- A SQLite transaction happens wholly or not at all; row ids are positions in their table.
- The audit writes made inside error handlers and `setDegraded` succeed (for the payout protocol this is the configuration
  field `handlerAuditMayThrow`, and both cases are studied). Sending a notification never throws.
- The clock never goes back where a lemma says so, and only there.
- USD, prices and shares are exact reals; lamports and raw BERT are integers.
- Chat handlers run one at a time, as the polling loop awaits each; they interleave with the tick loop at its awaits.
- The deposit pipeline runs inside the tick, before the drain: while it is busy only a recredit mints or writes snapshots.
- The audit log is in insertion order. The recredit command's window over it is arbitrary, which covers its ordering by
  time, since detections and sweeps are stamped when written.

## Model

| member | source | states |
|---|---|---|
| ShareMath.SplitPaysWithinDust | src/vault/shareMath.ts:34-48 | the token split throws exactly when a price is not positive; otherwise it is worth at most the USD and less than one lamport plus one raw BERT below it |
| ShareMath.QuotePaysWithinDust | src/vault/withdrawalExecutor.ts:74-104 | every row's quote pays within that dust of what it owes, whatever the balances, position and shares |
| ShareMath.NoShortfallWithoutPosition | src/vault/withdrawalExecutor.ts:74-113 | with no LP position, net shares within the total are always covered by the wallet above the reserve |
| ShareMath.ShortfallWithinPosition | src/vault/withdrawalExecutor.ts:105-127 | what a drain asks the partial close for is worth at most the position |
| ShareMath.ClaimWithinTotal | src/vault/shareMath.ts:5-32 | a claim of at most all the shares is worth at most all the value |
| ShareMath.FreeWorth | src/vault/navSnapshot.ts:26-45 | total value is the worth of the spendable tokens plus the position, and the SOL fraction lies in 0..1 |
| ShareMath.FeeWithinBurned | src/vault/shareMath.ts:20-27 | a fee of 0..10000 bps lies between zero and the burned shares |
| ShareMath.WithdrawalShares | src/vault/commands.ts:843-848 | a withdrawal of an amount of USD burns shares worth exactly it, of which the fee is exactly feeBps ten-thousandths, so the net shares are worth the amount less that part of it |
| ShareMath.ShortfallCoversIff | src/vault/withdrawalExecutor.ts:114-127 | if the close frees exactly what it is asked for, the wallet covers the need afterwards iff it held the reserve or was not short of SOL |
| ShareMath.ShortfallIsNeeded | src/vault/withdrawalExecutor.ts:114-119 | freeing less of either token than the close is asked for never covers the need |
| PoolValue.CloseKeepsTotal | src/vault/withdrawalExecutor.ts:74-127 | a value-preserving partial close lowers NAV by exactly the SOL that refills the reserve, so it keeps it exactly when it frees no SOL or the wallet holds the reserve |
| PoolValue.PayLowersTotal | src/vault/withdrawalExecutor.ts:129-138 | a covered payout lowers the total by exactly its worth and leaves the reserve alone |
| PoolValue.NeedWithinClaim | src/vault/withdrawalExecutor.ts:74-104 | what a row needs is non-negative and worth at most its net shares at the current value per share |
| PoolValue.BurnMovesRatio | src/vault/shareMath.ts:5-32 | a payout and a burn keep (raise) value per share exactly when what else was lost is at most (less than) the fee's worth plus the payout's dust |
| PoolValue.PaidRow | src/vault/withdrawalExecutor.ts:74-138 | a row that pays lowers the total by its payout, at most its net claim, and by what refills the reserve |
| PoolValue.RowRaisesIff | src/vault/withdrawalExecutor.ts:60-207 | a completed row keeps (raises) the value per share exactly when what it leaves behind, fee and dust, is at least (more than) the SOL that refills the reserve |
| PoolValue.WorthlessPoolDoesNotRise | src/vault/shareMath.ts:5-32 | in a worthless pool a fee alone does not raise the value per share |
| PoolValue.AsksForNoSol | src/vault/withdrawalExecutor.ts:74-113 | below the reserve, with less than two lamports' worth in the position, no row asks the partial close for SOL |
| PoolValue.RefillLowersNav | src/vault/withdrawalExecutor.ts:105-127 | below the reserve, without BERT and with two lamports' worth in the position, a withdrawal of all shares is short, frees a lamport into the reserve, stays short, and its failure lowers the value per share |
| PoolValue.BertGoesFirst | src/vault/withdrawalExecutor.ts:60-207 | with BERT in the wallet, a fee-free withdrawal of exactly that much completes, leaves no BERT and keeps the value per share |
| PoolValue.DrainNeverLowersNavIff | src/vault/withdrawalExecutor.ts:36-207 | in every drain of completed and failed rows that leaves shares the value per share never falls, iff the wallet holds the reserve or the position is worth less than two lamports; and then a fee in a pool worth something raises it |
| PoolValue.UnburnedPayoutLowersNav | src/vault/withdrawalExecutor.ts:151-226 | a row paid but not burned lowers the value per share exactly when the payout was worth something or the reserve was refilled |
| Ledger.AddSharesEffect | src/vault/depositorStore.ts:107-130 | the total and the user's balance move by the delta, nobody else's balance moves |
| Ledger.IdsByStatusExact | src/vault/depositorStore.ts:224-228 | the listing holds exactly the rows of that status, each once, in id order |
| Ledger.SumBurnedUpdate | src/vault/depositorStore.ts:199-215 | rewriting a row moves the burned total by exactly that row's change |
| Ledger.SentIsRecordedOnce | src/vault/depositorStore.ts:188-197 | a signature is recorded exactly where there is none, changes nothing else, and is never overwritten |
| Ledger.RequeueEffect | src/vault/depositorStore.ts:240-267 | a requeue succeeds exactly for a failed row without a signature; the row keeps its claim and looks newly queued, no other row and no other table changes |
| Ledger.LatestIsNewest | src/vault/depositorStore.ts:369-376 | the latest snapshot is a stored one that none is newer than |
| Ledger.UpsertShape | src/vault/depositorStore.ts:360-368 | a snapshot replaces the one with its timestamp or is appended |
| Ledger.UpsertLatest | src/vault/depositorStore.ts:360-376 | timestamps stay distinct, and the snapshot just written is the latest exactly when none is newer |
| Ledger.CreditEffect | src/vault/creditEngine.ts:26-69 | a credit succeeds exactly for a positive NAV and an uncredited signature; the depositor's balance, and nobody else's, grows by the deposit's USD value over the NAV, as do the total and what was minted to that user |
| Ledger.DepositUsdIsWorth | src/vault/creditEngine.ts:27-29 | a deposit's USD value is the worth of its SOL and BERT at the mid prices |
| DepositorStore.Store.GetShares | src/vault/depositorStore.ts:107-111 | the user's balance, zero without a row |
| DepositorStore.Store.AddShares | src/vault/depositorStore.ts:113-123 | updates or inserts the user's row and no other |
| DepositorStore.Store.TotalShares | src/vault/depositorStore.ts:125-130 | the sum of all balances |
| DepositorStore.Store.EnqueueWithdrawal | src/vault/depositorStore.ts:161-171 | appends a queued row without a signature |
| DepositorStore.Store.SetWithdrawalProcessing | src/vault/depositorStore.ts:173-180 | only a queued row becomes processing |
| DepositorStore.Store.MarkWithdrawalSent | src/vault/depositorStore.ts:188-197 | records a signature only where there is none, and throws otherwise |
| DepositorStore.Store.CompleteWithdrawal | src/vault/depositorStore.ts:199-215 | completes the row and burns its shares whatever its status |
| DepositorStore.Store.FailWithdrawal | src/vault/depositorStore.ts:217-222 | marks the row failed and keeps its signature |
| DepositorStore.Store.RequeueFailedWithdrawal | src/vault/depositorStore.ts:240-267 | requeues only a failed row without a signature |
| DepositorStore.Store.ListWithdrawalsByStatus | src/vault/depositorStore.ts:224-228 | the ids with that status in order |
| DepositorStore.Store.HasDeposit | src/vault/depositorStore.ts:149-153 | whether the signature has a deposit row |
| DepositorStore.Store.CreditDeposit | src/vault/depositorStore.ts:132-147 | inserts and mints to the depositor (whose balance grows is `Ledger.CreditEffect`), or throws without a trace on a known signature |
| DepositorStore.Store.InsertNavSnapshot | src/vault/depositorStore.ts:360-368 | inserts or overwrites by timestamp |
| DepositorStore.Store.LatestNavSnapshot | src/vault/depositorStore.ts:369-376 | the snapshot with the newest timestamp |
| DepositorStore.Store.SettleWithdrawal | src/vault/withdrawalExecutor.ts:180-207 | completion, snapshot and audit in one transaction, or nothing (what the snapshot holds is `PayoutQuotes.SettlementWritesTheRest`) |
| DepositorStore.Store.Credit | src/vault/creditEngine.ts:26-69 | deposit, mint, snapshot and audit in one transaction, or nothing |
| DepositorStore.Store.GetNavPerShare | src/main.ts:306-313 | the latest snapshot's value over the live shares |
| DepositorStore.Store.RunBootstrap | src/cli/vault-bootstrap.ts:33-72 | one share per dollar to the operator of an empty vault, refused otherwise |
| PayoutProtocol.NextKeepsInv | src/vault/withdrawalExecutor.ts:36-226 | every step of drain, handler, operator or crash keeps the protocol's invariants |
| PayoutProtocol.RunKeepsInv | src/vault/withdrawalExecutor.ts:36-226 | so does every run |
| PayoutProtocol.PaidAtMostOnce | src/vault/withdrawalExecutor.ts:129-226 | each withdrawal has at most one landed transfer; queued and failed rows were never paid; a signature is that of the row's transfer and only on processing or completed rows |
| PayoutProtocol.SharesConserved | src/vault/depositorStore.ts:113-215 | over every run each user's balance is their bootstrap share plus what their deposits minted minus what their completed rows burned, so is the total, and each row is burned exactly once iff completed |
| PayoutProtocol.TransfersCovered | src/vault/withdrawalExecutor.ts:105-138 | every transfer sends at most the SOL above the reserve and the BERT in the balances read last, within dust of the debt its quote states, to the row's destination |
| PayoutQuotes.TransfersPayTheNetShares | src/vault/withdrawalExecutor.ts:74-104 | over every run each landed transfer owes exactly the net shares of its own row at a value per share that, times the live shares read then, is the worth of the spendable tokens plus the position read for it, and pays within dust of that |
| PayoutQuotes.TransfersFollowThePool | src/vault/withdrawalExecutor.ts:74-138 | over every run each landed transfer's amounts and value per share are those the pool model computes from what was read, so `PoolValue` is about these transfers |
| PayoutQuotes.RunKeepsQuotes | src/vault/withdrawalExecutor.ts:74-197 | every run keeps each quote in hand, each transfer and each completed row tied to the claim of its own row |
| PayoutQuotes.CompletedRowsRecordPayments | src/vault/withdrawalExecutor.ts:184-191 | over every run a completed row records the signature, amounts and value per share of its own transfer |
| PayoutQuotes.SettlementWritesTheRest | src/vault/withdrawalExecutor.ts:174-199 | the value a settlement writes plus the USD it owed is all shares before the burn at the row's value per share |
| PayoutQuotes.SettlementKeepsTheFee | src/vault/withdrawalExecutor.ts:174-199 | after a settlement whose snapshot is the latest, readers see at least the row's value per share, and exactly it iff the row left no fee |
| PayoutQuotes.SettlementBurns | src/vault/depositorStore.ts:199-215 | a settlement lowers the total shares by exactly the burned shares, fee included |
| PayoutRecords.RowsAreRecorded | src/vault/depositorStore.ts:161-257 | over every run a row's columns agree with its status (a requeued row looks like a fresh one), and each completed row has the audit row with its owner, signature, claim, debt and value per share |
| PayoutRecords.EveryPaymentIsAccountedFor | src/vault/withdrawalExecutor.ts:151-226 | as long as the process does not die, each landed transfer's row is completed, or an audit row names its id and signature, or the drain is between the transfer and the settlement |
| PayoutRecords.DeathForgets | src/vault/withdrawalExecutor.ts:151-178 | dying just then leaves the payment without any of these |
| PayoutRecords.FailuresSayWhy | src/vault/withdrawalExecutor.ts:47-150 | no price, a wallet still short, a throwing transfer and an escaped error each fail exactly the row in hand, unpaid, with their own reason and time; the transfer's also leaves an audit row |
| PayoutRecords.DrainGoesOn | src/vault/withdrawalExecutor.ts:36-58 | a drain ends exactly when every listed row was taken; an error that escapes it leaves the rest queued for the next drain |
| PayoutRecords.QueuedAsAsked | src/vault/commands.ts:815-851 | a request queues one row with the shares and fee asked for, to the address active at the read |
| PayoutRecords.RequeueIsLogged | src/vault/operatorCommands.ts:109-151 | a requeue goes through exactly for a failed row without a signature, keeps its claim and everybody's shares, and logs the operator |
| PayoutRecords.SettlementSnapshot | src/vault/withdrawalExecutor.ts:192-198 | the snapshot a settlement writes carries the clock the row read first, its value per share and the live shares after the burn |
| PayoutProtocol.LatestSnapshotIsLive | src/vault/withdrawalExecutor.ts:180-197 | the last snapshot written holds the live share total, and is the latest exactly when none stored is later, in particular while written timestamps never go back, collisions included |
| PayoutProtocol.SettleIsLatestIff | src/vault/withdrawalExecutor.ts:180-197 | after a settlement its snapshot is the latest exactly when none is later than the clock the row read first |
| PayoutProtocol.PayoutsGoToReadAddress | src/vault/commands.ts:815-851 | every payout goes to an address that was the user's active one when the handler read it |
| PayoutDestinations.QueuedWhileActiveIff | src/vault/commands.ts:815-851 | whatever the tick does until the row is queued, it goes to an address active at the queueing, iff at the read every pending change that an activation could apply last is to that address |
| PayoutDestinations.ActivateKeeps | src/vault/cooldowns.ts:42-56 | under that condition an activation leaves both the address and the condition in place |
| PayoutProtocol.RunProgresses | src/vault/depositorStore.ts:173-256 | in every continuation rows and claims stay, a recorded signature is never cleared, a completed row stays completed, transfers stay |
| PayoutLimits.DoublePayIfHandlerAuditThrows | src/vault/withdrawalExecutor.ts:36-58 | if the audit write after a failed mark-sent may throw, some run whose clock never goes back pays one withdrawal twice |
| PayoutLimits.PaidOnceIff | src/vault/withdrawalExecutor.ts:151-178 | no run whose clock never goes back pays a withdrawal twice iff that audit write cannot throw |
| PayoutLimits.QueuedToReplacedAddress | src/vault/commands.ts:815-851 | some run whose clock never goes back queues a row to an address that is no longer active |
| PayoutLimits.StaleSnapshotRun | src/vault/withdrawalExecutor.ts:60-197 | some run whose clock never goes back settles under an older timestamp than a credit made meanwhile, so the latest snapshot is not the last written |
| PayoutLimits.CompletingTwiceUnbalances | src/vault/depositorStore.ts:199-215 | a second completion burns again, so the balance rests on the protocol |
| WithdrawalExecutor.ExecRowIsRun | src/vault/withdrawalExecutor.ts:60-226 | every execution of a row, whatever the environment answers, is a run of the protocol |
| WithdrawalExecutor.RowEnds | src/vault/withdrawalExecutor.ts:36-226 | a row the drain takes is never left in the middle: it ends failed and unpaid, or paid |
| WithdrawalExecutor.DrainIsRun | src/vault/withdrawalExecutor.ts:36-58 | a whole drain is a run that takes every row it listed |
| WithdrawalExecutor.Executor.Handle | src/vault/operatorCommands.ts:109-151 | a handler between two steps does what the protocol's handler step does |
| WithdrawalExecutor.Executor.RunHandlers | src/vault/commands.ts:815-851 | so does any sequence of handlers |
| WithdrawalExecutor.Executor.AskOracle | src/vault/withdrawalExecutor.ts:60-73 | the oracle read, failing the row when there is no price |
| WithdrawalExecutor.Executor.QuoteRow | src/vault/withdrawalExecutor.ts:74-113 | balances, NAV, the net shares' debt and the need of the row, what they were computed from, and whether the wallet covers it |
| WithdrawalExecutor.Executor.FreeLiquidity | src/vault/withdrawalExecutor.ts:114-119 | the partial close is asked for exactly what the wallet lacks of each token |
| WithdrawalExecutor.Executor.Reread | src/vault/withdrawalExecutor.ts:120-128 | balances read again, failing the row that is still short |
| WithdrawalExecutor.Executor.SendTransfer | src/vault/withdrawalExecutor.ts:129-150 | the transfer, or a failed row and an audit row |
| WithdrawalExecutor.Executor.MarkSent | src/vault/withdrawalExecutor.ts:151-178 | the signature is recorded, or a sync failure audited and the row left processing |
| WithdrawalExecutor.Executor.Settle | src/vault/withdrawalExecutor.ts:180-226 | the burning transaction, or a sync failure audited and the error raised |
| WithdrawalExecutor.Executor.ProcessOne | src/vault/withdrawalExecutor.ts:60-226 | the whole row, ending between rows or with an escaping error, and keeping the invariants |
| WithdrawalExecutor.Executor.Catch | src/vault/withdrawalExecutor.ts:40-57 | an escaped error fails the row only if it shows no signature |
| WithdrawalExecutor.Executor.Drain | src/vault/withdrawalExecutor.ts:36-58 | the vault is what running every queued row gives, all rows done, invariants kept |
| Whitelist.DueIdsExact | src/vault/depositorStore.ts:324-330 | the due list holds exactly the pending rows that are due, each once, by activation time |
| Whitelist.ActivateDueRows | src/vault/cooldowns.ts:42-56 | every due row becomes activated, no other changes, none stays due |
| Whitelist.ActivateDueLeavesLatest | src/vault/cooldowns.ts:42-56 | an affected user ends with the latest-activating due address |
| Whitelist.ActivateDueLeavesOthers | src/vault/cooldowns.ts:42-56 | a user without due rows keeps their address |
| Whitelist.RunKeepsInv | src/vault/cooldowns.ts:13-63 | over every run: active addresses come from activated rows, rows only move on, what took effect stays logged |
| Whitelist.CooldownsHold | src/vault/cooldowns.ts:13-63 | every address after a user's first was requested at least the cooldown before it took effect, and no cancelled row took effect |
| Whitelist.RequestTakesEffect | src/vault/cooldowns.ts:13-56 | a first address takes effect at once; a later one leaves the active address alone and can be activated exactly from the cooldown on; nobody else is affected |
| Whitelist.CancelledNeverTakesEffect | src/vault/cooldowns.ts:58-63 | whatever happens after a cancellation, the cancelled row is never applied |
| Cooldowns.Cooldowns.RequestChange | src/vault/cooldowns.ts:13-40 | first address at once, later ones pending, an error for an unknown user |
| Cooldowns.Cooldowns.ListDue | src/vault/depositorStore.ts:324-330 | the due rows by activation time |
| Cooldowns.Cooldowns.ActivateDue | src/vault/cooldowns.ts:42-56 | applies the due rows in order |
| Cooldowns.Cooldowns.CancelPending | src/vault/cooldowns.ts:58-63 | cancels the most recently requested pending row, or finds none |
| DepositProtocol.NextKeepsInv | src/vault/depositPipeline.ts:60-218 | every step of pipeline, recredit and the rest of the bot keeps the deposit invariants |
| DepositProtocol.RunKeepsInv | src/vault/depositPipeline.ts:60-218 | so does every run |
| DepositProtocol.ScanExact | src/vault/operatorCommands.ts:213-263 | the scan recovers a deposit exactly when a detection and a sweep of the signature are among the rows looked at, with user and amounts of the newest detection and signature and confirmation of the newest sweep |
| DepositOutcomes.MintedAtMostOnce | src/vault/depositPipeline.ts:60-206 | one deposit row and one credited row per signature, each credited row after a detection of its user and amounts and a sweep under its sweep signature; the shares minted, at the value per share the row names, are worth what the tokens are worth at its prices |
| DepositOutcomes.DuplicateChangesNothing | src/vault/operatorCommands.ts:203-211 | on a credited signature a recredit changes nothing at all, and the pipeline only adds a failure row to the audit |
| DepositOutcomes.RecreditIsLogged | src/vault/operatorCommands.ts:284-336 | a recredit mints exactly when there is a price, a positive value per share and no deposit of the signature; it then logs operator and user behind the credit's row, and otherwise changes no table |
| DepositOutcomes.PaidTwoWays | src/vault/operatorCommands.ts:213-263 | for every transaction that pays two users or amounts there is a run whose recredit mints to the wrong one |
| DepositOutcomes.MintsFollowSweepsIff | src/vault/operatorCommands.ts:213-314 | every mint, recredits included, goes to the user and amounts of the sweep it names, in every run, iff no transaction pays two ways |
| DepositNav.CreditsKeepNav | src/vault/creditEngine.ts:26-56 | in every run whose snapshot timestamps never go back and whose pool has shares, each credit uses the value per share current at that moment, raises the latest value by exactly the deposit's USD value and leaves value per share unchanged |
| DepositNav.RunKeepsNav | src/vault/depositPipeline.ts:185-206 | the value per share the pipeline has read stays the current one while recredits run |
| DepositNav.CreditKeepsNavIff | src/vault/creditEngine.ts:26-56 | a credit at the current value per share never raises it, and keeps it iff no stored snapshot is later than its timestamp or it is worth nothing |
| DepositNav.StaleCreditRun | src/vault/depositPipeline.ts:157-200 | a run whose clock never goes back in which a recredit lands between a sweep and its credit, and the credit lowers the value per share |
| DepositPipeline.InflowIsRun | src/vault/depositPipeline.ts:60-218 | however the environment answers, handling an inflow is a run of the protocol |
| DepositPipeline.SmoothInflowMints | src/vault/depositPipeline.ts:60-206 | an undisturbed inflow appends exactly its deposit row and gives its user, and nobody else, its USD value over the NAV in shares, or, when credited before or worthless, touches only the audit |
| DepositPipeline.FailedInflowLogs | src/vault/depositPipeline.ts:60-206 | an undisturbed inflow that fails changes nothing but the audit, to which it adds exactly its detection and the rows of the stage at which it failed |
| DepositPipeline.FirstsAreDistinct | src/vault/depositWatcher.ts:37-45 | the merged list holds the first entry of every signature, once |
| DepositPipeline.MergeSignatures | src/vault/depositWatcher.ts:37-45 | the loop with the seen set computes that list |
| DepositPipeline.Pipeline.ScanAudit | src/vault/operatorCommands.ts:213-263 | the newest-first scan finds the newest detection and the newest sweep of the signature |
| DepositPipeline.Pipeline.BeginRecredit | src/vault/operatorCommands.ts:203-263 | refuses a credited signature, otherwise recovers it from the audit |
| DepositPipeline.Pipeline.FinishRecredit | src/vault/operatorCommands.ts:284-336 | credits at the snapshot value per share and audits, or does nothing |
| DepositPipeline.Pipeline.CreditSwept | src/vault/depositPipeline.ts:174-206 | oracle, value per share and credit after a landed sweep, with every failure branch |
| DepositPipeline.Pipeline.Sweep | src/vault/depositPipeline.ts:101-172 | secrets, build, submit and the swept row, with every failure branch |
| DepositPipeline.Pipeline.OnInflow | src/vault/depositPipeline.ts:60-206 | the whole pipeline equals the protocol's steps, and which errors escape |
| DepositPipeline.Pipeline.PollOne | src/vault/depositWatcher.ts:47-60 | one signature is skipped or reported, and never un-credited |
| DepositPipeline.Pipeline.PollAddress | src/vault/depositWatcher.ts:27-61 | reports distinct, successful, uncredited, non-zero inflows, and without an escaping error every such one is reported or credited |
| RateLimiter.PrunedTripsExactly | src/vault/rateLimiter.ts:42-63 | with a clock that never goes back a failure trips exactly when the unpruned log holds threshold entries within the window |
| RateLimiter.RunRefines | src/vault/rateLimiter.ts:42-63 | every later pruning of the stored list equals pruning the full log |
| RateLimiter.FailTracks | src/vault/rateLimiter.ts:42-54 | within an interval no longer than window and lockout, a rejection stays listed or locks past its end |
| RateLimiter.LockoutLasts | src/vault/rateLimiter.ts:27-54 | a failure that trips locks the user out for exactly lockoutMs and starts the count afresh |
| RateLimiter.TotpRateLimiter.IsLockedOut | src/vault/rateLimiter.ts:27-34 | reports a lock in force and drops an expired one, for this user only |
| RateLimiter.TotpRateLimiter.RecordFailure | src/vault/rateLimiter.ts:42-54 | prunes, adds and trips for this user only |
| RateLimiter.TotpRateLimiter.RecordSuccess | src/vault/rateLimiter.ts:60-63 | clears this user only |
| AccessGate.ActionsAreAuthorised | src/vault/commands.ts:153-205 | every reveal, withdrawal and whitelist action is authorised while not locked and within the unlock time of an earlier success of that user |
| AccessGate.CountersIncrease | src/vault/totp.ts:37-53 | within one secret the recorded counters strictly increase, setup included |
| AccessGate.RunKeepsCounters | src/vault/enrollment.ts:35-77 | an unconfirmed secret has no accepted code, and no accepted counter exceeds the stored one |
| AccessGate.CodeDecides | src/vault/commands.ts:153-205 | a code that verifies authorises exactly the awaited action and unlocks for exactly five minutes from then; one that does not is recorded and authorises nothing |
| AccessGate.ActionsWereAsked | src/vault/commands.ts:305-385 | over every run each authorised action is one the user asked for by a command or entered |
| AccessGate.ResetRevokes | src/vault/operatorCommands.ts:346-371 | after a reset no command does anything and no code is accepted |
| AccessGate.CancelForgets | src/vault/uiCallbacks.ts:69-72 | after a cancel, a declined disclaimer or a restart the next message does nothing |
| AccessGate.RestartLocks | src/vault/commands.ts:107-118 | a restart ends every unlock: the next command waits for a code |
| AccessGate.ButtonsLeadOn | src/vault/uiCallbacks.ts:50-66 | an amount or address entered after its button is acted on when unlocked and awaits a code otherwise; an address does nothing before enrolment |
| AccessGate.AskingLeadsOn | src/vault/commands.ts:603-627 | a withdrawal without an amount asks for one, which is then acted on when unlocked and awaits a code otherwise |
| AccessGate.AcceptHandsOutASecret | src/vault/commands.ts:272-295 | accepting the disclaimer hands out a secret no code was ever accepted under, unconfirmed, with five fresh tries, unless the token account fails |
| AccessGate.ConfirmEnrols | src/vault/commands.ts:387-432 | the code that confirms a setup enrols, clears both failure counts and unlocks nothing |
| AccessGate.SetupFailuresStayBelow | src/vault/commands.ts:433-445 | over every run a setup in progress has seen fewer failures than end it |
| AccessLimits.UsedOnceIff | src/vault/totp.ts:26-53 | no time step's code is accepted twice, in any run whose clock never goes back, iff the clock stays in one step between a verification's two reads |
| AccessLimits.ReplayIsAccepted | src/vault/totp.ts:37-53 | for every pair of reads that straddles a step there is a run, its clock never going back, that accepts a code twice |
| AccessLimits.GuessesAreBounded | src/vault/commands.ts:387-432 | in any half-open interval within window and lockout and without a success, at most (1 + restarts in it) times threshold codes are evaluated and rejected, setup and runtime together |
| AccessLimits.BoundIsReached | src/vault/rateLimiter.ts:9-11 | that many are reached, for every number of restarts, by a run whose clock never goes back |
| AccessLimits.SetupEndsAtTheFifth | src/vault/commands.ts:433-445 | wrong codes at setup are tolerated up to the fifth, which ends the setup |
| Commands.CommandHandlers.HandleCommand | src/vault/commands.ts:305-326 | a privileged command of an enrolled user who is not locked out is done when unlocked and asks for a code otherwise; nobody else is affected |
| Commands.CommandHandlers.HandleAskAmount | src/vault/commands.ts:603-627 | a withdrawal without an amount waits for one |
| Commands.CommandHandlers.HandleAccount | src/vault/commands.ts:235-263 | a newcomer gets the disclaimer, an unconfirmed user a new secret |
| Commands.CommandHandlers.HandleAccept | src/vault/commands.ts:272-295 | only a pending disclaimer creates the user and a secret |
| Commands.CommandHandlers.HandleDecline | src/vault/commands.ts:298-302 | drops the pending action and the setup failures |
| Commands.CommandHandlers.SetPendingEntry | src/vault/uiCallbacks.ts:50-66 | the buttons await an amount or an address |
| Commands.CommandHandlers.CancelPending | src/vault/uiCallbacks.ts:69-72 | the cancel button drops the pending action |
| Commands.CommandHandlers.HandleResetTotp | src/vault/operatorCommands.ts:346-371 | wipes secret, enrolment and counter |
| Commands.CommandHandlers.RespondTotpSetupConfirm | src/vault/commands.ts:387-445 | confirms, or counts the failure for setup and lockout alike |
| Commands.CommandHandlers.RespondWithCode | src/vault/commands.ts:153-189 | verifies under the lockout, stores the counter, unlocks and authorises, or records the failure |
| Commands.CommandHandlers.HandleMessage | src/vault/commands.ts:333-385 | dispatches on the pending action after the lockout check |
| Commands.CommandHandlers.Handle | src/vault/commands.ts:235-385 | any chat event moves its user as the gate's step says and nobody else |
| Commands.CommandHandlers.Restart | src/vault/commands.ts:107-118 | a restart keeps only what the database holds |
| Commands.CommandHandlers.HandleAll | src/vault/commands.ts:107-470 | any sequence of users' events and restarts leaves every user where that user's own events lead; with a clock that never goes back all actions are authorised, counters increase and guesses are bounded |
| Commands.UserGuarantees | src/vault/commands.ts:107-470 | those guarantees, for every user of every such sequence |
| Strategy.RebalancesIff | src/strategy.ts:12-62 | a rebalance is decided exactly when nothing blocks it and all samples of the sustained window, enough of them, are out of range |
| Strategy.DecisionsExact | src/strategy.ts:12-62 | each kind of decision exactly: paused when blocked, rebalanced to the current price when drifted, an alert alone when drifted too soon or capped, held otherwise |
| Strategy.KeptDecidesTheSame | src/main.ts:547-550 | with spaced samples and a window shorter than the kept span, trimmed and full history decide alike |
| Strategy.TrimmingIsSafeIff | src/strategy.ts:31-38 | trimming never changes a decision iff sustainedMinutes*60 < 120*pollIntervalSec |
| Strategy.PriceHistory.Push | src/main.ts:547-550 | the kept samples are the newest 120 of all pushed |
| Rebalancer.ValueIsWorth | src/rebalancer.ts:212-214 | the value a position is sized by is the worth of its tokens at the mid prices |
| Rebalancer.OpenWithinCap | src/rebalancer.ts:205-218 | opening amounts stay within wallet BERT and SOL above the floor, and their value within a raw unit of each below min(usable, maxPositionUsd) |
| Rebalancer.OpenKeepsTheMix | src/rebalancer.ts:205-218 | the amounts keep the wallet's mix of tokens to less than a raw unit of either, and a wallet worth no more than the cap goes in whole |
| Rebalancer.BreakerTripsIff | src/rebalancer.ts:32-55 | for a positive entry value and a returned quote the breaker stops the execution iff BERT out at the effective price plus SOL out at mid is below the entry value less maxDrawdownPct percent, and then only the degraded flag changes |
| Rebalancer.BreakerIsMonotone | src/rebalancer.ts:43-45 | a quote worth no more than one that trips trips too |
| Rebalancer.BreakerElsewhere | src/rebalancer.ts:32-65 | without a position or an entry value the breaker never trips, and a quote that throws stops the execution and changes nothing |
| Rebalancer.HalfDoneIsDegraded | src/rebalancer.ts:67-316 | an execution that does not get past the close leaves chain, position and log alone; one that does succeeds, or fails and leaves the bot degraded |
| Rebalancer.DryRunTouchesNothing | src/rebalancer.ts:94-285 | a dry run leaves chain, position and log alone and does not depend on the balances re-read or the writes that only a real run makes |
| Rebalancer.RangeHoldsThePrice | src/rebalancer.ts:124-128 | the new range holds the price, is symmetric about it and rangeWidthPct percent of it wide |
| Rebalancer.FreshRangeHolds | src/strategy.ts:24-30 | a position just opened is neither moved nor alerted about while the price stays |
| Rebalancer.Rebalancer.GetRebalancesToday | src/stateStore.ts:168-175 | the rows of the UTC day |
| Rebalancer.Rebalancer.LastRebalanceAt | src/stateStore.ts:177-180 | the newest timestamp in the log |
| Rebalancer.Rebalancer.CheckDrawdown | src/rebalancer.ts:32-65 | skips on a tripped (`Rebalancer.BreakerTripsIff`) or unknown drawdown, degraded only when tripped |
| Rebalancer.Rebalancer.SizePosition | src/rebalancer.ts:205-218 | the scaled and floored amounts |
| Rebalancer.Rebalancer.Persist | src/rebalancer.ts:270-305 | stores position and log row, or rolls the open back and degrades |
| Rebalancer.Rebalancer.ExecuteRebalance | src/rebalancer.ts:22-316 | chain, stored position, log, flag and result by the stage at which the execution ends; what is opened is around the mid price with the amounts of the balances read last |
| PositionLifecycle.OneLivePosition | src/main.ts:563-635 | over every run of ticks with any throws, at most one position is live, and a non-dry OK means the stored mint is the one live mint |
| PositionLifecycle.TickKeepsInv | src/main.ts:563-635 | a tick keeps at most one live position and never overlooks one |
| PositionLifecycle.GuardsStopTheTick | src/main.ts:563-594 | the kill switch and the degraded flag stop the initial open and every rebalance, as do a missing price and an unreadable position |
| PositionLifecycle.ActsOnTheStoredPosition | src/main.ts:594-635 | otherwise a bot without a stored position opens one, and a position is moved only as the stored mint |
| PositionLifecycle.MovesIff | src/main.ts:575-635 | a readable stored position is moved exactly when price and recent samples lie outside the range just read, every logged rebalance is the minimum interval old and the day's rows are below the cap, with the range and value just read |
| PositionLifecycle.OrphanIff | src/rebalancer.ts:286-305 | a live position other than the stored one is left exactly when neither storing nor rolling back succeeded |
| PositionLifecycle.ClearingIsSafeIff | src/cli/clear-degraded.ts:26-27 | after clearing the flag no run of ticks has two live positions iff not (live and none stored) |
| PositionLifecycle.SecondPositionOpens | src/main.ts:594-610 | with a live position and none stored, a healthy tick opens a second |
| PositionLifecycle.OverlookedIsReachable | src/rebalancer.ts:286-305 | that case arises from an initial open that can neither be stored nor rolled back |
| PositionLifecycle.RunTick | src/main.ts:545-635 | the tick's guards and calls, on the trimmed history |
| RebalanceSpacing.SpacedIff | src/strategy.ts:40-46 | in every run with at most n executions at once, each rebalance chosen by decide is logged at least the minimum interval after all logged before it, iff n is one |
| RebalanceSpacing.CrossingIsClose | src/cli/force-rebalance.ts:25-41 | a command that starts and logs during a decided rebalance breaks the spacing |
| RebalanceSpacing.TickIsDecidedStart | src/main.ts:575-635 | a tick that rebalances a stored position starts clear of every logged row, and logs its own start or nothing |
| DailyCap.RowsPerDay | src/rebalancer.ts:67-72 | with at most m executions at once no UTC day holds more than cap + m - 1 rows |
| DailyCap.WorstIsReached | src/rebalancer.ts:67-72 | and that many are reached |
| DailyCap.CapHoldsIff | src/stateStore.ts:168-175 | the cap holds in every run iff executions do not overlap |
| DailyCap.ExecutionIsCheckThenEnd | src/rebalancer.ts:280-285 | an execution by any caller logs what one check and one record or abort log |
| PartialClose.SortedOrdered | src/meteoraClient.ts:378-383 | each side is a permutation of its bins, nearest to the active bin first |
| PartialClose.ChosenCovers | src/meteoraClient.ts:397-416 | a side's choice covers the need and would not without its farthest bin, or is the whole side |
| PartialClose.ChosenEmpty | src/meteoraClient.ts:397-416 | nothing is chosen exactly when nothing is needed or the side is empty |
| PartialClose.RangeIsChosen | src/meteoraClient.ts:424-439 | the range lies strictly on its side and holds exactly the chosen bins of the position |
| PartialClose.RangeDrainsCollected | src/meteoraClient.ts:397-439 | removing all liquidity in the range takes out exactly what the loop collected |
| PartialClose.RangesAreApart | src/meteoraClient.ts:424-439 | no range holds the active bin and the two ranges do not meet |
| PartialClose.PlanFails | src/meteoraClient.ts:418-422 | it throws exactly when each side is not needed or empty |
| PartialClose.PlanServes | src/meteoraClient.ts:385-439 | a token has a range exactly when it is needed and its side has bins; the range lies on that side, frees of its own token at least the need or holds the whole side, frees less than the need without its farthest bin, and leaves out no nearer bin |
| PartialClose.MirrorPlan | src/meteoraClient.ts:385-395 | swapping token order and mirroring bin ids mirrors the plan |
| PartialClose.Collect | src/meteoraClient.ts:397-416 | the greedy loop takes the shortest prefix that meets the need, or all |
| PartialClose.BuildRanges | src/meteoraClient.ts:371-439 | filter, sort, both loops and both ranges compute the plan |

## Left out

- Solana RPC, the venue clients apart from the choice of bins, Jito, price fetchers, Telegram transport, notifier, keyboards, logging and config parsing: each is an answer of the environment.
- AES-GCM, HMAC, QR codes and address validity: whether a code matches a time step is the environment's answer.
- IEEE rounding: USD and shares are exact reals.
- Non-negative balances: queueing reserves nothing and completion burns unconditionally, so `PoolValue` takes burned within the total as a hypothesis.
- Equality of swept and credited SOL: the sweep keeps a rent reserve while the credit counts the whole inflow.
- Daily and queue-depth withdrawal caps: the custom-amount path does not check them.
- computeDeltas: the watcher's SOL and BERT deltas of a transaction are part of the environment's answer.
- Other writers beside the pipeline: in `DepositPipeline` only the recredit command runs at the awaits; `DepositProtocol` also lets any step that leaves deposits alone happen.
- The swap to equal parts in a rebalance, and dry-run amounts: neither changes stored state; a swap shows only in the balances read after it.
- force-rebalance and collect-fees in runs of ticks: they call executeRebalance without the tick's guards; they are covered by the daily cap, not by `PositionLifecycle.OneLivePosition`.
- computeTrustedMid, the order of the vault's helpers in a tick, reports, pool monitor and scripts: single expressions, call sequences or one-off tools without state of their own.
- What a position holds: a partial close may free any SOL and BERT up to the position's value on the sides a row is short of.
