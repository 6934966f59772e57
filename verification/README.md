# AcceptXMR payment tracking, verified

A Dafny model of the payment-tracking engine of AcceptXMR, a library that accepts monero
payments: the scanner that keeps every invoice in step with a moving, reorganising blockchain and
a changing transaction pool by small incremental repairs, the two caches it repairs, the store and
the publisher it writes to, and the cache of subaddresses that invoices are handed from. It is
proved that, over every run of scans, new invoices and removed invoices, the increments add up to
a batch computation: after every scan, what an invoice holds is what going once through the whole
believed chain since its creation, and once through the pool transactions that were scanned while
the store answered for its subaddress, would give. It is also proved exactly when that is the whole
pool, and what scans that fail on the way leave behind.

`dafny verify dfyconfig.toml` checks the project.

## How it is laid out

| module | what it models |
|---|---|
| `Common`, `Indexes` | options, results and orders; subaddress indexes and invoice ids |
| `Daemons`, `Rpc` | one snapshot of the daemon; fetching blocks and transactions from it |
| `Transfers`, `Invoices` | transfers, the fold of their amounts and heights, invoices and their equality |
| `Stores` | the in-memory store |
| `BlockCaches`, `TxpoolCaches` | the sliding window of blocks; the memo over the pool |
| `Payments`, `Scanning` | what transactions pay, and what scanning them reports |
| `ScanModel` | a scan, a failed scan, one new and one removed invoice as steps on values; the invariant; runs |
| `ScanTheory`, `Memo` | one scan computes the batch result; the memo is what scanning again would give |
| `Runs`, `Pool`, `Money` | the main results over all runs |
| `FailedScans`, `Restart` | what failed scans and restarts leave behind, and exactly when that matters |
| `Instances` | small concrete runs in which the shortfalls occur, and one in which they do not |
| `LiveScans` | scans that run while invoices are created and removed |
| `Scanners` | the scanner as a class whose `Scan` is proved to be a step of `ScanModel` |
| `PubSub` | the publisher |
| `SubaddressCaches` | the cache of free subaddresses |
| `Gateways` | the payment gateway: create, look up, remove, scan |
| `Interleaving`, `InterleavingTheory` | the lock regions of address handling as atomic steps of a concurrent machine |
| `Authentication` | splitting a digest challenge |

The code that works in place is modelled by classes and loops; each method is proved against a
function or a relation on values, and the main results are lemmas about those. A `State` of
`ScanModel` holds, next to the scanner's own data, three ghost parts: `chain`, all blocks the
scanner has come to believe, of which the block cache is the last `size`; `view`, the chain as the
store knows it, with the block that was last scanned at each height; and `met`, the ids that were
stored when a known pool transaction was scanned. As long as no scan fails, `view` is `chain`
(`Runs.ViewIsChain`). A pool transaction counts for a subaddress exactly if the store answered for
the subaddress when it was scanned (`Seen`).

## Assumptions

- A scan sees one snapshot of the daemon. It may fail after the daemon's height was asked, or after
  the block cache was updated, at any point of the pool's update or of the scanning; it does not
  fail in the middle of a repair.
- Block ids are collision-free (`SameIdSameBlock`); pool transactions can be fetched.
- What a transaction pays is what the scan reports: every owned output of a transaction without a
  time lock counts with the amount of the first owned output (src/scanner.rs:372). Statements about
  the true amounts of outputs need at most one owned output per transaction.
- The set of outputs the key checker recognises does not change over time for a tracked subaddress.
- The creation height of an invoice is at least 1; the scanner subtracts 1 from it
  (src/scanner.rs:163). A daemon has at least one block, so the reported height is.
- Amounts and heights are unbounded naturals; sums of transfers and heights are taken to fit in 64
  bits. Subaddress indexes are 32 bits wide, and their limit is modelled.

## Where the code does less than it seems to

- The first scan after a restart scans the whole window but drops old transfers only from the
  blocks that changed. It is right for an invoice if and only if the invoice is stored without a
  transfer in a block of the coming window that the daemon gives no reason to replace
  (`FirstScanExact`); otherwise exactly those payments are credited twice (`FirstScanTransfers`, an
  instance in `RestartCountsTwice`).
- A pool transaction that was known at start-up, or that arrived while no stored id was at or above
  the subaddress, is credited only when it is mined (`CreditedIff`, `NeverCredited`, an instance in
  `StartUpPoolMissed`).
- A scan that fails after the block cache was updated loses the number of changed blocks. Later scans
  repair exactly the blocks that they fetch or scan again (`StaleAfterFailure`, `StaleAfterScan`).
  Until then payments of unscanned blocks are missing and those of replaced blocks stay
  (`LostAndKept`). What was new in the pool is lost if and only if the scan failed between knowing
  it and having scanned it, that is, if it could not be read; if the failure was in the blocks, or
  before, the next scan credits it (`ArrivalLostIff`). In the run `FailureAfterRepair` the payment of
  a replaced block stays and an arrival is lost.
- So a scan leaves an invoice with the payments of the whole chain and the whole pool if and only if
  every stale block that it leaves alone pays to the invoice what the store thinks, and every known
  transaction that pays to it was scanned while the store answered for its subaddress (`RightIff`).
- The creation height is the last height that the daemon reported, which can be at or below the cache.
  The new invoice is sound if and only if no block from there on that was scanned already pays to it
  (`CreateKeepsInvIff`, an instance in `CreatedBelowCache`).
- If an invoice is inserted after a scan found the store empty and before the cache jumps to the tip,
  the blocks since its creation below the new window are never scanned (`SkippedIff`, an instance in
  `InsertedBeforeJump`).
- An invoice that was stored but never scanned has current height 0. The scanner then does not
  start again over the store: it computes the height below 0 (src/scanner.rs:52,
  `UnscannedBlocksStart`, `Start`).
- The number that `skip_ahead` returns covers every replaced block if and only if one block was
  missing, or so many that the whole window is new, or the old tip is still on the daemon's chain
  (`SkipCountCoversIff`, an instance in `SkipCountFallsShort`).
- Once a closed sender is met, all later senders are removed too, open or not. All open senders
  stay registered if and only if none comes after a closed one (`OpenSendersKeptIff`).
- The in-memory `contains_sub_index` answers for any stored id at or above the key, although the
  trait promises an answer for the subaddress (`ContainsSubIndexExactness`). The scanner is right
  nevertheless, because it compares indexes again when it credits an invoice.
- At start-up the greatest used index is taken over all accounts. With a stored index of a later
  account, an index in use can be left ungenerated and be handed out again (`StartUpCoversIff`,
  `StartUpMisses`). A restart allots every index to one place if and only if the stored invoices
  belong to the account, show their own addresses and share no subaddress (`RestartAllottedIff`).
  With one hundred of them it can leave no address free (`StartUpFreeIff`, `StartUpFull`).
- The scanner saves updates after it gave up the read lock. If the id was removed and issued again
  in between, at the same height and with the same subaddress, the update puts the contents of the
  removed invoice over the new one (`SaveIsCurrentIff`, `StaleUpdateOverwrites`).
- An update of an invoice that was removed in the meantime changes nothing in the store, but is still
  sent to the subscribers of all invoices (`GoneIsAnnounced`).
- The documentation of `extend_by` speaks of account 1 and that of `Transfer` of sums per height;
  the code uses the configured account, and one transfer per owned output. The model follows the
  code.

## Model

| member | source | states |
|---|---|---|
| `Runs.RunInvariant` | src/scanner.rs:89-222 | Over every run of scans, failed scans, new and removed invoices from a consistent start, every state is consistent and after every scan each invoice's transfers are, as a multiset, the payments to its subaddress since creation in the chain as the store knows it, plus what the pool transactions scanned for it pay; its total is their sum, its paid height that of the mined ones, and its height the cache height plus one. |
| `Runs.EveryScanIsBatch` | src/scanner.rs:118-194 | In a run without failed scans that is the batch result over the whole believed chain. |
| `Runs.ViewIsChain` | src/scanner.rs:94-116 | Until a scan fails, the store knows exactly the believed chain. |
| `Runs.FailKeepsInv` | src/scanner.rs:94-116 | A scan that fails after the caches moved leaves every invoice consistent with what the store knows. |
| `Runs.ScanComputesBatch` | src/scanner.rs:118-215 | One scan of a consistent state, with advance, reorganisation, pool change or skipped refold, leaves every invoice with the batch result, on unchanged terms, and the state consistent. |
| `Runs.ScanRefreshes` | src/scanner.rs:128-194 | The same for one invoice: retaining, re-adding and refolding gives the batch result. |
| `Runs.CreateKeepsInvIff` | src/payment_gateway.rs:272-315 | Creating an invoice at the reported daemon height keeps the invariant if and only if no block that was scanned already pays to it. |
| `Runs.CreatedAbove` | src/payment_gateway.rs:288-299 | There is none if the reported height is above the cache. |
| `Runs.UnfetchedKeepsInv` | src/caching/block_cache.rs:102-110 | A scan that fails after storing the daemon's height and before fetching a block changes only that height. |
| `Runs.UnchangedIff` | src/caching/block_cache.rs:105-131 | Which blocks of the coming window count as changed can be told before the scan: those that are not the daemon's, if there is a new block. |
| `Runs.RemoveKeepsInv` | src/payment_gateway.rs:324-352 | Removing an invoice keeps the invariant for all others. |
| `Runs.HistoryIndependence` | src/invoice.rs:340-363 | Two runs that end with a scan, with the same blocks shown to the store and the same payments seen in the pool, agree, under invoice equality, on every invoice of the same terms, whatever reorganisations or failures lay in between. |
| `Runs.BelievesDaemon` | src/caching/block_cache.rs:99-134 | If the daemon's chain is the believed one below the window, a scan that fetched a block leaves the believed chain equal to the daemon's. |
| `Runs.PaidHeightExact` | src/scanner.rs:176-188 | At every moment of a run transfers are sorted by height with the pool last, and for a positive request the paid height is the least height at which the mined payments reach it; there is none while only the pool reaches it. |
| `Runs.PaidHeightStays` | src/scanner.rs:150-188 | While the blocks up to its paid height stay, an invoice keeps its paid height. |
| `Runs.PaidHeightBelieved` | src/scanner.rs:176-188 | A paid height lies between creation and the cache height, and the invoice is then paid in full. |
| `Runs.PaidStaysPaid` | src/invoice.rs:99-111 | Along a run in which the store is shown no other block up to the paid height, that height stays, confirmations never fall, a confirmed invoice stays confirmed, and it is never expired. |
| `Runs.StatusExact` | src/invoice.rs:99-111 | Over every run, after a scan an invoice with a positive request that was created on some terms and is tracked since is on those terms. It is expired if and only if the known chain has reached its expiration height and its mined payments do not reach the request; it has zero confirmations if and only if only the pool makes the payments reach it, and `c` if and only if the block `c` below the height is the first up to which the mined ones do; it is confirmed if and only if those mined as many blocks ago as it requires reach it. |
| `Runs.ExpiredExactly` | src/invoice.rs:108-111 | When an invoice that is up to date is expired, for any request: one of nothing is met by any mined payment. |
| `Runs.ConfirmationsExactly` | src/invoice.rs:228-236 | How many confirmations an invoice that is up to date has, told from its payments. |
| `Runs.ConfirmedExactly` | src/invoice.rs:99-103 | When an invoice that is up to date is confirmed, told from its payments. |
| `Runs.TermsStay` | src/scanner.rs:148-173 | An invoice that stays tracked through any part of a run keeps its terms. |
| `Runs.StepKeepsTerms` | src/scanner.rs:148-173 | No step changes the terms of a tracked invoice or lowers its current height. |
| `Runs.CatchUp` | src/caching/block_cache.rs:99-134 | With the daemon fixed, every scan fetches the one next missing block until the tip is reached, after exactly as many scans as blocks were missing; then no block changes and the count is 0. |
| `Runs.CaughtUpIsExact` | src/scanner.rs:89-222 | If the believed chain agrees with a fixed daemon below the window and the store is not behind, then once the missing blocks are fetched every invoice is the batch result over the daemon's own chain, even if the window held a fork. |
| `ScanTheory.RefreshIsBatch` | src/scanner.rs:148-193 | A rescan of a consistent invoice gives the batch result, if no transfer lies in a block that is scanned below the deepest change. |
| `ScanTheory.RebuiltIsBatchIff` | src/scanner.rs:150-168 | The rebuilt transfers are the batch list if and only if no old transfer lies in a block that is scanned below the deepest change. |
| `ScanTheory.RebuiltTransfers` | src/scanner.rs:150-168 | The rebuilt transfers are what the store knew below the deepest change, what the scanned blocks pay since creation, and what the seen pool transactions pay. |
| `ScanTheory.RefreshTransfers` | src/scanner.rs:150-193 | Whatever the overlap, the refreshed invoice holds the batch list and, once more, the payments of the overlap, and its total says so. |
| `ScanTheory.RebuiltSorted` | src/scanner.rs:150-168 | Retaining, appending block reports oldest first and then the pool keeps the transfers sorted by height. |
| `ScanTheory.MinedPaidHeight` | src/scanner.rs:176-188 | The stored paid height is the one of the mined payments, in any order inside a block. |
| `ScanTheory.OverlayMined` | src/scanner.rs:256-289 | Scanning the blocks from a height on leaves what the store knew below it and the payments of those blocks. |
| `Memo.MemoIsSeen` | src/scanner.rs:297-342 | What the memo holds for a subaddress is exactly what the transactions scanned for it pay to it: nothing is invented and nothing of a seen transaction is lost. |
| `Memo.MemoAt` | src/scanner.rs:360-380 | Of each known transaction the memo holds all payments to a subaddress if the store answered for it when the transaction was scanned, and none otherwise. |
| `Memo.PoolSeenIff` | src/scanner.rs:297-342 | The memo holds what the whole pool pays to a subaddress if and only if every transaction that pays to it was scanned while the store answered for it. |
| `Memo.MemoSurvivesFailure` | src/caching/txpool_cache.rs:49-60 | However far the memo got in a failed scan, it stays exact. |
| `Pool.ArrivalIsMet` | src/scanner.rs:93-116 | A transaction that is new to a scan is scanned for the stored invoices if the scan succeeds or fails in the blocks, for nobody if it fails on the arrivals, and is still new if it fails before. |
| `Pool.CreditedIff` | src/scanner.rs:363-380 | For as long as it stays, a transaction that became known in a scan, failed or not, has its payments to a subaddress in the memo if and only if that scan scanned it and the store held an id at or above the subaddress then. |
| `Pool.MetOrigin` | src/caching/txpool_cache.rs:31-61 | There are no other transactions: each known one was known at the start or became known in one step of the run, which decided whom it was scanned for. |
| `Pool.ArrivalLostIff` | src/scanner.rs:93-116 | After the next successful scan a stored invoice has the payments of a transaction that was new to a failed scan if and only if the failed scan did not get to know it without scanning it. |
| `Pool.StoredIsCredited` | src/scanner.rs:363-380 | In particular, an invoice that was stored when the transaction was scanned is credited. |
| `Pool.NeverCredited` | src/caching/txpool_cache.rs:16-27 | A known transaction that was scanned for nobody, like all that were there at start-up, is credited to nobody while it stays. |
| `Pool.PoolScanIsRescan` | src/caching/txpool_cache.rs:31-76 | Over every run, every scan of the pool returns what scanning all known transactions again would, each for the invoices stored when it arrived. |
| `Pool.MemoisedRun` | src/caching/txpool_cache.rs:31-76 | Over a fixed set of invoices and without failed scans, every scan of the pool returns what scanning all transactions that arrived since start-up and are still there would return. |
| `Pool.StaysKnown` | src/caching/txpool_cache.rs:49-58 | A transaction stays known, and scanned for the same invoices, for as long as every step that asks finds it in the pool. |
| `Pool.ScannedOncePerStay` | src/caching/txpool_cache.rs:36-58 | Between a step in which a transaction becomes known and another to which it is new, some step found it gone. |
| `Money.MoneyConserved` | src/scanner.rs:118-188 | After every scan of a run, the amounts paid of all invoices add up to the payments, at or after creation to tracked subaddresses, of the blocks shown to the store and of the pool transactions as far as they were scanned for the subaddress, each counted once. |
| `Money.WholePoolShortfall` | src/scanner.rs:118-188 | Compared with everything the whole pool pays, exactly the payments of transactions that were not scanned for the subaddress are missing. |
| `Money.MemoIsPoolCredits` | src/scanner.rs:297-342 | The memo is what the known pool transactions pay, as far as the store answered for the subaddress when they were scanned. |
| `Money.EachTransactionOnce` | src/scanner.rs:118-188 | If no transaction is in two blocks or in a block and in the pool, the total is a sum over distinct transactions. |
| `Money.CreditedSplit` | src/scanner.rs:158-168 | With distinct subaddresses each payment is credited to at most one invoice. |
| `Money.UpToDateTotal` | src/scanner.rs:176-188 | Conservation for one state in which all invoices are up to date. |
| `Restart.FirstScanTransfers` | src/scanner.rs:253-292 | After a first scan an invoice holds the batch list and, once more, the payments of the window's blocks below the deepest change. |
| `Restart.FirstScanExact` | src/scanner.rs:130-156 | Told before the scan: a first scan is right for an invoice if and only if it is stored without a transfer in a block of the coming window that the daemon gives no reason to replace. |
| `Restart.FirstScanOverlapIff` | src/scanner.rs:130-156 | The same by what the scan did: without a transfer in a block of the window that did not change. |
| `Restart.RestartIff` | src/scanner.rs:39-86 | Over the store that a run left behind, start-up is consistent if and only if the daemon's chain below the stored height pays to every invoice what the store knows. |
| `Instances.RestartCountsTwice` | src/scanner.rs:256-259 | A gateway that restarts with a payment of 5 in its newest block credits 10 after its first scan. |
| `Instances.RestartScans` | src/scanner.rs:89-222 | Such a first scan exists. |
| `Instances.StartUpPoolMissed` | src/caching/txpool_cache.rs:16-27 | A run in which a transaction that was in the pool at start-up pays to a stored invoice and is not credited. |
| `Instances.FailureAfterRepair` | src/scanner.rs:94-156 | A run in which a scan fails after repairing a fork: the next scan keeps the payment of the dropped block and does not credit the one that arrived in the pool. |
| `Instances.CreatedBelowCache` | src/payment_gateway.rs:288-299 | An invoice created at a reported height below the cache, of which a scanned block pays to it. |
| `Instances.InsertedBeforeJump` | src/scanner.rs:226-236 | A run in which an invoice is inserted after the store was found empty, the cache jumps over the block that pays to it, and the finished scan leaves it with nothing. |
| `Instances.SettledRun` | src/scanner.rs:175-193 | A run from a consistent start, in which a later scan of the same daemon leaves the paid invoice as it is. |
| `FailedScans.RightIff` | src/scanner.rs:89-222 | Told before the scan: in any run, failures included, a scan leaves an invoice with the payments of the whole believed chain since creation and of the whole pool if and only if every stale block that it leaves alone pays to it what the store thinks, and every known pool transaction that pays to it was scanned while the store answered for it. |
| `FailedScans.RightNow` | src/scanner.rs:89-222 | The same by what is stale and unscanned after the scan. |
| `FailedScans.LostAndKept` | src/scanner.rs:150-168 | Whatever failed before, what an invoice lacks after a scan is what the chain pays below the scanned blocks, and what it has instead is what the store knew there. |
| `FailedScans.StaleAfterFailure` | src/scanner.rs:94-116 | A failed scan makes stale exactly the blocks of the new window that are not what the store knows, if there is a new block; everywhere else nothing changes. |
| `FailedScans.StaleAfterScan` | src/scanner.rs:256-289 | A successful scan repairs exactly the blocks it fetches or scans again, which can be told before; stale blocks that it leaves alone stay stale. |
| `FailedScans.SamePaymentsIff` | src/scanner.rs:150-168 | The store's chain and the believed one pay the same since creation if and only if they do at every stale height. |
| `LiveScans.LiveRun` | src/payment_gateway.rs:272-352 | With invoices created and removed at any moment between testing, reporting, collecting and saving, every state is consistent; when a scan finishes, every invoice that was stored at the collection and not inserted again since is up to date on its terms, and every later one is as it was inserted or, exactly if an update of an earlier invoice with its id was still to be saved then, has that invoice's terms and batch result. |
| `LiveScans.SkippedIff` | src/scanner.rs:226-236 | For an invoice inserted between the test for an empty store and the jump, the store is shown what the chain pays to it if and only if the blocks since its creation below the new window pay nothing. |
| `LiveScans.FinishKeeps` | src/scanner.rs:197-221 | What a finished scan leaves in settled and in late invoices. |
| `LiveScans.AllSettled` | src/scanner.rs:130-215 | If nothing was inserted since the collection, all stored invoices are up to date when the scan finishes. |
| `LiveScans.CollectKeeps` | src/scanner.rs:130-194 | The updates worked out from the store as it is at the collection are batch results, also for invoices created after the report. |
| `LiveScans.SaveKeeps` | src/scanner.rs:197-204 | Saving an update over whatever is stored by then keeps every other invoice and leaves the overwritten one consistent. |
| `Scanners.Scanner.constructor` | src/scanner.rs:68-86 | The scanner starts below a given height with the daemon's blocks and pool, nothing of it scanned. |
| `Scanners.Scanner.Start` | src/scanner.rs:39-86 | Scanning resumes at the lowest height of a stored invoice or at the tip; there is a scanner if and only if that height fills the window and is not above the daemon's. |
| `Scanners.UnscannedBlocksStart` | src/scanner.rs:49-53 | A stored invoice that was never scanned makes that height 0. |
| `Scanners.Scanner.Scan` | src/scanner.rs:89-222 | A scan succeeds if and only if all it will scan can be read. Then it is a scan step of the model and announces each changed invoice exactly once, as stored, and no other. If not, it is a failed step, store and publisher stay as they are, and the error names the first unreadable output of the lowest unreadable block, or of the arrivals if all blocks can be read. |
| `Scanners.ScanReadableIff` | src/scanner.rs:93-116 | Whether all that a scan looks at can be read is told by the state and the daemon before it. |
| `Scanners.WillScanIff` | src/scanner.rs:253-259 | So is which blocks are scanned and what they hold. |
| `Scanners.Scanner.ScanCaches` | src/scanner.rs:93-116 | The first half of it succeeds if and only if every scanned block and every arrival can be read. |
| `Scanners.Scanner.UpdateInvoices` | src/scanner.rs:128-215 | The second half refreshes every stored invoice and saves and announces those that change. |
| `Scanners.Scanner.UpdateBlockCache` | src/scanner.rs:226-236 | The window advances by one block, or skips to the tip if nothing is tracked, and still shows the believed chain. |
| `Scanners.Scanner.UpdateCaches` | src/scanner.rs:224-243 | Both caches move to the snapshot; the count and the arrivals are what the rest of the scan needs. |
| `Scanners.Scanner.ScanBlocks` | src/scanner.rs:249-292 | Reports, sorted by height, exactly the credits of the newest blocks, or of the whole window on the first scan; fails exactly if one of those blocks cannot be read. |
| `Scanners.Scanner.ScanTxpool` | src/scanner.rs:297-342 | Returns the memo extended by the report of the arrivals, and remembers it; fails, changing nothing, exactly if an arrival cannot be read. |
| `Scanners.Scanner.RefreshInvoice` | src/scanner.rs:148-193 | An invoice counts as changed exactly if the rebuilt one is not equal to the old one, and then it is the refolded one. |
| `Scanners.Scanner.RetainBelow` | src/scanner.rs:151-155 | Keeps exactly the mined transfers below the deepest change, in order. |
| `Scanners.Scanner.Select` | src/scanner.rs:158-168 | Picks exactly the credits to the subaddress that are in the pool or mined at or after creation, in order. |
| `Scanners.Scanner.Fold` | src/scanner.rs:176-188 | The total, and on sorted transfers the paid height. |
| `Scanners.Scanner.CollectUpdates` | src/scanner.rs:131-194 | Collects the refreshed value of every invoice that changes, each once. |
| `Scanners.Scanner.SaveUpdates` | src/scanner.rs:197-215 | Saves the updates in order without adding an invoice, and announces every one of them. |
| `Scanners.OverwrittenAt` | src/scanner.rs:197-204 | Saving changes no key, and only the invoices that have an update. |
| `Scanners.GoneIsAnnounced` | src/scanner.rs:204-214 | An update of an invoice that is no longer stored changes nothing in the store and is still sent to the subscribers of all invoices. |
| `Scanners.SavedRefresh` | src/scanner.rs:131-204 | Saving the collected updates leaves every invoice refreshed, and an invoice has an update exactly if that changes it. |
| `Scanners.PoolScanned` | src/scanner.rs:316-336 | New and remembered keys of the memo never collide, so extending one by the other is the model's pool step. |
| `Scanners.NextBlockCredits` | src/scanner.rs:264-289 | Appending the report of the next block, in any order of its transactions, keeps the list sorted and complete. |
| `Scanners.AdvancedWindow` | src/caching/block_cache.rs:99-134 | Advancing the window changes the believed chain in its newest `n` blocks and in no other. |
| `Scanning.ScanTransactions` | src/scanner.rs:344-385 | Of transactions with distinct hashes, what is reported under a hash is one entry for each output to a subaddress the store answers for, with the amount of the first owned output, and nothing for a time-locked transaction. It fails exactly if a reportable transaction's first owned output is blinded, and blames the first reportable output of the first such transaction. |
| `Scanning.ReportedExactly` | src/scanner.rs:360-384 | The report under the hash of a transaction, entry by entry, told from its outputs. |
| `Payments.TxPaysExactly` | src/scanner.rs:360-380 | A transaction without a time lock pays as many transfers to a subaddress as it has outputs there, each with the amount of its first owned output; one with a time lock pays nothing. |
| `Payments.SingleOutputPays` | src/scanner.rs:360-380 | A transaction with one owned output pays its true amount to its subaddress and nothing to any other. |
| `Payments.BlockPaysAll` | src/scanner.rs:264-289 | A block pays what each of its transactions pays, in order. |
| `Payments.OwnedAmountsExact` | src/scanner.rs:374-380 | How often an entry is in the report of one transaction: once for each output to its subaddress if the store answers for that, and never with another amount. |
| `Payments.ChainCreditsFor` | src/scanner.rs:158-168 | Restricted to one invoice, the report of a stretch of blocks is what these pay to its subaddress since creation, although the store's test over-reports. |
| `Payments.ReportedFor` | src/scanner.rs:360-380 | Restricted to one subaddress, the report of one transaction is its payments there. |
| `Payments.ByHashFlat` | src/scanner.rs:376-384 | Gathering the report under transaction hashes loses and invents nothing. |
| `Payments.ForPermutation` | src/scanner.rs:158-168 | What an invoice is credited does not depend on the order of hash-map entries. |
| `BlockCaches.BlockCache.constructor` | src/caching/block_cache.rs:22-56 | The window is filled with the daemon's newest blocks below the initial height. |
| `BlockCaches.BlockCache.Update` | src/caching/block_cache.rs:99-134 | With a new block, the whole linked window ends equal to the daemon's, the replaced entries are one run just under the tip, and the count is that run plus the tip; without one nothing changes and the count is 0. |
| `BlockCaches.BlockCache.SkipAhead` | src/caching/block_cache.rs:60-95 | From any gap, when behind, the window ends at the tip with consecutive heights and every entry the daemon's, although heights are not consecutive midway; the count is the larger of the pushed and the repaired blocks. |
| `BlockCaches.BlockCache.CheckAndFixReorg` | src/caching/block_cache.rs:137-153 | The loop computes `Repair`, and does nothing to a linked window. |
| `BlockCaches.RepairRestores` | src/caching/block_cache.rs:137-153 | Repairing replaces exactly the entries that are not the daemon's, and they are one run under the fetched ones. |
| `BlockCaches.UpdateRepairs` | src/caching/block_cache.rs:105-131 | Pushing the tip and repairing gives the daemon's window, with a count below which every entry is an old one. |
| `BlockCaches.SkipRepairs` | src/caching/block_cache.rs:69-91 | Pushing the missing blocks, or as many as fit, and repairing gives the daemon's window. |
| `BlockCaches.SkipCountCoversIff` | src/caching/block_cache.rs:60-95 | The returned count covers every replaced entry if and only if one block was missing, or enough to fill the window, or the old tip is still on the daemon's chain. |
| `BlockCaches.SkipCountFallsShort` | src/caching/block_cache.rs:60-95 | A forked window two blocks behind in which three entries change and the count is 2. |
| `BlockCaches.RepairLinked` | src/caching/block_cache.rs:142-143 | A linked window is left alone. |
| `TxpoolCaches.TxpoolCache.constructor` | src/caching/txpool_cache.rs:16-27 | The pool at start-up counts as seen and has no transfers. |
| `TxpoolCaches.TxpoolCache.Update` | src/caching/txpool_cache.rs:31-61 | Returns every pool transaction that was not known, once, and forgets what left the pool. |
| `TxpoolCaches.TxpoolCache.NewHashes` | src/caching/txpool_cache.rs:38-43 | The unknown hashes of the pool, each once. |
| `TxpoolCaches.TxpoolCache.InsertTransfers` | src/caching/txpool_cache.rs:67-76 | The memo is extended. |
| `TxpoolCaches.FiledArrivals` | src/caching/txpool_cache.rs:49-58 | What was kept and what arrived are together exactly the pool's transactions. |
| `Transfers.PaidFoldMeaning` | src/scanner.rs:176-188 | On sorted transfers the fold finds the least height at which the mined total reaches the request, or none. |
| `Transfers.PaidHeightIsLeast` | src/scanner.rs:176-188 | For a positive request that is the least of all heights, not only of transfer heights. |
| `Transfers.PaidHeightUnique` | src/scanner.rs:176-188 | There is at most one paid height. |
| `Transfers.SamePaidHeight` | src/scanner.rs:176-188 | The paid height does not depend on the order of transfers or on the pool. |
| `Transfers.PaidHeightKept` | src/scanner.rs:176-188 | Lists that agree up to one's paid height have the same paid height. |
| `Transfers.SumPermutation` | src/scanner.rs:181-182 | The total does not depend on the order. |
| `Transfers.SumConcat` | src/scanner.rs:181-182 | One transfer counts with its amount, and the totals of lists add up. |
| `Transfers.BelowCount` | src/invoice.rs:488-499 | Comparing with a height keeps exactly the mined transfers below it. |
| `Invoices.NewInvoice` | src/invoice.rs:43-69 | A new invoice holds the totals of its empty transfer list. |
| `Invoices.Equals` | src/invoice.rs:340-363 | Two invoices are equal exactly if their transfers are permutations of each other and all other fields agree. |
| `Invoices.Invoice.TermsAre` | src/invoice.rs:340-363 | The terms of an invoice are all its fields except the four that a scan works out. |
| `Invoices.CountTransfers` | src/invoice.rs:342-349 | The counting map holds the multiplicity of every transfer. |
| `Invoices.SkippedRefold` | src/scanner.rs:175-193 | An invoice skipped as equal already stores the totals that a refold would produce. |
| `Indexes.SubIndexOrder` | src/invoice.rs:429-437 | Subaddress indexes are totally ordered, by account and inside an account by position. |
| `Indexes.InvoiceIdOrder` | src/invoice.rs:388-396 | Invoice ids are totally ordered, by subaddress and for one subaddress by creation height. |
| `Stores.InMemory.Insert` | src/storage/stores/in_memory.rs:32-38 | Adds the invoice under its id, or fails and changes nothing if the id is taken. |
| `Stores.InMemory.Remove` | src/storage/stores/in_memory.rs:40-42 | Removes and returns what was stored. |
| `Stores.InMemory.Update` | src/storage/stores/in_memory.rs:44-49 | Overwrites a stored invoice; a missing id is not added. |
| `Stores.InMemory.Get` | src/storage/stores/in_memory.rs:51-53 | An invoice is found if and only if one with the id is stored, and what is found is the one with that id. |
| `Stores.InMemory.ContainsSubIndex` | src/storage/stores/in_memory.rs:55-61 | True exactly if some stored id is at or above the least id of the subaddress. |
| `Stores.ContainsSubIndexExactness` | src/storage/stores/in_memory.rs:55-61 | The test never misses a tracked subaddress, and is exact unless the subaddress is untracked while one at or above it is tracked. |
| `Stores.ContainsSubIndexOverReports` | src/storage/stores/in_memory.rs:55-61 | An untracked subaddress that is reported as tracked. |
| `Stores.InMemory.IsEmpty` | src/storage/mod.rs:102-104 | True exactly if nothing is stored. |
| `Stores.InMemory.LowestHeight` | src/storage/mod.rs:81-94 | The least current height of any stored invoice. |
| `SubaddressCaches.SubaddressCache.constructor` | src/caching/subaddress_cache.rs:31-90 | The free addresses are exactly the unused ones among at least 100 generated ones, and with the used positions they make up all of them. |
| `SubaddressCaches.SubaddressCache.Greatest` | src/caching/subaddress_cache.rs:50-59 | The greatest used index, account first. |
| `SubaddressCaches.SubaddressCache.RetainUnused` | src/caching/subaddress_cache.rs:75-75 | Keeps exactly the unused addresses. |
| `SubaddressCaches.SubaddressCache.RemoveRandom` | src/caching/subaddress_cache.rs:92-107 | Whatever position is picked, exactly that address leaves, new ones come only after the old ones ran low, and the retry branch is unreachable; if all addresses were generated by the cache, at least 100 remain unless the account is exhausted. |
| `SubaddressCaches.SubaddressCache.Insert` | src/caching/subaddress_cache.rs:109-111 | Puts any address back, over the one with the same index if there is one, and returns that one. |
| `SubaddressCaches.SubaddressCache.ExtendBy` | src/caching/subaddress_cache.rs:124-146 | Inserts the next addresses, exactly as many as asked or as there is room for; they go to the end if all others were generated by the cache. |
| `SubaddressCaches.GenerateRange` | src/caching/subaddress_cache.rs:154-181 | The consecutive addresses of the first account up to the bound, or up to the greatest index if the bound is in a later account. |
| `SubaddressCaches.RangeMember` | src/caching/subaddress_cache.rs:154-181 | A range holds every index between its ends with its own address, and nothing else. |
| `SubaddressCaches.StartUpCoversIff` | src/caching/subaddress_cache.rs:50-65 | Start-up generates all stored indexes of its account if and only if the greatest of them is below 100 or not above the position of the greatest stored index of any account. |
| `SubaddressCaches.StartUpMisses` | src/caching/subaddress_cache.rs:50-65 | Two stored indexes with which an index in use is not generated. |
| `SubaddressCaches.StartUpFreeIff` | src/caching/subaddress_cache.rs:62-75 | Start-up leaves no address free if and only if the used positions of the account number all generated ones; with fewer than 100 stored invoices one is left. |
| `SubaddressCaches.StartUpFull` | src/caching/subaddress_cache.rs:62-75 | One hundred stored invoices with which none is left. |
| `SubaddressCaches.FreeCount` | src/caching/subaddress_cache.rs:66-75 | The free addresses and the used positions add up to the generated indexes. |
| `Gateways.RestartAllottedIff` | src/caching/subaddress_cache.rs:31-90 | A restart leaves every generated index in exactly one place if and only if the stored invoices belong to the account, show their own addresses and share no subaddress. |
| `InterleavingTheory.RunHolders` | src/payment_gateway.rs:281-343 | In every interleaving of the lock regions, the free indexes, those of stored invoices and those in flight are pairwise disjoint and together are exactly the generated ones. |
| `InterleavingTheory.StepKeepsHolders` | src/payment_gateway.rs:281-343 | Each lock region keeps that, and moves an index as the region says. |
| `InterleavingTheory.InterleavingSafety` | src/payment_gateway.rs:281-343 | No insertion finds its id stored, no returned address is already free, no two live invoices share a subaddress, every invoice shows its own address. |
| `InterleavingTheory.AlwaysStocked` | src/caching/subaddress_cache.rs:92-107 | In every interleaving at least 100 addresses are free at every moment until the account is exhausted, so a thread always finds one to take. |
| `InterleavingTheory.TakeStocks` | src/caching/subaddress_cache.rs:92-107 | However few addresses were free, enough are after one was taken. |
| `InterleavingTheory.OnlyInsertAdds` | src/scanner.rs:197-204 | A removed invoice comes back only if its id is inserted again: saving a late update never brings it back. |
| `InterleavingTheory.IssueTells` | src/payment_gateway.rs:302-304 | The number of the insertion that occupies an id tells whether the id was inserted again. |
| `InterleavingTheory.SaveIsCurrentIff` | src/scanner.rs:132-204 | A saved update belongs to the invoice that now has the id if and only if the id was not inserted again since the update was worked out. |
| `InterleavingTheory.StaleUpdateOverwrites` | src/scanner.rs:197-204 | From every idle state with a stored invoice there is a run in which an update of a removed invoice ends up over a new one with the same id. |
| `Gateways.PaymentGateway.constructor` | src/payment_gateway.rs:106-140 | A gateway over any store on which the scanner starts; it is sound if and only if the stored invoices agree with the daemon's chain, hold nothing inside the window and can be taken over by the account. |
| `Gateways.PaymentGateway.GetInvoice` | src/payment_gateway.rs:394-401 | What is found is the stored invoice; after a successful scan it is the batch result for its id. It has the address of its subaddress, its total is the sum of its transfers, and its paid height is the one of its mined transfers. |
| `Gateways.PaymentGateway.NewInvoice` | src/payment_gateway.rs:272-315 | Never fails with a duplicate; the new invoice is stored on the given terms at the reported height, with the address of a subaddress that was free and that no other invoice has, and can be subscribed to, while all other subscribers stay; enough addresses stay free for the next one; the gateway stays sound if and only if no scanned block pays to the invoice already. Seen as a machine, it takes an address and then inserts the invoice. |
| `Gateways.PaymentGateway.RemoveInvoice` | src/payment_gateway.rs:324-352 | Returns the stored invoice, if any, frees its subaddress and drops its subscribers and no others; the number of free addresses says so. Seen as a machine, it takes the invoice out and then returns the address. |
| `Gateways.PaymentGateway.Scan` | src/scanner.rs:89-222 | Succeeds if and only if every arrival and every block that will be scanned can be read, which can be told before. Then it is a scan step of the model: every invoice is up to date with what was scanned, the updates are exactly the invoices that changed, each once and as stored, they are announced, and money is conserved. Otherwise it is a failed step, and store and publisher stay as they are. The gateway stays sound either way, and the new cache and daemon heights are told. |
| `Gateways.CreateIsTwoRegions` | src/payment_gateway.rs:281-304 | What creating an invoice does to the free addresses and the store is a step that takes an address followed by one that inserts the invoice, as in the interleaving machine. |
| `Gateways.RemoveIsTwoRegions` | src/payment_gateway.rs:324-343 | What removing one does is a step that takes it out of the store followed by one that returns its address. |
| `Gateways.AllottedIsHeld` | src/payment_gateway.rs:281-343 | Wherever the gateway stands, the conditions of the interleaving results are met. |
| `PubSub.Publisher.SendUpdates` | src/pubsub.rs:142-181 | Terminates and attempts one delivery to each sender registered for the invoice, in front, and one to each sender registered for all invoices, behind, as often as it is registered and to nobody else; keeps of both lists what comes before the first closed sender and touches no other list. |
| `PubSub.Publisher.SendTo` | src/pubsub.rs:143-161 | One fan-out loop: attempts to reach the senders in `SendOrder`, keeps those before the first closed one, touches no other list. |
| `PubSub.Publisher.RemoveSender` | src/pubsub.rs:211-229 | Removes the sender and moves the last one into the gap. |
| `PubSub.Publisher.GetSenderByIndex` | src/pubsub.rs:183-206 | The sender at a position, if there is one. |
| `PubSub.Publisher.InsertInvoice` | src/pubsub.rs:121-130 | An invoice starts without subscribers; earlier ones are dropped. |
| `PubSub.Publisher.RemoveInvoice` | src/pubsub.rs:132-140 | Drops the subscribers of an invoice. |
| `PubSub.Publisher.Subscribe` | src/pubsub.rs:99-109 | Registers at the end, if the invoice is known. |
| `PubSub.Publisher.SubscribeAll` | src/pubsub.rs:111-119 | Registers at the end. |
| `PubSub.RoundsMeaning` | src/pubsub.rs:142-161 | The loop with swap-removal reaches the senders up to the first closed one in order and the rest backwards, and keeps those before the first closed one. |
| `PubSub.ReachesEachOnce` | src/pubsub.rs:142-161 | Every registered sender is reached exactly once. |
| `PubSub.ClosedSendersDropped` | src/pubsub.rs:150-160 | No closed sender stays, and the list is unchanged exactly if none was closed. |
| `PubSub.OpenSendersKeptIff` | src/pubsub.rs:145-160 | All open senders stay registered if and only if none comes after a closed one. |
| `PubSub.OpenSenderDropped` | src/pubsub.rs:145-160 | An open sender that is dropped. |
| `PubSub.AnnouncedToReachable` | src/scanner.rs:197-215 | Over all updates of a scan, a subscriber without a closed sender before it is sent every update it subscribed to and stays registered. |
| `PubSub.SentIsToEach` | src/pubsub.rs:142-181 | The attempts for one update are, as multisets, one delivery to each registered sender, the subscribers of the invoice first. |
| `PubSub.AnnouncedAtMost` | src/scanner.rs:197-215 | Over all updates of a scan no sender is sent an update more often than it was registered for it, and nothing but the updates is sent. |
| `PubSub.AnnouncedExactlyOnce` | src/scanner.rs:197-215 | A subscriber that is registered once for an update, without a closed sender before it, is sent it exactly once. |
| `Rpc.TransactionsByHashes` | src/rpc/mod.rs:159-217 | The requests are non-empty slices of at most 100 hashes, all but the last of exactly 100, that concatenate to the whole list; the answer is that of one big request. |
| `Rpc.FetchEntry` | src/caching/block_cache.rs:107-110 | The daemon's block at a height, with one transaction for each of its hashes, in order, if all of them are known. |
| `Daemons.Daemon.EntryComplete` | src/caching/block_cache.rs:107-110 | An entry holds its block and exactly those known transactions that the block names; if all are known, one for each hash, in order. |
| `Daemons.Daemon.ReplyKnown` | src/rpc/mod.rs:159-217 | Asking for known transactions yields exactly those, in order. |
| `Authentication.SplitHeader` | src/rpc/authentication.rs:192-215 | The loop over indices and flags computes the pieces between the commas outside quotes, without the whitespace around them, and nothing for an empty challenge. |
| `Authentication.SplitExactly` | src/rpc/authentication.rs:192-215 | Its parts are the only ones that are left, between the whitespace around them, of pieces that hide no comma outside quotes and join to the challenge. |
| `Authentication.PiecesExactly` | src/rpc/authentication.rs:192-215 | The pieces are the one way to write a text as a join of pieces with every comma inside quotes, in which only the last leaves a quote open. |
| `Authentication.TrimExactly` | src/rpc/authentication.rs:204-211 | A text is the trimmed one if and only if it neither starts nor ends with whitespace and there is only whitespace around it. |
| `Authentication.WhitespaceCodes` | src/rpc/authentication.rs:204-211 | Whitespace is the code points with the Unicode property White_Space. |
| `Authentication.SplitInvertsJoin` | src/rpc/authentication.rs:192-215 | Trimmed parameters of a challenge as in section 3.3 of RFC 7616, with balanced quotes and no comma outside them, are recovered from their join, unless they are the one empty field. |
| `Authentication.JoinOfPieces` | src/rpc/authentication.rs:192-215 | Joining the pieces of any text gives the text back. |
| `Authentication.QuotesByCount` | src/rpc/authentication.rs:200-201 | A quote is open exactly if its character occurred an odd number of times. |

## Left out

- HTTP, TLS, timeouts, JSON and hexadecimal decoding in src/rpc/mod.rs: input and output; a daemon snapshot stands in for them.
- A request that fails in the middle of a repair of the block cache, and failures of storage: failed scans are modelled from the moment the block cache is updated.
- Output recognition, unblinding, subaddress derivation, MD5 and random numbers: outputs carry their subaddress and amount, derivation is an arbitrary function, a random pick is any pick. That the checker's table is rebuilt in time for a new index is not modelled.
- The Sled and SQLite stores: wrappers over databases; the in-memory map is the model of storage, and storing to disk is not modelled.
- `uri`, the amounts in whole XMR and `Display`: floating point and text.
- `run`, `stop`, `status` and thread handling: only scanning, creating and removing are steps.
- Channel capacity and waiting in subscribers: a send is one step that succeeds or reports a closed receiver, and no receiver closes and no subscriber arrives during one fan-out.
- Scanners.Scanner.Scan: runs without other steps in between; `LiveScans` lets invoices be created, at a reported height above the cache, and removed between the test for an empty store, the report, the collection and each save, but takes the cache updates and the reports as one region.
- PubSub.Publisher.Subscribe: sender ids are taken to be distinct; the code draws 128 random bits.
- SubaddressCaches.SubaddressCache.RemoveRandom: requires a free address, as drawing from an empty range panics in the code.
- Overflow of 64-bit amounts and heights: not modelled.
- Parsing and ordering of the parameters of a challenge, the builder, error types, examples and web assets: plumbing.
