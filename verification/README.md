# Verified model of the trading backend's stateful core

A Dafny model of the parts of the trading API whose correctness is about whole runs: the Kraken
order book with its checksum gate, trade accounting in its two forms, the hash-linked event stream,
the job runner on a bounded connection pool, the trade-to-candle pipeline, and feed supervision.

Code that changes state in place is a class or a method with loops, tied by its `ensures` to a
function of the old state; the properties are lemmas about those functions, over all inputs and all
runs. Prices, quantities and volumes are exact numbers or digit strings; tables are maps and
sequences; clocks, sockets, database answers and random numbers are parameters.

| file | what it models |
|---|---|
| `DecimalText.dfy` | decimal text as keys, comparison and checksum fields |
| `Crc32.dfy` | the table-driven CRC-32 against the bit-serial register |
| `BookSide.dfy`, `KrakenBook.dfy`, `BookChecksum.dfy` | the order book, as a sorted sequence and as a price-to-quantity map |
| `KrakenFeed.dfy` | the gate that hides a bad book, resubscribes, and the feed's one connection |
| `Positions.dfy`, `Journal.dfy`, `JournalFees.dfy` | average-cost positions, FIFO lots, and their agreement |
| `MatchSettlement.dfy` | match wallets against match score |
| `CanonicalJson.dfy`, `JsonParser.dfy`, `EventStream.dfy` | canonical text, its reader, and the hash chain |
| `JobPool.dfy`, `JobLocks.dfy`, `LeaderElection.dfy` | jobs on a bounded pool, job locks over several instances, leadership |
| `Candles.dfy`, `FormingCandle.dfy`, `FormingFold.dfy`, `UnrolledBuckets.dfy` | one-minute candles and the bars served from them |
| `CoinbaseTrades.dfy`, `CoinbaseBatches.dfy` | trade deduplication and batch connections |
| `FeedWatchdog.dfy`, `VolumeProfile.dfy` | staleness and backoff, the volume profile |

`dafny verify dfyconfig.toml` checks everything.

## Where the code does not do what is expected of it

Each of these is proved with the exact condition under which the expected property holds.

- A lot closed in two or more pieces is charged more entry fees than it paid, so the journal's net profit falls
  short of the average-cost profit less fees (`JournalFees.EntryFeeExactIff`, `JournalFees.FlatNetIff`).
- A match position closed without any market price is settled at an entry price that has already been
  zeroed, so wallets and score differ unless it was entered at zero (`MatchSettlement.UnpricedAgreesIff`).
- A payload with an undefined object member breaks the stored chain (`EventStream.AppendKeepsValidIff`).
- Delisting a symbol forgets its resubscribe cooldown, so the cooldown is kept exactly when it is no longer than
  the time between symbol refreshes, as the shipped five seconds and five minutes are
  (`KrakenFeed.CooldownKeptIff`, `KrakenFeed.RelistingSkipsCooldown`).
- The job clamp keeps the pool free of deadlock, from six clients up, for bodies that hold one client at a time. For
  bodies that hold one while they need another it does not where the pool is even and the concurrency is
  the clamp's own maximum; at the shipped twenty clients and concurrency of four nothing deadlocks or even
  waits until bodies hold four (`JobPool.DeadlocksIff`, `JobPool.TwoExtrasDeadlockIff`, `JobPool.ShippedDefaults`).
- Manual triggers go past the clamp and deadlock a pool of any size (`JobPool.TriggersDeadlockAnyPool`).
- An instance that boots beside a live run turns that run's row to FAILED, which makes it due again and lets every
  claim on it through; only the lock keeps a second run out (`JobLocks.RowChangesIff`, `JobLocks.LiveRunReset`).
- A claim made late, after another run of the same selection has finished, is granted (`JobLocks.SecondClaim`).
- An instance that loses its leadership session goes on leading (`LeaderElection.LostLeaderGoesOn`).
- A seed for a newer minute throws the open candle away (`Candles.SeedLosesIff`).
- A bar served just before a flush can open at another price than just after it, when the timeframe's
  own last bar disagrees with the last minute (`FormingCandle.SameBarIff`).
- A Coinbase reconcile that comes back after a stop leaves a batch that never connects
  if the feed is started again (`CoinbaseBatches.StopDuringReconcile`). The process starts the feed once, when
  the server is ready (apps/api/src/app.ts:383), and stops it only when it shuts down
  (apps/api/src/server.ts:174), so this stays without effect there.
- A finished minute in memory that is not stored is left out of the bars served before the rollup when a later
  minute of its own bucket is stored (`UnrolledBuckets.GetUnrolledBuckets`, `UnrolledBuckets.LostMinute`).
- Flat candles at the top price are left out of the volume profile (`VolumeProfile.ProfileKeepsVolumeIff`).

## Model

| member | source | states |
|---|---|---|
| DecimalText.CanonicalKeepsValue | apps/api/src/market/krakenBook.ts:49-69 | every plain decimal has a canonical text that denotes the same number |
| DecimalText.CanonicalIdempotent | apps/api/src/market/krakenBook.ts:49-69 | canonical text is its own canonical text |
| DecimalText.SameKeyIffSameValue | apps/api/src/market/krakenBook.ts:49-69 | two plain texts get one book key if and only if they denote one number |
| DecimalText.CanonicalUnique | apps/api/src/market/krakenBook.ts:49-69 | one number has one canonical text |
| DecimalText.CompareIsSign | apps/api/src/market/krakenBook.ts:72-83 | the text comparison is the sign of the numeric difference |
| DecimalText.CompareTotalOrder | apps/api/src/market/krakenBook.ts:72-83 | it is a strict total order |
| DecimalText.FieldIsScaledValue | apps/api/src/market/krakenBook.ts:91-97 | a checksum field is the digit string of value times a power of ten, empty for zero only |
| DecimalText.FieldsAgreeIff | apps/api/src/market/krakenBook.ts:91-97 | two fields agree if and only if their scaled values do |
| DecimalText.FieldInjective | apps/api/src/market/krakenBook.ts:91-97 | with the fraction inside the precision the field determines the number |
| DecimalText.FieldCollidesBeyondPrecision | apps/api/src/market/krakenBook.ts:91-97 | with a longer fraction it need not |
| Crc32.BuildTable | apps/api/src/market/krakenBook.ts:100-108 | entry n of the table is the register n after eight clocks |
| Crc32.Compute | apps/api/src/market/krakenBook.ts:111-115 | the table loop is the bit-serial CRC-32 of section 8 of RFC 1952, on every string |
| Crc32.StepsLinear | apps/api/src/market/krakenBook.ts:100-108 | clocking is linear over exclusive-or |
| Crc32.FeedTextInjective | apps/api/src/market/krakenBook.ts:111-115 | registers agree after a common text if and only if they agreed before it |
| Crc32.BurstDetected | apps/api/src/market/krakenBook.ts:111-115 | texts that differ in up to four adjacent characters collide if and only if those characters' low bytes agree |
| Crc32.KnownValue | apps/api/src/market/krakenBook.ts:100-115 | the CRC of one known character, which pins polynomial, preset and complement |
| BookSide.ApplyAllIsChangeAll | apps/api/src/market/krakenBook.ts:169-192 | splicing changes one by one is making them to the price-to-quantity map |
| BookSide.RankIsIndex | apps/api/src/market/krakenBook.ts:169-192 | the i-th level is in the map and exactly i prices are better |
| BookSide.TruncateIsBest | apps/api/src/market/krakenBook.ts:169-192 | cutting the side is keeping the best depth prices |
| BookSide.BestMeans | apps/api/src/market/krakenBook.ts:169-192 | a price is kept, with its quantity, if and only if fewer than depth prices of the map are better: higher for bids, lower for asks |
| BookSide.SideMeans | apps/api/src/market/krakenBook.ts:169-192 | the map of a side holds exactly its levels; bids fall in price and asks rise |
| BookSide.LastChangeDecides | apps/api/src/market/krakenBook.ts:169-192 | after a list of changes each price has the quantity of the last change to it, and is absent if that is zero |
| BookSide.UnchangedStays | apps/api/src/market/krakenBook.ts:169-192 | a price that no change names stays as it was |
| BookSide.MapDeterminesLevels | apps/api/src/market/krakenBook.ts:169-192 | the map determines the levels in order |
| BookSide.TruncateCommutesIff | apps/api/src/market/krakenBook.ts:169-192 | cutting before a change is harmless if and only if the change does not delete a kept level while others were cut |
| BookSide.TruncatingEveryBatchIsHarmless | apps/api/src/market/krakenBook.ts:169-192 | over runs of batches without deletions, cutting after each gives the same best levels as never cutting |
| KrakenBook.Search | apps/api/src/market/krakenBook.ts:169-192 | the binary search over text keys finds the number of levels before the price |
| KrakenBook.Merge | apps/api/src/market/krakenBook.ts:169-192 | the search-and-splice loop, its truncation and its stop at a malformed level |
| KrakenBook.MergedKeepsValid | apps/api/src/market/krakenBook.ts:169-192 | every merge leaves a strictly ordered side without empty levels, and a completed one at most depth levels |
| KrakenBook.MergedRefinesMap | apps/api/src/market/krakenBook.ts:169-192 | a completed merge is: change the map in order, keep the best depth |
| KrakenBook.ParseAllMeans | apps/api/src/market/krakenBook.ts:169-192 | the levels merged are the numbers of the message's texts, in order, up to its first malformed one |
| KrakenBook.SnapshotMeans | apps/api/src/market/krakenBook.ts:131-134 | for every book a snapshot makes each side the best depth prices of its own list; a malformed ask keeps the old asks with the new bids, a malformed bid keeps both |
| KrakenBook.UpdateMeans | apps/api/src/market/krakenBook.ts:136-139 | for every book an update changes the map of the bids by the bids' list and that of the asks by the asks' list, and keeps the best depth of each; an empty list leaves its side as it was; a malformed level leaves the changes before it made and nothing cut |
| KrakenBook.MapDeterminesSide | apps/api/src/market/krakenBook.ts:169-192 | the map determines the side, text included |
| KrakenBook.KrakenBook.ApplySnapshot | apps/api/src/market/krakenBook.ts:131-134 | a snapshot replaces each side once its merge has completed: old and new sides, as maps, for well-formed and malformed messages |
| KrakenBook.KrakenBook.ApplyUpdate | apps/api/src/market/krakenBook.ts:136-139 | an update merges into each side in place: old and new sides, as maps, for well-formed and malformed messages |
| KrakenBook.KrakenBook.ComputeChecksum | apps/api/src/market/krakenBook.ts:142-151 | the bit-serial CRC of the scaled price and then the scaled quantity of each of the ten best asks, then bids, written without leading zeros |
| KrakenBook.ChecksumIsFields | apps/api/src/market/krakenBook.ts:142-151 | the texts behind every valid book's checksum, each by its number, price before quantity, asks before bids |
| KrakenBook.RunKeepsValid | apps/api/src/market/krakenBook.ts:131-139 | after any messages, malformed ones included, both sides are ordered and without empty levels; within depth if none was malformed |
| BookChecksum.CorruptedAskDetected | apps/api/src/market/krakenBook.ts:142-151 | an ask among the ten best that is off in up to four adjacent digits of its fields changes the checksum |
| BookChecksum.CorruptedBidDetected | apps/api/src/market/krakenBook.ts:142-151 | and so does a bid |
| BookChecksum.KnownChecksum | apps/api/src/market/krakenBook.ts:142-151 | the checksum of one literal book with two sides |
| KrakenFeed.RunKeepsGate | apps/api/src/market/krakenWs.ts:357-507 | every event keeps it: a symbol with an open resync has no exact book and no published snapshot |
| KrakenFeed.BadBookNeverReadable | apps/api/src/market/krakenWs.ts:357-507 | the same from the start of the process; without enforcement there are no resyncs |
| KrakenFeed.UnreadableUntilSnapshot | apps/api/src/market/krakenWs.ts:357-507 | an unreadable symbol stays so over every run without a snapshot message for it |
| KrakenFeed.ReadableMeansVerified | apps/api/src/market/krakenWs.ts:357-399 | a checkable message leaves its symbol readable, with that book, if and only if it was well formed and the checksums agree |
| KrakenFeed.EveryBookIsVerified | apps/api/src/market/krakenWs.ts:357-454 | with enforcement and checkable messages, after every run an exact book is the published one and has the checksum its symbol's last message carried |
| KrakenFeed.ResubscribesSpaced | apps/api/src/market/krakenWs.ts:457-497 | in every run with refreshes a given time apart, two resubscribes for a symbol on one connection are at least the cooldown or that time apart, whichever is less, however often it is delisted and listed in between |
| KrakenFeed.RelistingSkipsCooldown | apps/api/src/market/krakenWs.ts:180-199 | a run from the start of the process in which a symbol delisted by one refresh and listed by the next is resubscribed twice exactly the refresh interval apart |
| KrakenFeed.CooldownKeptIff | apps/api/src/market/krakenWs.ts:457-497 | every run keeps the cooldown if and only if it is no longer than the time between refreshes |
| KrakenFeed.KrakenFeed.ReconcileSubscriptions | apps/api/src/market/krakenWs.ts:180-199 | a refresh puts the new symbols in force and forgets all book state of exactly the removed ones |
| KrakenFeed.WatchdogEnforcesTimeout | apps/api/src/market/krakenWs.ts:476-487 | after a watchdog pass no sent resync older than the timeout survives on a live socket |
| KrakenFeed.RunKeepsOne | apps/api/src/market/krakenWs.ts:556-779 | between start and stop, after any events, late ones included, exactly one of current socket and pending reconnect exists |
| KrakenFeed.AlwaysOneConnection | apps/api/src/market/krakenWs.ts:556-779 | the same from the start of the process, with neither outside start and stop |
| KrakenFeed.SecondStartBreaksOne | apps/api/src/market/krakenWs.ts:739-746 | starting a running feed always leaves two |
| KrakenFeed.KrakenFeed.ApplyBookEntry | apps/api/src/market/krakenWs.ts:357-399 | what one book message does to every variable of the module |
| KrakenFeed.KrakenFeed.OnChecksumMismatch | apps/api/src/market/krakenWs.ts:401-454 | what a mismatch does to every variable, and the outcome of MismatchOutcome in the module's own variables |
| KrakenFeed.MismatchOutcome | apps/api/src/market/krakenWs.ts:401-473 | in every state: without enforcement the book is only published; with it the book is hidden, and the socket is dropped if enough symbols failed within the window, else the symbol is resubscribed, left to the watchdog inside its cooldown, or given up if no longer listed |
| KrakenFeed.WatchdogRetries | apps/api/src/market/krakenWs.ts:457-487 | an open resync that was held back is sent by the first watchdog pass after its cooldown, unless that pass drops the socket |
| KrakenFeed.KrakenFeed.RequestBookResync | apps/api/src/market/krakenWs.ts:457-473 | when a resubscribe is sent, and what it notes |
| KrakenFeed.KrakenFeed.CheckBookResyncs | apps/api/src/market/krakenWs.ts:476-487 | the watchdog's loop over the open resyncs |
| KrakenFeed.KrakenFeed.Drop | apps/api/src/market/krakenWs.ts:699-717 | only the current socket can be dropped; it takes all book state with it and schedules one reconnect |
| Positions.FillConserves | apps/api/src/analytics/positionMath.ts:27-60 | every fill adds exactly its own marked value, at every mark price |
| Positions.EntryRules | apps/api/src/analytics/positionMath.ts:27-60 | adding books nothing, reducing keeps the entry, closing resets it, flipping re-opens at the fill's price |
| Positions.RunPositionConserves | apps/api/src/analytics/positionMath.ts:27-60 | over every history realized plus open profit is the fills' signed quantity times mark minus price |
| Journal.TradeJournal.Process | apps/api/src/journal/journalService.ts:46-196 | the loop that consumes opposite lots oldest first, books trades and opens a lot for the rest |
| Journal.RunJournalConserves | apps/api/src/journal/journalService.ts:79-195 | over every history booked plus open profit is the same, and the lots' total moves with the position |
| Journal.FifoAgreesWithAverageCost | apps/api/src/journal/journalService.ts:79-195 | for every history the open lots are all on the position's side, sum to its quantity, and both books carry one profit at every mark |
| Journal.FlatRealizedAgree | apps/api/src/journal/journalService.ts:79-195 | whenever flat no lot is open and both realized totals are equal |
| Journal.TradeIsOfItsFills | apps/api/src/journal/journalService.ts:102-195 | for every history each closed trade has the entry side and price of the fill that opened its lot, the exit price of the later fill on the other side that wrote it, and the gross profit those two make of its quantity |
| Journal.OldestLotFirst | apps/api/src/journal/journalService.ts:79-127 | for every history no lot is touched before every older one is used up |
| JournalFees.FillFeeConserved | apps/api/src/journal/journalService.ts:102-195 | a fill's fee is the exit fees of the trades it closes plus the fee of the lot it opens |
| JournalFees.RunConservesFees | apps/api/src/journal/journalService.ts:102-195 | over every history the fees the fills paid are the exit fees of all trades plus the fees of all lots |
| JournalFees.EntryFeeExactIff | apps/api/src/journal/journalService.ts:112-175 | for every history and every lot in it, its trades close what it no longer holds, and are charged their part of its fee if and only if there is at most one or no fee, and more otherwise |
| JournalFees.FlatNetIff | apps/api/src/journal/journalService.ts:112-195 | whenever flat the journal's net profit is at most the average-cost profit less all fees paid, and exactly that if and only if every lot was closed in one piece or had no fee |
| MatchSettlement.ClosePrices.Get | apps/api/src/competitions/matchWallets.ts:168-215 | the cached reference for pair and side, else the sources, else the entry price |
| MatchSettlement.RunKeepsInStep | apps/api/src/competitions/matchWallets.ts:51-83 | after any fills the base wallets equal the positions and USD is the capital plus their cash |
| MatchSettlement.MatchAccount.CloseScopedPositions | apps/api/src/competitions/matchService.ts:1065-1138 | every open row is booked at its close price and zeroed |
| MatchSettlement.ClosePassRow | apps/api/src/competitions/matchService.ts:1065-1138 | each row books its size times close price less entry, at the price that the references known before the pass give, whatever other rows are closed |
| MatchSettlement.MatchAccount.SettleWallets | apps/api/src/competitions/matchWallets.ts:224-271 | every base wallet is turned into USD and emptied |
| MatchSettlement.SettlementBalances | apps/api/src/competitions/matchService.ts:1030-1040 | for every match, at its end base wallets are zero and USD is capital plus score plus the gaps of rows without a market price |
| MatchSettlement.ScoreAgreesIff | apps/api/src/competitions/matchService.ts:1030-1040 | wallets agree with the score if and only if those gaps cancel; with a market price for every open row, always |
| MatchSettlement.UnpricedAgreesIff | apps/api/src/competitions/matchWallets.ts:156-215 | with no price source at all one position agrees if and only if it is flat or was entered at zero |
| JsonParser.RoundTrip | apps/api/src/eventStream/eventHash.ts:7-26 | whatever is printed reads back as its meaning, by the grammar of sections 4, 5 and 7 of RFC 8259 |
| JsonParser.KeysReadInOrder | apps/api/src/eventStream/eventHash.ts:7-26 | whatever is printed reads back, keeping the order of its members, as a tree of its meaning whose keys strictly increase in every object at every depth: the unit at the first difference is smaller, or the key is a proper prefix |
| CanonicalJson.KnownText | apps/api/src/eventStream/eventHash.ts:7-26 | the text of one literal value |
| CanonicalJson.KnownEscapes | apps/api/src/eventStream/eventHash.ts:7-26 | the escapes of quote, backslash and control characters |
| JsonParser.SameTextIffSameMeaning | apps/api/src/eventStream/eventHash.ts:7-26 | two values print one text if and only if they mean the same, whatever their keys' insertion order |
| EventStream.HashIffSameContent | apps/api/src/eventStream/eventHash.ts:31-51 | with an injective hash, two events get one hash if and only if every hashed field agrees |
| EventStream.HashIsOfFields | apps/api/src/eventStream/eventHash.ts:31-51 | the hash is that of a text that reads back as an object with exactly seven keys, each with the field it names |
| EventStream.EventLog.Record | apps/api/src/eventStream/eventService.ts:21-57 | appends one row with the fields given, its payload stored as JSON, linked to the last row's hash or to the genesis hash |
| EventStream.EventLog.VerifyFullChain | apps/api/src/eventStream/eventService.ts:80-169 | the batched verifier gives the answer of a single pass: valid, or the first bad row |
| EventStream.EventLog.VerifyFrom | apps/api/src/eventStream/eventService.ts:174-241 | the suffix verifier gives the answer for the suffix after the prefix's last hash |
| EventStream.AnswerIsUnique | apps/api/src/eventStream/eventService.ts:80-169 | that answer is determined by the rows, valid if and only if the chain is |
| EventStream.SuffixVerification | apps/api/src/eventStream/eventService.ts:174-241 | full validity is prefix validity plus a valid suffix answer |
| EventStream.StoreKeepsMeaningIff | apps/api/src/eventStream/eventService.ts:21-57 | storing keeps a payload's meaning if and only if no object in it has an undefined member |
| EventStream.AppendKeepsValidIff | apps/api/src/eventStream/eventService.ts:21-57 | an append leaves a valid chain if and only if it was valid and the payload has no undefined member |
| EventStream.TamperEvident | apps/api/src/eventStream/eventService.ts:80-169 | two valid chains that end in one hash are equal row by row |
| JobPool.RunKeepsSound | apps/api/src/jobs/jobRunner.ts:124-266 | over every tick-started run at most the clamp is in flight, no name twice, fewer while a tick is out |
| JobPool.InFlightBounded | apps/api/src/jobs/jobRunner.ts:124-152 | from the start of the process in-flight jobs stay within the clamp, without a name twice, and clients within the pool |
| JobPool.WantedIsBounded | apps/api/src/jobs/jobRunner.ts:65-80 | clients held and asked for never exceed the reserve plus the clamp times what one job may hold |
| JobPool.RunIsBounded | apps/api/src/jobs/jobRunner.ts:171-245 | however jobs in flight interleave they take at most as many steps as their rank |
| JobPool.Drains | apps/api/src/jobs/jobRunner.ts:171-266 | with a pool past the deadlock bound all jobs in flight can finish, from every sound state, with no acquire timing out |
| JobPool.StarvesIff | apps/api/src/jobs/jobRunner.ts:65-80 | some tick-started run leaves an asker waiting, no client being free, if and only if the pool is smaller than what can be wanted |
| JobPool.OneExtraStarvesIff | apps/api/src/jobs/jobRunner.ts:65-80 | for bodies that hold one client at a time somebody can have to wait if and only if the pool is smaller than six |
| JobPool.StuckMeansGivingUp | apps/api/src/jobs/jobRunner.ts:20-34 | in a deadlock no job moves but by giving up, and no client comes free but by a leader stepping down |
| JobPool.DeadlocksIff | apps/api/src/jobs/jobRunner.ts:60-67 | some tick-started run deadlocks, all jobs waiting and no client free, if and only if the pool is at most the reserve plus the clamp times what a body may hold |
| JobPool.OneExtraDeadlocksIff | apps/api/src/jobs/jobRunner.ts:60-67 | for bodies that hold one client at a time, if and only if the pool is smaller than six |
| JobPool.TwoExtrasDeadlockIff | apps/api/src/jobs/jobRunner.ts:60-67 | for bodies that hold one while they need another, if and only if the pool is smaller than six, or even with the concurrency at the clamp's own maximum |
| JobPool.ShippedDefaults | apps/api/src/config.ts:120-125 | at twenty clients and concurrency four, waiting and deadlock both need bodies that hold more than three |
| JobPool.TriggersStarveAnyPool | apps/api/src/jobs/jobRunner.ts:268-285 | manual triggers exceed the clamp and leave an asker waiting in a pool of any size |
| JobPool.TriggersDeadlockAnyPool | apps/api/src/jobs/jobRunner.ts:268-285 | where bodies take clients of their own, they deadlock it |
| JobPool.JobRunner.constructor | apps/api/src/jobs/jobRunner.ts:69-80 | the largest clamp up to the asked concurrency that leaves the reserve and as many clients again, from six up |
| JobPool.JobRunner.BeginTick | apps/api/src/jobs/jobRunner.ts:124-129 | the tick's guards refine the machine: the tick asks exactly when it may, and otherwise nothing changes |
| JobPool.JobRunner.StartDueJobs | apps/api/src/jobs/jobRunner.ts:139-152 | the tick's loop refines the machine's step: it adds only waiting jobs of due names not in flight, up to the clamp, and leaves a due name out only once the clamp is reached by names due before it |
| JobLocks.MutualExclusion | apps/api/src/jobs/jobRunner.ts:171-266 | over every run of several instances, with crashes, stale re-selections, triggers and boots, at most one session is in a job's body |
| JobLocks.IdleHoldsNothing | apps/api/src/jobs/jobRunner.ts:254-266 | over every run no idle pooled session holds a lock, and none holds one twice |
| JobLocks.RowChangesIff | apps/api/src/jobs/jobRepo.ts:82-142 | while a session is in a job's body, another's step changes the job's row if and only if it is a boot while the row is RUNNING or a different configuration; it never ends the body or changes its start |
| JobLocks.BootResetsLiveRun | apps/api/src/jobs/jobRepo.ts:117-125 | a boot beside a live run makes its row due as soon as its next run has come, and lets every claim through |
| JobLocks.LiveRunReset | apps/api/src/jobs/jobRepo.ts:117-125 | such a boot is reached from nothing connected |
| JobLocks.SecondRunGivesUp | apps/api/src/jobs/jobRunner.ts:189-196 | another run of the job gives up at the lock |
| JobLocks.SpentUntilFinished | apps/api/src/jobs/jobRepo.ts:82-109 | once a selection's row is RUNNING from a later millisecond, over every run its claims are refused until a run of the job finishes or an instance boots |
| JobLocks.UntouchedCanBeClaimed | apps/api/src/jobs/jobRepo.ts:60-109 | an untouched row can be claimed though its time was cut; uncut it could if and only if it falls on a whole millisecond |
| JobLocks.SecondClaim | apps/api/src/jobs/jobRepo.ts:82-142 | the other claim on one selection is refused until the first run has finished, then granted |
| JobLocks.CrashedRunRecovers | apps/api/src/jobs/jobRepo.ts:144-162 | after a crash in the body the row is due if and only if its next run has come and, unless a boot reset it, the ceiling has passed since the claim; an idle session that selects it then gets into the body |
| JobLocks.JobRepo.MarkStarted | apps/api/src/jobs/jobRepo.ts:82-109 | compare and set of one row, and when it fails |
| JobLocks.JobRepo.MarkFinished | apps/api/src/jobs/jobRepo.ts:127-142 | the finished row's status and next run |
| JobLocks.JobRepo.ResetStaleRunningOnStartup | apps/api/src/jobs/jobRepo.ts:117-125 | turns every RUNNING row and no other to FAILED, and counts them |
| JobLocks.JobRepo.FindDueJobs | apps/api/src/jobs/jobRepo.ts:144-162 | each due row once, by its fields and the ceiling in seconds, in the order of their next runs, those never planned first |
| LeaderElection.TwoLeadersMeanLost | apps/api/src/coordination/leaderElection.ts:32-60 | of two instances that take themselves to lead under one name at least one has lost its session |
| LeaderElection.OneLeaderWhileNoneLost | apps/api/src/coordination/leaderElection.ts:32-60 | while no session is lost at most one leads |
| LeaderElection.LostLeaderGoesOn | apps/api/src/coordination/leaderElection.ts:32-60 | a lost session is not noticed: the instance goes on leading, and another leads beside it |
| LeaderElection.FailedUnlockBlocks | apps/api/src/coordination/leaderElection.ts:67-89 | after an unlock that failed, the name can be led under only through that very client |
| LeaderElection.Leadership.TryAcquire | apps/api/src/coordination/leaderElection.ts:32-60 | one instance's map stays its part of the world, and the answer is whether it leads |
| LeaderElection.Leadership.ReleaseAll | apps/api/src/coordination/leaderElection.ts:113-122 | afterwards the instance leads nothing, and other instances' claims are untouched |
| Candles.RunKeepsOrdered | apps/api/src/market/candleAggregator.ts:60-226 | over every run, seeds included, the newest minute never goes back and each minute is flushed at most once, in increasing order |
| Candles.DroppedIff | apps/api/src/market/candleAggregator.ts:60-70 | a tick is dropped if and only if its minute or a newer one has been flushed, or a newer one is open |
| Candles.CandlesAreTheirTicks | apps/api/src/market/candleAggregator.ts:60-187 | over every run without seeds each candle is the open, high, low, close and volume of exactly the accepted ticks of its minute |
| Candles.VolumeIsConserved | apps/api/src/market/candleAggregator.ts:60-187 | accepted volume is flushed plus open volume |
| Candles.CandleInNumbers | apps/api/src/market/candleAggregator.ts:60-187 | each candle starts on a whole minute, is of exactly the accepted ticks in its sixty seconds, and its three volumes are those of all, of the bought and of the sold ones |
| Candles.FlushDueIff | apps/api/src/market/candleAggregator.ts:171-187 | a pair's turn in the flush takes its open candle if and only if its minute is over |
| Candles.SeedIs | apps/api/src/market/candleAggregator.ts:198-226 | a seed of the open minute takes the exchange's open, both ranges, the live close and sides and the larger volume; one of a newer minute opens with the exchange's figures alone; any other changes nothing |
| Candles.SeedLosesIff | apps/api/src/market/candleAggregator.ts:198-226 | a seed throws the open candle away if and only if it is for a newer minute |
| Candles.CandleAggregator.AggregateTick | apps/api/src/market/candleAggregator.ts:60-108 | what one tick does to its pair, and that no other pair changes |
| Candles.CandleAggregator.FlushCandle | apps/api/src/market/candleAggregator.ts:116-122 | the flushed candle becomes the last closed one if it is newer |
| Candles.CandleAggregator.FlushDueCandles | apps/api/src/market/candleAggregator.ts:171-187 | flushes exactly the open candles before the current minute |
| Candles.CandleAggregator.SeedOpenCandle | apps/api/src/market/candleAggregator.ts:198-226 | merges into the open minute, or opens a newer one |
| FormingCandle.BucketsPartition | apps/api/src/market/formingCandle.ts:39-45 | every time lies in its bucket and shares it with exactly the times in it |
| FormingCandle.BucketsNest | apps/api/src/market/formingCandle.ts:39-45 | a finer timeframe's bucket lies inside one coarser bucket, weeks from Monday included |
| FormingCandle.BucketStartsAt | apps/api/src/market/formingCandle.ts:39-45 | weeks start on Mondays and every other bucket on a multiple of its length |
| FormingCandle.Latest | apps/api/src/market/formingCandle.ts:106-117 | the previous close is the first of those that end latest |
| FormingCandle.PrevCloseIsLatest | apps/api/src/market/formingCandle.ts:65-117 | the previous close is that of a finished minute or bar that ends last of all finished ones, stored or in memory, and is missing only when none is finished |
| FormingCandle.GetFormingCandle | apps/api/src/market/formingCandle.ts:65-153 | the bar of the bucket's stored minutes and the newer open one, opened at the previous close |
| FormingCandle.SameBarIff | apps/api/src/market/formingCandle.ts:65-153 | the bar is the same with the newest minute in memory or stored, if and only if the timeframe's own last bar does not end with that minute at another close |
| FormingFold.FormingBarIsOfTicks | apps/api/src/market/formingCandle.ts:65-153 | after every run without seeds the bar is that of exactly the accepted ticks from the bucket's start on, with low at most open and close, high at least both |
| FormingFold.FlushKeepsBarIff | apps/api/src/market/candleAggregator.ts:171-187 | a due flush changes the bar only in that one case |
| UnrolledBuckets.GroupingUnique | apps/api/src/market/formingCandle.ts:193-212 | the grouping of minutes into bars is unique, so it is what the rollup stores |
| UnrolledBuckets.GetUnrolledBuckets | apps/api/src/market/formingCandle.ts:169-235 | the rows served are the grouping of the stored minutes in the window and the one in memory, which is left out if and only if it or a later minute of its own bucket is stored |
| UnrolledBuckets.RowIsOfTicks | apps/api/src/market/formingCandle.ts:193-212 | after every run without seeds each row of a whole bucket is the open, high, low, close and volumes of exactly the accepted ticks of its bucket |
| UnrolledBuckets.LostMinute | apps/api/src/market/formingCandle.ts:217-232 | a minute left out that is not stored leaves its bucket's volume short by its own |
| UnrolledBuckets.SameRowsEitherWay | apps/api/src/market/formingCandle.ts:169-235 | they are the same whether the newest minute is in memory or stored, and at most two |
| CoinbaseTrades.HandedIff | apps/api/src/feeds/coinbaseWs.ts:191-213 | an event hands a product exactly its ids above the newest: all of a first live event, none of a first snapshot |
| CoinbaseTrades.HandsOnWhatCounts | apps/api/src/feeds/coinbaseWs.ts:191-213 | every trade, with an id or without, is handed on as often as the event holds it if it counts, and otherwise never |
| CoinbaseTrades.HandsOnInOrder | apps/api/src/feeds/coinbaseWs.ts:191-213 | ids come first and ascend; trades without an id come last, the later in the event before the earlier |
| CoinbaseTrades.EventClimbsIff | apps/api/src/feeds/coinbaseWs.ts:191-213 | ids handed on in an event strictly increase if and only if no new id is in it twice |
| CoinbaseTrades.RunClimbs | apps/api/src/feeds/coinbaseWs.ts:191-239 | over every run of events without repeated ids the ids handed on strictly increase |
| CoinbaseTrades.RedeliveryIsNothing | apps/api/src/feeds/coinbaseWs.ts:191-213 | redelivering a processed event, however much later, hands on none of its trades that have an id |
| CoinbaseTrades.SnapshotIsNothingIff | apps/api/src/feeds/coinbaseWs.ts:191-213 | a snapshot contributes nothing if and only if it has no id above a newest one there is |
| CoinbaseTrades.SnapshotPublishesNewest | apps/api/src/feeds/coinbaseWs.ts:227-300 | a snapshot publishes one price for a product with new trades, that of its newest |
| CoinbaseTrades.TradeFeed.TradesToProcess | apps/api/src/feeds/coinbaseWs.ts:191-213 | the loop that sorts trades with and without ids apart |
| CoinbaseTrades.TradeFeed.HandleEvent | apps/api/src/feeds/coinbaseWs.ts:227-300 | trades handed on, prices published and ids noted |
| CoinbaseBatches.RunKeepsOne | apps/api/src/feeds/coinbaseWs.ts:318-488 | in every run without a late reconcile each batch has exactly one of socket and pending reconnect |
| CoinbaseBatches.AlwaysOneConnection | apps/api/src/feeds/coinbaseWs.ts:318-488 | the same from the start of the process, and no two batches share a socket |
| CoinbaseBatches.RunKeepsSound | apps/api/src/feeds/coinbaseWs.ts:318-488 | in every run no batch has both, and no two batches share a socket |
| CoinbaseBatches.DeadIff | apps/api/src/feeds/coinbaseWs.ts:497-533 | a step leaves a batch with neither if and only if one was there and stays, or a reconcile comes back to a stopped feed and makes one |
| CoinbaseBatches.DeadStaysDead | apps/api/src/feeds/coinbaseWs.ts:497-533 | nothing but teardown ends that |
| CoinbaseBatches.StopDuringReconcile | apps/api/src/feeds/coinbaseWs.ts:497-533 | a stop that overtakes a reconcile, then a start, leads to it |
| CoinbaseBatches.BatchFeed.DropBatchSocket | apps/api/src/feeds/coinbaseWs.ts:440-480 | only the current socket can be dropped, and one reconnect is scheduled |
| CoinbaseBatches.BatchFeed.ReconcileBatches | apps/api/src/feeds/coinbaseWs.ts:497-533 | makes and connects missing batches and tears down those beyond the count |
| FeedWatchdog.StalenessIsExact | apps/api/src/market/feedWatchdog.ts:95-127 | after any run in time order a check marks a key if and only if it is silent beyond its limit, and reports it once when newly marked |
| FeedWatchdog.EpisodesTell | apps/api/src/market/feedWatchdog.ts:95-127 | every report is of an unmarked key the check names, with how long it has been silent, whether it was heard of since the connect, and a silence beyond the limit for that |
| FeedWatchdog.SilenceReportedOnce | apps/api/src/market/feedWatchdog.ts:95-127 | however often it is checked one silence is reported once, until the next message or connection |
| FeedWatchdog.BlockedLoopIsForgiven | apps/api/src/market/feedWatchdog.ts:99-101 | after any run, a check that would have reported a key but comes after too long a gap is skipped, and once a message of the key has been handled the next check does not report it either |
| FeedWatchdog.StalenessTracker.CheckStale | apps/api/src/market/feedWatchdog.ts:95-127 | the check's loop, its grace for keys seen first and its episodes |
| FeedWatchdog.FlappingKeepsBackingOff | apps/api/src/market/feedWatchdog.ts:139-174 | while no socket delivers data for the reset time every reconnect counts |
| FeedWatchdog.DelayBounds | apps/api/src/market/feedWatchdog.ts:164-174 | the delay is at most the cap, and no further below the doubled base than the jitter |
| FeedWatchdog.DelayDoubles | apps/api/src/market/feedWatchdog.ts:164-174 | without jitter the delay starts at the base, doubles per reconnect thirty times and stops at the cap; over budget it is the cap |
| VolumeProfile.FillBuckets | apps/api/src/indicators/vpvr.ts:44-55 | each bucket holds every candle's even share of its volume |
| VolumeProfile.ProfileKeepsVolumeIff | apps/api/src/indicators/vpvr.ts:44-55 | buckets hold all volume but that of flat candles at the top price |
| VolumeProfile.FindPoc | apps/api/src/indicators/vpvr.ts:57-66 | the first fullest bucket, and the total |
| VolumeProfile.GrowValueArea | apps/api/src/indicators/vpvr.ts:68-103 | the loop marks the area grown towards the fuller neighbour, and ends |
| VolumeProfile.ValueAreaIs | apps/api/src/indicators/vpvr.ts:68-103 | it is one run of buckets around the fullest, holds 70 percent or everything, and was short of that before its last step |
| VolumeProfile.ComputeVolumeProfile | apps/api/src/indicators/vpvr.ts:33-118 | there is a profile if and only if some price range is covered; what it says of its candles is ProfileSays, in its own fields |
| VolumeProfile.ProfileSays | apps/api/src/indicators/vpvr.ts:33-118 | every profile: the rows run from the lowest low to the highest high, side by side and equally wide; each holds, of every candle that trades in it, the volume over the number of rows it trades in; poc is the middle of the first fullest row; val and vah are the outer prices of the run grown from it by the fuller neighbour until it holds 70 percent or all |
| VolumeProfile.SeventyPercent | apps/api/src/indicators/vpvr.ts:68-103 | every profile: the rows from val to vah contain the fullest, hold 70 percent of all or are all, and held less before the last one taken |

## Left out

- Decimal text with exponents or signs, and prices that arrive as numbers rather than text: refused like malformed levels; quoting the numbers of a raw frame is not modelled.
- KrakenFeed.KrakenFeed.ApplyBookEntry: books are held as values and keyed by symbol, pair ids being one to one with symbols; log throttling, metrics and the derived order-flow features are not modelled, nor is stopping in the middle of a frame whose socket was killed.
- KrakenFeed.ResubscribesSpaced: a symbol refresh is one step, taken when its lookup is back.
- KrakenFeed.RunKeepsOne: a second start of a running feed is excluded, and shown to break it.
- The ticker, heartbeat and per-symbol steps of the Kraken watchdog appear only as kills of the current socket.
- Journal.FifoAgreesWithAverageCost: one user, pair and scope, since the journal has no match key; lots come in the order of their fills; eight-decimal storage rounding is not modelled.
- MatchSettlement.SettlementBalances: SPOT matches only; fills move base and USD in step, and the walk of book levels is a fixed function of the quote and quantity; isolated margin and rounding are not modelled.
- EventStream.EventLog.Record: locking, transactions and invalid dates; SHA-256 is any function, injective where a result says so.
- JobPool.DeadlocksIff: a body gives no client back while it waits for another; one that does so concurrently can only fare better.
- JobPool.Drains: timers, abort signals and failing queries other than acquire timeouts; a tick that is queued again at once is another tick.
- JobLocks.MutualExclusion: a query whose answer is lost counts as loss of the session.
- LeaderElection.FailedUnlockBlocks: how often one session holds a lock is not counted, and sessions are not tied to their instance's pool.
- Candles.CandlesAreTheirTicks: excludes seeds, whose candles hold the exchange's snapshot; storing rows, publishing and write failures are outside steps.
- FormingCandle.GetFormingCandle: unknown timeframe names, and the moment between a flush and its row becoming readable; an absent stored side volume counts as none.
- UnrolledBuckets.GetUnrolledBuckets: the one-minute timeframe, where it only returns the finished minute in memory; the query's grouping is an input that must be the grouping of the stored minutes.
- CoinbaseTrades.TradeFeed.HandleEvent: symbol lookup, liveness and the aggregators behind it.
- CoinbaseBatches.RunKeepsOne: product lists and subscription messages; the cross-check against Kraken's trades.
- VolumeProfile.ComputeVolumeProfile: exact numbers instead of floats; a candle whose low is above its high is in the model but not in the volume law.
- HTTP routes, order matching, liquidation, notifications, ratings and the user interface: not part of this model.
