# Verification models for arcella-lib

Dafny models of the parts of arcella-lib whose correctness is not obvious from reading them, with proofs of
the properties they are built to have. `dafny verify dfyconfig.toml` checks the whole project.

- **TTL cache** (`TtlCache`, `ExpireHeaps`, `CacheRuns`, `ReaperLifecycle`). `Cache` keeps the item map and the
  expiry heap of `cache/memcachettl` and its methods are the cache's critical sections, with every clock reading
  a parameter. They compute functions on `CacheState`, the cache's memory as a value, and `CacheRuns` lets any
  number of callers and the reaper interleave these sections under a clock that never goes back. The reference is a
  plain map which only stored `Set`s and `Delete`s change. `ExpireHeap` carries the sift loops of Go's
  `container/heap`. The `done`/`stopped` protocol of the same Go type is kept apart in `ReaperLifecycle`.
- **Fail2ban** (`SuspectedTable`, `SuspendedTable`, `Fail2Bans`, `Fail2BanVerdicts`). The hit counters, the ban table
  and the
  middleware that joins them, with their throttled sweeps; then whole runs of events.
- **SMS response correlation** (`SmsCorrelation`, `SmsDelivery`). The critical sections over `waitChs` as methods, and
  a protocol
  machine with calls, forwarders, handlers, duplicate and late responses, failing submits and timeouts.
- **RabbitMQ connect and stop** (`RabbitConnection`, `RabbitInstalls`) and **PostgreSQL restart** (`PostgresRestart`).
  The locked
  sections as methods, and machines in which the reconnect loop, `Start`, `Stop` and `DoRestart` interleave and
  connections, channels and pools are counted resources.
- **Password-based encryption** (`Jasypt`, `Pbes1Laws`) against sections 5.1, 6.1.1 and 6.1.2 of RFC 8018. DES is any
  keyed
  permutation of 8-byte blocks, MD5 any function to 16 bytes, base64 any encoder with its decoder.
- **Sieve** (`Sieve`), **UTF-8 and rune strings** (`Utf8`, `RuneStrings`), **SID and GUID texts** (`Numerals`,
  `DirectoryIds`), over the bit operations of `Bits`.
- **Configuration rewriting** (`ConfigTree`, `ConfigPrecedence`). Trees of values under struct tags, with the
  environment, the decoder and
  the standard library's parsers as parameters.

A run is a sequence of events together with the states it goes through (`IsRun` and its like); lemmas about runs hold
for every run and every point of it.

Where the code falls short of what one might expect of it, the model keeps the code. One lemma gives the exact
condition and another an input or a run:

- The padding is judged by its last octet: `Jasypt.DecryptAgainstStandard`, `Jasypt.MalformedPaddingIsAccepted`.
- `SubStr` panics on a `start+length` that overflows although neither is negative: `RuneStrings.WhenSubStrPanics`,
  `RuneStrings.LargestLengthPanics`.
- `Reverse` replaces invalid bytes: `RuneStrings.ReverseIsInvolutionIffUtf8`, `RuneStrings.SingleInvalidByteIsReplaced`.
- Rewriting a configuration twice may differ from once: `ConfigTree.IdempotentIffDecoderStable`,
  `ConfigTree.EmptyDecoderIsNotIdempotent`.
- Texts and truth values of named types are lost, or make the rewriting panic: `ConfigTree.RewriteAgreesIffUnnamed`,
  `ConfigTree.RewritePanicsIffNamedInside`, `ConfigTree.NamedTextIsLostOrPanics`.
- A second `Start` loses the pool: `PostgresRestart.PoolIsLostOnlyBySecondStart`,
  `PostgresRestart.SecondStartLosesPool`.
- `Stop` does not cancel a restart that is asleep, so a stopped pool comes back:
  `PostgresRestart.PoolComesBackOnlyByRestart`, `PostgresRestart.StopDoesNotCancelRestart`.
- The size limit does not bound the cache's index: `CacheRuns.IndexHoldsWrites`, `CacheRuns.LimitDoesNotBoundIndex`.
- `Start` may reuse the wait group before an earlier `Stop` has returned from it:
  `ReaperLifecycle.ReusedTooEarlyIffStopStillWaits`, `ReaperLifecycle.StartOvertakesStop`.
- A failed submit leaves earlier parts registered: `SmsCorrelation.FailedCallLeavesEarlierParts`,
  `SmsCorrelation.FirstPartStaysBehind`.
- A hit that meets an expired record is not counted: `Fail2Bans.FrequentOffenderIsBanned` with its bound, and
  `Fail2Bans.OneHitLessNeedNotBan` with a run for every count.

## Model

| member | source | states |
|---|---|---|
| ExpireHeaps.ExpireHeap.Swap | cache/memcachettl/memCacheTTL.go:32 | exchanges two entries, so the multiset of entries stays |
| ExpireHeaps.ExpireHeap.Append | cache/memcachettl/memCacheTTL.go:33 | the slice's own `Push` appends without reordering |
| ExpireHeaps.ExpireHeap.CutLast | cache/memcachettl/memCacheTTL.go:34-40 | the slice's own `Pop` removes and returns the last entry |
| ExpireHeaps.ExpireHeap.Up | cache/memcachettl/memCacheTTL.go:28-33 | sifting one misplaced entry up restores heap order and keeps the entries |
| ExpireHeaps.ExpireHeap.DownRound | cache/memcachettl/memCacheTTL.go:28-33 | one round of sifting down exchanges the misplaced entry with its earlier child, or finds the prefix in heap order |
| ExpireHeaps.ExpireHeap.Down | cache/memcachettl/memCacheTTL.go:28-40 | sifting one misplaced entry down restores heap order on the prefix, keeps the entries and leaves the rest of the slice alone |
| ExpireHeaps.ExpireHeap.Push | cache/memcachettl/memCacheTTL.go:131 | `heap.Push` keeps heap order and adds exactly the new entry |
| ExpireHeaps.ExpireHeap.Pop | cache/memcachettl/memCacheTTL.go:150 | `heap.Pop` keeps heap order and removes exactly one entry, of least expiry among all |
| ExpireHeaps.RootIsLeast | cache/memcachettl/memCacheTTL.go:149 | the root of an ordered heap expires no later than any entry |
| TtlCache.Cache.PopExpiredLocked | cache/memcachettl/memCacheTTL.go:148-156 | terminates, keeps the index sound and leaves exactly the items and index entries that expire after `now`, whatever stale entries the heap holds |
| TtlCache.Cache.Set | cache/memcachettl/memCacheTTL.go:114-132 | the whole new memory and whether the entry was stored, with the limit check, the expiry pass and a fresh number |
| TtlCache.Cache.StoreLocked | cache/memcachettl/memCacheTTL.go:128-131 | the storing half of `Set`: item and index entry get a number no earlier write can have used |
| TtlCache.Cache.GetUnderReadLock | cache/memcachettl/memCacheTTL.go:159-169 | first section of `Get`: missing, found, or expired strictly before `now`; nothing changes |
| TtlCache.Cache.GetUnderWriteLock | cache/memcachettl/memCacheTTL.go:172-185 | second section of `Get`: looks again, deletes only an item that is still expired, returns one that was written meanwhile |
| TtlCache.Cache.Delete | cache/memcachettl/memCacheTTL.go:189-193 | removes the item and leaves its index entry behind |
| TtlCache.Cache.CheckTTL | cache/memcachettl/memCacheTTL.go:196-203 | an expiry pass, with the sizes before and after |
| TtlCache.Cache.SetMaxEntries | cache/memcachettl/memCacheTTL.go:134-138 | changes the limit only |
| TtlCache.Cache.constructor | cache/memcachettl/memCacheTTL.go:105-111 | an empty cache with an empty index and no limit |
| TtlCache.PurgeRound | cache/memcachettl/memCacheTTL.go:149-155 | one popped entry that is due takes away only the item it was written for, so no live overwrite is lost |
| CacheRuns.CacheRefinesPlainMap | cache/memcachettl/memCacheTTL.go:114-203 | in every interleaving the cache holds a part of the plain map, and what it lacks has expired |
| CacheRuns.GetAnswersFromPlainMap | cache/memcachettl/memCacheTTL.go:159-186 | in every interleaving a `Get` answers the last stored, undeleted value strictly before its expiry and nothing strictly after; at that instant either |
| CacheRuns.GetAtExpiryInstant | cache/memcachettl/memCacheTTL.go:159-186 | at the instant of expiry it answers the value unless an expiry pass ran at that instant |
| CacheRuns.ReadSectionAnswersUnlessExpired | cache/memcachettl/memCacheTTL.go:159-171 | the read section answers at once, unless it finds its key stored and strictly expired |
| CacheRuns.WriteSectionHasReadSectionsKey | cache/memcachettl/memCacheTTL.go:172-185 | the write section of a `Get` looks up the key of its own read section |
| CacheRuns.WriteSectionDropsExpired | cache/memcachettl/memCacheTTL.go:172-185 | a write section that finds nothing leaves its key out of the cache, and every section leaves the other items alone |
| CacheRuns.SizeNeverExceedsLimit | cache/memcachettl/memCacheTTL.go:118-126 | with a fixed positive limit no reachable cache holds more items |
| CacheRuns.RefusedIffFullOfLiveKeys | cache/memcachettl/memCacheTTL.go:118-126 | a `Set` is refused if and only if its key is not live and the limit is filled by keys that expire after the time checked; a present key is never refused |
| CacheRuns.RefusedIffLimitReached | cache/memcachettl/memCacheTTL.go:114-138 | whatever `SetMaxEntries` does during a run, a `Set` is refused if and only if a limit is in force, its key is not cached and at least that many keys expire after the time checked; without a limit everything is stored |
| CacheRuns.IndexSoundAlways | cache/memcachettl/memCacheTTL.go:128-153 | in every reachable state each item has its index entry, numbers are distinct and at most `nextSeq`, and an equal number implies an equal expiry |
| CacheRuns.ExpiryPassLeavesLiveItems | cache/memcachettl/memCacheTTL.go:148-156 | in every reachable state an expiry pass leaves exactly the keys whose last stored value expires later, with that value and their index entries |
| CacheRuns.IndexHoldsWrites | cache/memcachettl/memCacheTTL.go:118-156 | in every interleaving the index consists of one entry for each stored `Set` that was not due at any later expiry pass, overwritten and deleted ones included |
| CacheRuns.IndexIsBoundedByWrites | cache/memcachettl/memCacheTTL.go:128-131 | the index never has more entries than `Set`s were stored |
| CacheRuns.LimitDoesNotBoundIndex | cache/memcachettl/memCacheTTL.go:118-131 | for every n, n `Set`s of one key under a limit of 1 leave one item and n index entries |
| ReaperLifecycle.ReaperGate.StartLocked | cache/memcachettl/memCacheTTL.go:59-70 | installs a new channel and clears `stopped` unless a channel is installed |
| ReaperLifecycle.ReaperGate.StopLocked | cache/memcachettl/memCacheTTL.go:71-80 | takes the channel away and sets `stopped`, or finds it set already |
| ReaperLifecycle.NeverClosedTwice | cache/memcachettl/memCacheTTL.go:81-83 | in every interleaving of `Start` and `Stop` no channel is closed twice |
| ReaperLifecycle.GateFollowsLastCall | cache/memcachettl/memCacheTTL.go:59-80 | a channel is installed if and only if the last call was a `Start`, and `stopped` is set if and only if it was a `Stop` |
| ReaperLifecycle.StartSpawnsUnlessStarted | cache/memcachettl/memCacheTTL.go:59-70 | `Start` spawns one reaper with a new channel, unless the last call was a `Start` too |
| ReaperLifecycle.StopWaitsUnlessStopped | cache/memcachettl/memCacheTTL.go:71-90 | `Stop` returns at once if and only if the last call was a `Stop`; otherwise it waits, and closes the channel first if a `Start` came before |
| ReaperLifecycle.StopGoesOn | cache/memcachettl/memCacheTTL.go:81-102 | a call that has closed its channel waits, one that has waited is done, and a reaper that leaves is gone from the wait group |
| ReaperLifecycle.NobodyIsStuck | cache/memcachettl/memCacheTTL.go:59-102 | in every reachable state a closing `Stop`, a `Stop` waiting for no reaper and a reaper told to leave can go on |
| ReaperLifecycle.EveryReaperIsAccountedFor | cache/memcachettl/memCacheTTL.go:59-102 | `stopped` implies no current channel; each running reaper's channel is the current one, held by exactly one `Stop`, or closed, and only one of these |
| ReaperLifecycle.StopReturnsWithoutReapers | cache/memcachettl/memCacheTTL.go:84-89 | when a `Stop` that waited returns, no reaper runs and every channel ever made is closed |
| ReaperLifecycle.ReusedTooEarlyIffStopStillWaits | cache/memcachettl/memCacheTTL.go:67-84 | `Start` raises the wait group from zero under a waiting `Stop` if and only if it is called after the last reaper left and before every such `Stop` has returned |
| ReaperLifecycle.StartOvertakesStop | cache/memcachettl/memCacheTTL.go:59-90 | a run in which that happens |
| SuspectedTable.Suspected.Sweep | web/gin/middleware/fail2ban/suspected.go:41-45 | deletes exactly the records whose window is over, in any order of visits |
| SuspectedTable.Suspected.Incr | web/gin/middleware/fail2ban/suspected.go:36-61 | the whole new table and the count: new record, counted hit, or a hit dropped with its expired record, after a due sweep |
| SuspectedTable.Suspected.Del | web/gin/middleware/fail2ban/suspected.go:63-67 | removes the record of one address |
| SuspectedTable.Suspected.constructor | web/gin/middleware/fail2ban/suspected.go:26-28 | no records, never swept |
| SuspectedTable.CountsAreBacked | web/gin/middleware/fail2ban/suspected.go:36-61 | in every interleaving of hits and deletions each count is backed by that many hits of its address inside the record's window |
| SuspectedTable.CountRestsOnHits | web/gin/middleware/fail2ban/suspected.go:47-60 | a returned count is never negative, and a positive one rests on that many hits inside one watch period around the hit |
| SuspectedTable.SweptOnlyWhenLarge | web/gin/middleware/fail2ban/suspected.go:40-46 | records of other addresses go exactly in a sweep and exactly when over; a sweep needs more than 1024 records and more than 30 seconds since the last |
| SuspectedTable.OwnRecord | web/gin/middleware/fail2ban/suspected.go:47-60 | the address's own record: one hit more inside its window, gone with the hit after it, new without one or after a sweep |
| SuspectedTable.DeletesOne | web/gin/middleware/fail2ban/suspected.go:63-67 | a deletion takes one record and leaves all else, the time of the last sweep included |
| SuspendedTable.Suspended.Add | web/gin/middleware/fail2ban/suspended.go:20-24 | the ban lasts until `now` plus the ban period, replacing an earlier one |
| SuspendedTable.Suspended.Sweep | web/gin/middleware/fail2ban/suspended.go:31-35 | deletes exactly the bans that are over |
| SuspendedTable.Suspended.Is | web/gin/middleware/fail2ban/suspended.go:26-48 | the answer and the whole new table, with the due sweep and the deletion on a late read |
| SuspendedTable.Suspended.constructor | web/gin/middleware/fail2ban/suspended.go:16-18 | no bans, never swept |
| SuspendedTable.IsAnswersLikeAppendOnlyTable | web/gin/middleware/fail2ban/suspended.go:20-48 | in every run `Is` holds if and only if the address was added and its last ban has not ended before now |
| SuspendedTable.BansSweptOnlyWhenLarge | web/gin/middleware/fail2ban/suspended.go:30-48 | bans of other addresses go exactly in a sweep, under the same conditions; the address's own stays if and only if it holds |
| Fail2Bans.Fail2Ban.constructor | web/gin/middleware/fail2ban/fail2ban.go:18-27 | empty tables, the threshold one below the configured count |
| Fail2Bans.Fail2Ban.ProcessStatusNotFound | web/gin/middleware/fail2ban/fail2ban.go:47-56 | both tables after a 404: a count above the threshold moves the address from the counters to the bans |
| Fail2Bans.Fail2Ban.Handle | web/gin/middleware/fail2ban/fail2ban.go:31-44 | banned addresses are turned away before the inner handler, others are counted when it answers 404 |
| Fail2Bans.BanRestsOnEnoughHits | web/gin/middleware/fail2ban/fail2ban.go:47-51 | whatever interleaving came before, a ban rests on at least `WatchCount` hits of the address inside one watch period |
| Fail2Bans.UnbannedHitsGetCloser | web/gin/middleware/fail2ban/suspected.go:47-60 | every hit of an address that does not ban it lowers the number of further hits that surely will |
| Fail2Bans.FrequentOffenderIsBanned | web/gin/middleware/fail2ban/fail2ban.go:47-56 | anywhere in any run, 2·WatchCount−1 hits of one address inside a watch period ban it by the last of them |
| Fail2Bans.OneHitLessNeedNotBan | web/gin/middleware/fail2ban/suspected.go:54-57 | for every count of at least 2 there is a run with 2·WatchCount−2 such hits and no ban |
| Fail2Bans.BannedAddressIsTurnedAway | web/gin/middleware/fail2ban/fail2ban.go:31-42 | after a ban every request of the address is turned away until the ban period is over, whatever comes in between |
| Fail2Bans.OffenderIsShutOut | web/gin/middleware/fail2ban/fail2ban.go:29-56 | through the whole middleware, an address not yet banned that gets 2·WatchCount−1 answers 404 inside a watch period, turned-away requests included, is shut out for a ban period |
| Fail2BanVerdicts.CountersFollowNotFounds | web/gin/middleware/fail2ban/fail2ban.go:31-44 | in every run the counters are what the 404 answers to requests let in make of them; nothing else counts |
| Fail2BanVerdicts.BanRestsOnNotFounds | web/gin/middleware/fail2ban/fail2ban.go:31-56 | a request that gets its address banned is itself answered 404, and at least WatchCount requests of the address up to it were let in and answered 404 inside one watch period |
| Fail2BanVerdicts.TurnedAwayIffLastBanLasts | web/gin/middleware/fail2ban/fail2ban.go:31-42 | in every run a request is turned away if and only if its address was banned before and the last ban has not ended |
| Fail2BanVerdicts.RequestTidiesBans | web/gin/middleware/fail2ban/fail2ban.go:31-56 | what one request leaves in the ban table, its own address and every other |
| Fail2BanVerdicts.RequestTidiesCounters | web/gin/middleware/fail2ban/fail2ban.go:31-56 | what one request leaves in the counters: nothing changes unless it was let in and answered 404, and other addresses lose their records only in a sweep |
| SmsCorrelation.SMSCenter.Register | smsc/smsc.go:441-444 | the part waits with its channel, other waiters stay |
| SmsCorrelation.SMSCenter.TakeWaiter | smsc/smsc.go:296-301 | whoever finds a waiter removes it in the same section |
| SmsCorrelation.SMSCenter.DropWaitingParts | smsc/smsc.go:373-379 | no part waits any more |
| SmsCorrelation.SMSCenter.DropWaitingPartsFrom | smsc/smsc.go:381-387 | exactly the messages from the given index on stop waiting |
| SmsCorrelation.StepKeepsSound | smsc/smsc.go:288-453 | every step keeps one active call, one right to send per channel, and every id on its way an answer for its channel's part |
| SmsCorrelation.ReturnedIdAnswersOwnPart | smsc/smsc.go:337-371 | in every interleaving a returned id was sent in answer to a part submitted by the same call |
| SmsDelivery.ReturnsWhatDecidedIt | smsc/smsc.go:345-371 | a call returns the timeout error if and only if its timeout fired, and otherwise the id that woke it, which is the one its last forwarder before passed on |
| SmsDelivery.PassedIdWaits | smsc/smsc.go:347-362 | an id passed on stays in the result channel until the call wakes up |
| SmsDelivery.IdIsNeverLost | smsc/smsc.go:288-360 | the id of a response that finds its part waiting stays with its handler, in its channel or with its forwarder, until that forwarder passes it on or its call has returned |
| SmsDelivery.WaitingCallHasSubmittedAll | smsc/smsc.go:345-359 | a call that waits has submitted all the parts its text was split into and has one forwarder for each |
| SmsDelivery.HolderIsNeverStuck | smsc/smsc.go:337-371 | whoever holds `sendMu` always has a step to take, without any response |
| SmsDelivery.IdsCanMove | smsc/smsc.go:302-357 | nothing blocks an id on its way: handlers can deliver, listening forwarders can take what is there, and pass it on when the result channel is free |
| SmsDelivery.AnsweredCallReturnsId | smsc/smsc.go:288-371 | for every id a run in which a part is answered and its call returns that id |
| SmsCorrelation.DeliveryNeverLosesAnId | smsc/smsc.go:302-306 | the non-blocking send always finds its channel empty and unused, so its default never drops an id |
| SmsCorrelation.AtMostOneIdPerChannel | smsc/smsc.go:441-443 | each part channel receives at most one value |
| SmsCorrelation.NothingWaitsWhenCallLeaves | smsc/smsc.go:362-370 | `waitChs` is empty when a call that got past `sendSMS` releases `sendMu` |
| SmsCorrelation.StepKeepsWaitersKnown | smsc/smsc.go:296-301 | every step keeps a registered part waiting exactly as long as it is neither dropped, taken back nor answered |
| SmsCorrelation.WaitingPartsAreTheUnanswered | smsc/smsc.go:288-453 | at any moment `waitChs` holds exactly the parts registered since the last `dropWaitingParts` that were neither taken back nor answered |
| SmsCorrelation.FailedCallLeavesEarlierParts | smsc/smsc.go:445-448 | after a failed submit exactly those parts of the call wait that were submitted before it and got no response; nothing waits if and only if every part registered since the last drop was answered or taken back |
| SmsCorrelation.FirstPartStaysBehind | smsc/smsc.go:445-448 | a run of two parts whose second submit fails and whose first part stays in `waitChs` |
| RabbitConnection.RabbitMQ.StartLocked | mq/rabbitmq/rabbitMQ.go:100-102 | clears `stopped` and nothing else |
| RabbitConnection.RabbitMQ.StopLocked | mq/rabbitmq/rabbitMQ.go:122-126 | sets `stopped`, leaves nothing installed and hands over what was |
| RabbitConnection.RabbitMQ.CloseConnLocked | mq/rabbitmq/rabbitMQ.go:225-241 | closes exactly what is installed and installs nothing |
| RabbitConnection.RabbitMQ.DialLocked | mq/rabbitmq/rabbitMQ.go:254-262 | installs the new connection unless stopped |
| RabbitConnection.RabbitMQ.ChannelLocked | mq/rabbitmq/rabbitMQ.go:278-285 | installs the new channel only if its connection is still the installed one |
| RabbitConnection.KeepsConserved | mq/rabbitmq/rabbitMQ.go:116-286 | every step keeps each opened resource in exactly one place and holds none twice |
| RabbitConnection.EveryResourceIsAccountedFor | mq/rabbitmq/rabbitMQ.go:116-286 | in every interleaving each opened connection or channel is installed, closed, or held by one step that will install or close it |
| RabbitConnection.NothingIsClosedTwice | mq/rabbitmq/rabbitMQ.go:116-286 | whatever a step closes was opened and is not closed yet |
| RabbitConnection.InstalledChannelBelongsToConnection | mq/rabbitmq/rabbitMQ.go:266-286 | an installed channel belongs to the installed connection |
| RabbitConnection.NothingIsOverwritten | mq/rabbitmq/rabbitMQ.go:254-285 | the loop installs only over empty fields |
| RabbitConnection.NothingInstalledAfterStop | mq/rabbitmq/rabbitMQ.go:122-126 | after `Stop`'s section nothing is installed again until `Start` |
| RabbitInstalls.StoppedIffLastWasStop | mq/rabbitmq/rabbitMQ.go:100-126 | `stopped` is set if and only if the last call of `Start` or `Stop` was a `Stop` |
| RabbitInstalls.LoopRunsUntilItLeaves | mq/rabbitmq/rabbitMQ.go:116-286 | the loop runs from `Start` until it leaves by itself; no failed dial or channel ends it |
| RabbitInstalls.DialInstallsUnlessStopped | mq/rabbitmq/rabbitMQ.go:254-262 | a new connection is installed unless the last call was a `Stop`, and then kept to be closed |
| RabbitInstalls.ChannelIsInstalledUnlessStopped | mq/rabbitmq/rabbitMQ.go:266-286 | a channel is opened, and then installed, if and only if no `Stop` came since the connection was installed; otherwise it is closed at once |
| RabbitInstalls.ConnectsWhenUndisturbed | mq/rabbitmq/rabbitMQ.go:243-286 | a loop left alone ends with a connection and a channel of it installed |
| RabbitInstalls.NobodyIsStuck | mq/rabbitmq/rabbitMQ.go:116-286 | a running loop and an unfinished `Stop` always have a step to take |
| RabbitConnection.EverythingIsClosedInTheEnd | mq/rabbitmq/rabbitMQ.go:116-286 | once the loop has left and all `Stop` calls have returned, everything ever opened is closed |
| PostgresRestart.PostgreSQL.Start | db/postgres/postgreSql.go:71-78 | refused during a restart, otherwise the pool fields after `doStart` |
| PostgresRestart.PostgreSQL.DoStart | db/postgres/postgreSql.go:80-142 | the pool fields for every way `doStart` can end, also with a pool left installed by a failed check |
| PostgresRestart.PostgreSQL.DoStop | db/postgres/postgreSql.go:150-169 | closes the installed pool and clears both fields |
| PostgresRestart.PostgreSQL.GetDB | db/postgres/postgreSql.go:177-187 | nothing without a pool, otherwise the wrapper that is there, or a new one if there is none |
| PostgresRestart.PostgreSQL.BeginRestartLocked | db/postgres/postgreSql.go:208-228 | lets one restart in, raises the backoff, draws the delay and closes the pool |
| PostgresRestart.PostgreSQL.EndRestartLocked | db/postgres/postgreSql.go:237-246 | opens the new pool, resets the backoff on success and ends the restart either way |
| PostgresRestart.RestartFindsNoPool | db/postgres/postgreSql.go:208-247 | at most one restart is in flight and its `doStart` never overwrites a pool |
| PostgresRestart.StartIsLetInUnlessRestarting | db/postgres/postgreSql.go:71-142 | `Start` is refused if and only if a restart sleeps, and otherwise installs the pool it opened with a new wrapper, whatever its checks say |
| PostgresRestart.RestartIsLetInUnlessRestarting | db/postgres/postgreSql.go:208-228 | `DoRestart` is let in if and only if no other restart sleeps, and then leaves no pool installed |
| PostgresRestart.RestartInstallsItsPool | db/postgres/postgreSql.go:236-247 | after its sleep a restart installs the pool it opens and lets the next one in |
| PostgresRestart.WrapperIffPool | db/postgres/postgreSql.go:80-187 | as long as no `Start` is let in over a pool, there is a wrapper if and only if there is a pool |
| PostgresRestart.PoolIsLostOnlyBySecondStart | db/postgres/postgreSql.go:71-78 | a pool is lost if and only if `Start` is let in while one is installed and its configuration parses |
| PostgresRestart.SecondStartLosesPool | db/postgres/postgreSql.go:71-78 | the run of two successful `Start` calls that loses the first pool |
| PostgresRestart.NothingIsLost | db/postgres/postgreSql.go:71-247 | without such a `Start` every pool ever opened is the installed one or closed |
| PostgresRestart.GetDBOnlyReads | db/postgres/postgreSql.go:177-187 | in every run `GetDB` answers a wrapper of the installed pool, and never has to open one |
| PostgresRestart.OneWrapperPerPool | db/postgres/postgreSql.go:80-187 | all `GetDB` calls that find the same pool get the same wrapper, whatever comes in between |
| PostgresRestart.StopDoesNotCancelRestart | db/postgres/postgreSql.go:144-148 | a run in which a restart that was asleep during `Stop` opens a new pool |
| PostgresRestart.PoolComesBackOnlyByRestart | db/postgres/postgreSql.go:144-247 | after a `Stop` and until the next `Start` or `DoRestart`, a pool is installed if and only if a restart begun before opened one that no later `Stop` took away |
| PostgresRestart.JitterStaysWithinAFifth | db/postgres/postgreSql.go:249-255 | the delays that can be drawn are exactly those within a fifth of the backoff on either side |
| PostgresRestart.BackoffCountsAttempts | db/postgres/postgreSql.go:215-222 | the backoff is a function of the attempts since the last successful restart |
| PostgresRestart.DelayOfConsecutiveAttempt | db/postgres/postgreSql.go:214-223 | the k-th of them backs off min(5s·2^(k−1), 5min) and sleeps a fifth less than that plus the number drawn, so that give or take a fifth |
| Jasypt.GetDerivedKey | crypt/jasypt/jasypt.go:16-22 | key and initialisation vector are the two halves of PBKDF1's 16 octets; a count below 1 acts as 1 |
| Jasypt.DoEncrypt | crypt/jasypt/jasypt.go:24-41 | the ciphertext of section 6.1.1 of RFC 8018 |
| Jasypt.DoDecrypt | crypt/jasypt/jasypt.go:43-65 | plaintext or error, judging the padding by its last octet |
| Jasypt.Encrypt | crypt/jasypt/jasypt.go:67-80 | base64 of the salt followed by the ciphertext |
| Jasypt.Decrypt | crypt/jasypt/jasypt.go:82-94 | every error path, and the decryption of what follows the first eight octets |
| Jasypt.CbcRoundTrips | crypt/jasypt/jasypt.go:36-58 | CBC encryption and decryption are inverse in both directions |
| Pbes1Laws.CbcChains | crypt/jasypt/jasypt.go:36-38 | each ciphertext block is the block cipher of the bitwise sum of its plaintext block and of the ciphertext block before it, the first of the initialisation vector |
| Pbes1Laws.CiphertextBlockByBlock | crypt/jasypt/jasypt.go:16-41 | the whole ciphertext by blocks: padding, chain from the second half of the iterated hash, key the first half |
| Pbes1Laws.IteratedHashIsLast | crypt/jasypt/jasypt.go:16-22 | the derived octets are the last link of the chain of hashes that starts with password and salt |
| Pbes1Laws.HowDecryptEnds | crypt/jasypt/jasypt.go:43-94 | which error `Decrypt` gives for which text, and the plaintext it gives for all others |
| Jasypt.FrameOpens | crypt/jasypt/jasypt.go:79-94 | the decoded frame is the eight octets of the salt and then the ciphertext |
| Jasypt.TextDecryptsToPlaintext | crypt/jasypt/jasypt.go:24-65 | the standard's and the code's decryption both undo encryption, whatever octets the plaintext ends in |
| Jasypt.DecryptUndoesEncrypt | crypt/jasypt/jasypt.go:67-94 | `Decrypt` undoes `Encrypt` for every password, count, salt and plaintext |
| Jasypt.DecryptAgainstStandard | crypt/jasypt/jasypt.go:59-64 | the code departs from section 6.1.2 if and only if the decrypted octets end in a number from 1 to 8 but not in that many octets of it; then it accepts what the standard rejects |
| Jasypt.MalformedPaddingIsAccepted | crypt/jasypt/jasypt.go:59-64 | under every password, salt and count such a text exists: the encryption of a block ending in 0, 2 |
| Jasypt.StandardAcceptsExactlyCiphertexts | crypt/jasypt/jasypt.go:24-65 | section 6.1.2 accepts exactly the texts that encrypt some plaintext; what the code accepts beyond it encrypts none |
| Jasypt.EncryptUndoesDecryptIffWellPadded | crypt/jasypt/jasypt.go:24-65 | encrypting a decrypted text again gives the text back if and only if its padding is well formed |
| Sieve.MarkedIffComposite | utils/utilsNumbers.go:15-21 | marking from i·i on and stopping once i·i reaches the table's size marks exactly the composites |
| Sieve.MarkMultiples | utils/utilsNumbers.go:17-19 | the inner loop leaves every multiple of `i` with a cofactor of at least `i` marked, and marks composites only |
| Sieve.SieveOfEratosthenes | utils/utilsNumbers.go:10-31 | exactly the primes p with max(M,2) ≤ p < N, ascending without repeats, for all M and N |
| Utf8.OctetLayout | utils/utilsString.go:156 | the octets of a scalar value as the table of section 3 of RFC 3629 lays them out |
| Utf8.DecoderAcceptsExactlyEncodings | utils/utilsString.go:114 | a rune is decoded if and only if the string starts with a scalar value's octets, and it is that value |
| Utf8.DecodeAllUndoesEncodeAll | utils/utilsString.go:152-156 | decoding undoes encoding for all sequences of scalar values |
| Utf8.Utf8IffReencoded | utils/utilsString.go:152-156 | decoding and encoding again gives the string back if and only if it is UTF-8 |
| RuneStrings.Reverse | utils/utilsString.go:151-157 | the in-place swap loop yields the encoding of the reversed rune sequence |
| RuneStrings.ReverseIsInvolutionIffUtf8 | utils/utilsString.go:151-157 | reversing twice gives the string back if and only if it is UTF-8 |
| RuneStrings.SingleInvalidByteIsReplaced | utils/utilsString.go:151-157 | a single byte from 0x80 on comes back as the three bytes of U+FFFD |
| RuneStrings.RunesOfReverse | utils/utilsString.go:151-157 | rune k of the result is rune n-1-k of the string, and the result is UTF-8 |
| RuneStrings.SubStr | utils/utilsString.go:105-133 | the one-pass byte offsets select the wanted decoding units, with 64-bit addition and the panics |
| RuneStrings.SubStrSlicesRunes | utils/utilsString.go:105-133 | on every string the result's runes are the slice of the string's runes, empty beyond its end |
| RuneStrings.SubStrOfUtf8 | utils/utilsString.go:105-133 | on UTF-8 the result is the encoding of that slice |
| RuneStrings.SliceInsideString | utils/utilsString.go:118-132 | for a start inside the string the byte bounds found in one pass cut out the wanted units, or are out of order when the sum overflows |
| RuneStrings.WhenSubStrPanics | utils/utilsString.go:118-132 | in runes, the arguments for which the `None` of the contract of `SubStr`, its panic, arises: negative ones inside the string, and sums that overflow; from the end of the string on the result is empty |
| RuneStrings.LargestLengthPanics | utils/utilsString.go:129-132 | on every ASCII string of at least two letters a start of 1 with the largest length panics, and with one less gives the rest |
| DirectoryIds.ReadSubAuthority | ldap/utils.go:129-132 | shifting and or-ing four bytes gives their little-endian number |
| DirectoryIds.ReadAuthority | ldap/utils.go:117-120 | the loop over the six bytes gives their big-endian number |
| DirectoryIds.DecodeSID | ldap/utils.go:111-141 | the printed parts of complete bytes, the empty text for all others |
| DirectoryIds.ParseUndoesSidText | ldap/utils.go:111-141 | the printed text can be read back to the bytes it was made of |
| DirectoryIds.SidTextIsEmptyIffIncomplete | ldap/utils.go:113-128 | the text is empty if and only if header or announced sub-authorities are missing |
| DirectoryIds.SidTextIsInjective | ldap/utils.go:111-141 | two complete inputs print alike if and only if they agree on the announced bytes |
| DirectoryIds.GuidToOctetString | ldap/utils.go:44-55 | the digit pairs in index order behind backslashes, or nothing unless 32 characters remain |
| DirectoryIds.OctetStringOfOthers | ldap/utils.go:44-55 | 32 characters other than braces and dashes give their pairs in index order behind backslashes |
| DirectoryIds.OctetStringNeeds32 | ldap/utils.go:46-49 | any other number of them gives nothing |
| DirectoryIds.BracesAndDashesAreIgnored | ldap/utils.go:18-46 | a brace or dash anywhere changes nothing |
| DirectoryIds.DashedLayout | ldap/utils.go:88-109 | 36 characters with dashes at 8, 13, 18 and 23 and the digits of the right bytes between them; nothing for fewer than 16 bytes |
| DirectoryIds.OctetStringOfDashedIsRaw | ldap/utils.go:44-109 | printing a GUID and escaping the text gives its 16 bytes in raw order |
| DirectoryIds.DashedStringIsInjective | ldap/utils.go:88-109 | two GUIDs print alike if and only if their 16 bytes agree |
| ConfigTree.BasicConfig.ModifyStruct | app/v3/config/basic/config.go:101-128 | replaces the struct behind the pointer by its rewritten fields, a field whose value changes its type left zero; panics on anything else, and on a value of another type inside a container, without replacing it |
| ConfigTree.RetypedOrPanics | app/v3/config/basic/config.go:130-221 | a value changes its type if and only if pointers lead to a text or truth value of a named type, and rewriting it panics if and only if one lies in a container inside it |
| ConfigTree.RewritePanicsIffNamedInside | app/v3/config/basic/config.go:101-221 | rewriting the configuration panics if and only if such a value lies in a container inside a field |
| ConfigTree.RewriteAgreesIffUnnamed | app/v3/config/basic/config.go:101-221 | `modifyStruct` agrees with `modifyValue` at the root if and only if the configuration holds no such value |
| ConfigTree.NamedTextIsLostOrPanics | app/v3/config/basic/config.go:119-123 | a text of a named type is lost as a field of the root, and panics inside a slice |
| ConfigTree.RewrittenScalars | app/v3/config/basic/config.go:101-311 | every scalar of a rewritten configuration has the preferred value, except that fields leading to one of a named type are zero |
| ConfigTree.RewriteIdempotent | app/v3/config/basic/config.go:101-128 | under a stable decoder a rewritten configuration is rewritten to itself |
| ConfigTree.ModifyKeepsShape | app/v3/config/basic/config.go:130-221 | nil-ness, lengths, map keys, fields and types stay, for every tree, if and only if it holds no text or truth value of a named type |
| ConfigTree.ModifyAtEveryPlace | app/v3/config/basic/config.go:130-221 | every place stays, under the tag of its field, and is rewritten on its own |
| ConfigTree.ScalarPrecedence | app/v3/config/basic/config.go:223-330 | environment over own non-zero value over default, for every kind of scalar; a negative zero is zero |
| ConfigTree.PrecedenceAtEveryPlace | app/v3/config/basic/config.go:130-330 | the same at every place of every tree |
| ConfigPrecedence.SetVariableWins | app/v3/config/basic/config.go:223-311 | a variable that is set and spells a value of the type decides, whatever the own value and the default |
| ConfigPrecedence.SetVariableArrives | app/v3/config/basic/config.go:243-260 | a number that fits the field arrives unchanged |
| ConfigPrecedence.UnusableVariableIsIgnored | app/v3/config/basic/config.go:223-311 | a variable that is not set or does not parse is as good as none |
| ConfigPrecedence.OwnValueBeatsDefault | app/v3/config/basic/config.go:223-330 | without a variable a value that is not zero stays, an encoded text decoded |
| ConfigPrecedence.DefaultReplacesZero | app/v3/config/basic/config.go:223-330 | without a variable a zero value becomes what its default spells |
| ConfigPrecedence.DurationReplacesZero | app/v3/config/basic/config.go:243-252 | for an integer the default may be a duration |
| ConfigPrecedence.UnusableDefaultIsIgnored | app/v3/config/basic/config.go:223-311 | a default that does not parse is as good as none |
| ConfigPrecedence.DecodedIsDecoding | app/v3/config/basic/config.go:233-239 | exactly a text in `ENC(...)` is decoded, and stays if that fails |
| ConfigPrecedence.EveryPlaceFollowsItsTag | app/v3/config/basic/config.go:101-221 | all these rules hold at every place of the configuration, under the tag of its field |
| ConfigTree.IdempotentIffDecoderStable | app/v3/config/basic/config.go:223-241 | rewriting twice equals rewriting once, for all trees and tags, if and only if what the decoder yields is neither empty nor decodes further |
| ConfigTree.EmptyDecoderIsNotIdempotent | app/v3/config/basic/config.go:223-241 | under a decoder that yields the empty text the second rewriting replaces it by the default |

## Left out

- Broker, SMPP, database, HTTP and logging calls: each is a nondeterministic success, failure or new resource.
- Liveness and real time: clocks are parameters that never go back; that timers fire and goroutines run is not claimed.
- Machine width: the cache's `nextSeq`, loop counters and array indexes are unbounded; `SubStr`'s addition and the
  integer conversions of the configuration wrap as the code's do. `int` is taken to have 64 bits.
- The panic that `sync.WaitGroup` may raise when it is reused too early: in `ReaperLifecycle` the earlier `Stop` waits
  on.
- Cache values, map keys of the configuration and message ids carry no structure; `GetAll` and `Size` are not modelled.
- The cache's warning about its limit, and the fields that only feed log messages.
- `SendMessage`'s retry loop and session restart around `sendMessage`, and its dry-run answer.
- Two RabbitMQ reconnect loops at once: `Start` is modelled only when no loop is running. The flags `connected` and
  `confirms`, the consumer workers, publishing, and the reconnect delay are not part of the model.
- `doStart`'s pool options and the notification listener beyond whether they make it fail; `doStop` never reports an
  error,
  so `DoRestart`'s branch for one is not modelled.
- DES, MD5 and base64 themselves, and the random source of the salt.
- Loading the YAML file, named pointer types, unexported struct fields and the contents of interface values; floats are
  bit patterns whose conversion to 64 bits and back is assumed to change nothing.
- Strings are modelled byte by byte: in `RuneStrings` and `Jasypt` as byte sequences, elsewhere as one character per
  byte.
- Conformance of the printed SID authority to its standard text form: it is always hexadecimal without a prefix.
- The remaining packages (HTTP clients, mail, LDAP queries, other databases, process listing, other codecs and ciphers).
