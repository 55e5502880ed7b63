# MailAPI: verified model

MailAPI takes mail over SMTP, queues it, ingests it with workers that may see a message several times, and lists,
deletes and pushes it over HTTP. This Dafny project models the parts of it whose correctness depends on interleavings,
arithmetic or parsing, and proves what they are for.

`dafny verify dfyconfig.toml` checks everything.

## The pieces

**Ingestion and quota** (`MailStore`, `Ingest`, `IngestQuota`, `IngestSafety`, `IngestOverlap`, `IngestOverrun`,
`Store`, `IngestWorker`, `IngestAck`, `IngestOutcome`, `Delivery`). `Ingest` is a state machine in which any number of
worker attempts, soft deletions, recalculations, expiries and crashes take turns, one store call at a time; each call
may succeed, fail, or take effect and lose its answer. The *drift* of an account is `used` minus everything it ought to
cover: live messages, held reservations, and bytes marked deleted but not yet released. `IngestQuota.DriftChange` is the
table of the steps that move it and by how many bytes; the accounting identity says that nothing else does. No account
exceeds a positive quota on runs on which no recalculation overlaps other work on its account, no insert's answer is
lost and no message is deleted twice (`IngestOverlap.Calm`). Each of the three conditions is needed, and a run shows it:
two attempts storing twice the quota because the recalculation of one forgets the reservation of the other, a stored
message whose attempt rolled back, a message whose bytes were released twice. What an overlapping recalculation leaves
uncovered is given exactly. `IngestWorker` and `Delivery` are the worker and the queue callback as imperative code over
the class `Store`. Between two store calls everybody else may do anything, so what is proved of the code holds in every
interleaving: each attempt is an attempt of the machine, and every callback replies exactly once: Ack only when each
distinct recipient was stored or failed for good, Term only when all failed for good. Every outcome has its cause among
the attempt's own calls, and a redelivered mail that is stored already is acknowledged unless a call fails.

**Listing and deletion** (`CursorToken`, `MailOrder`, `Paging`, `Traversal`, `BulkDelete`, `Store`, `Handlers`).
Messages are ordered by creation time and id, newest first. A client that follows `nextCursor` while the store changes
sees a strictly descending list with every message that stays; on a fixed store it sees what skip paging shows. The
delete loop in batches marks exactly what one large delete would.

**Rate limiting** (`BlockCache`, `RateLimit`, `RateRefinement`, `RateDivergence`, `Admission`, `RateWindows`,
`RateLimiter`). The limiter with a block cache per process runs beside the plain counter, fed with the same requests. As
long as every block lies within a full window, each answer of the cached limiter is the plain one's at a moment of the
call. That condition is exact: after a reading of the remaining time that breaks it, some continuation gets a refusal
the plain limiter would have given at no moment of the call. Within the refusing window it is a comparison of two times,
and it holds whenever the remaining time is read before the window's last millisecond. For every limit and window a run
without failures shows the other case: a remaining time that reads as zero is replaced by a whole window, and the block
outlives its window.

**Server-sent events** (`SseHub`, `SseSafety`, `SseDelivery`, `SseServer`). Every lock-protected region of the hub is
one step of a machine; `SseServer.Hub` is the hub's code on its own maps, each region proved to be that step.

**Codec** (`Powers`, `Varint`, `Codec`, `CodecLaws`, `CodecIO`, `QueueHeaders`). The binary form with base-128 varints
(unsigned LEB128, section 7.6 of the DWARF 5 standard) on explicit 64-bit words, and the header form the queue uses now.

**Smaller refinements**: the message preview (`Intro`), the token cache (`TokenCache`, `Auth`; the exp and nbf rules are
those of sections 4.1.4 and 4.1.5 of RFC 7519), the set of unknown addresses (`TtlSet`), parent-domain matching
(`Domains`). `Wrappers`, `Totals`, `MapSize`, `FreshIds` and `Strings` are shared.

Where the code and its comments disagree, the model follows the code: the pause before resubscribing is said to stop at
30 s and reaches 32 s (`SseSafety.PauseTop`), and the block cache is said to last until the window resets, which fails in
the window's last millisecond (`RateDivergence.LateTtlDiverges`).

## Model

| member | source | states |
|---|---|---|
| IngestQuota.StepAccounting | internal/worker/worker.go:335-369 | Accounting identity, one step: in every interleaving of attempts, deletions, recalculations, expiries and crashes the drift of an account changes by exactly the table's entry for the step, zero for all steps not named there |
| IngestQuota.WorkAccounting | internal/worker/worker.go:313-511 | The same for the steps of an attempt: lookup, dedup, reserve, recalculate, reserve again, insert, roll back |
| IngestQuota.MarkAccounting | internal/store/store.go:1483-1498 | Marking a document moves the drift by what leaves the live total minus what the deletion will release; a racing second delete lowers it by the message's size |
| IngestQuota.ReleaseAccounting | internal/handler/message_bulk.go:120-128 | A release moves the drift only if it fails or is cut off at zero |
| IngestQuota.RecalcWriteAccounting | internal/store/store.go:836-872 | A recalculation's write moves the drift by the value written minus the value found |
| IngestSafety.RunAccounting | internal/store/store.go:773-872 | Over every run `used` = live bytes + held reservations + unreleased bytes + initial drift + the sum of the table's entries |
| IngestOverlap.QuotaNeverExceeded | internal/store/store.go:803-834 | On every run from an empty system on which no recalculation overlaps other work on its account, no insert's answer is lost and no message is deleted twice, live bytes + reservations + unreleased bytes <= `used` <= quota for every account with a positive quota |
| IngestOverlap.OverlapDrift | internal/store/store.go:836-872 | With the aggregate read at one moment of a run and written at another, the drift after the write is exactly the live total at the read, less the live total, reservations and unreleased bytes at the write |
| IngestOverlap.RecalculationCoversExactly | internal/store/store.go:836-872 | If the account's live documents do not change in between, the write covers the account exactly when nothing is held or about to be released at that moment; then it also repairs every earlier drift |
| IngestOverlap.AttemptRecalculationCoversExactly | internal/worker/worker.go:345-349 | The same for the recalculation inside an attempt |
| IngestOverlap.AloneIsNoOverlap | internal/worker/worker.go:345-349 | It is enough that nobody stores or deletes on the account, and nothing of it expires, while a recalculation is pending |
| IngestOverrun.ConcurrentRecalculationOverruns | internal/worker/worker.go:345-358 | The condition on recalculations is needed: a fault-free run of two attempts that stores 20 bytes under a quota of 10 |
| IngestOverrun.LostInsertUncovers | internal/worker/worker.go:498-511 | So is the one on lost answers: a run that ends with a stored message of 10 bytes and `used` at 0 |
| IngestOverrun.DoubleDeletionUncovers | internal/handler/message.go:197-229 | From any state two racing deletions of one live message lower the drift by its size |
| IngestOverrun.DoubleDeletionReached | internal/store/store.go:1483-1498 | So the condition on double deletion is needed: a run without fault or crash that ends 10 bytes short |
| IngestSafety.SafeStep | internal/worker/worker.go:335-369 | Coverage and quota are kept by every step that loses no insert, marks no document twice and writes no recalculated value below what is owed, whoever takes it |
| IngestSafety.RollbackIsExact | internal/worker/worker.go:361-369 | Where accounts are covered, an attempt that gives up (also after losing the insert race) takes exactly its own reservation back; the cut at zero never bites |
| IngestSafety.ReleaseIsExact | internal/handler/message_bulk.go:120-128 | The same for the release after a soft deletion |
| IngestSafety.AtMostOnce | internal/store/store.go:250-256 | Any two documents seen under one (account, stream, seq > 0) at any two moments of a run without expiry are the same document, so redelivery never re-creates a deleted message |
| IngestSafety.AtMostOnceNow | internal/store/store.go:876-890 | With expiry allowed, at most one document per ingest key at every moment |
| IngestSafety.RunWellFormed | internal/store/store.go:957-980 | Uniqueness of ingest keys is kept by every run |
| IngestSafety.RunKeepsMessage | internal/worker/worker.go:498-511 | Without expiry a stored document stays, with its ingest key |
| Store.Store.TryReserveAccountUsed | internal/store/store.go:803-834 | Adds the bytes exactly when they fit the quota (or there is none) and says whether it did |
| MailStore.RefusedExactly | internal/store/store.go:803-834 | A reservation is refused exactly if the account is gone or has a quota that the bytes would exceed; a granted one adds the bytes within the quota |
| Store.Store.UpdateAccountUsed | internal/store/store.go:773-801 | Adds the difference, never below zero |
| Store.Store.AggregateLive | internal/store/store.go:836-860 | The loop's sum is the live total of the account |
| Store.Store.HasMessageByIngest | internal/store/store.go:957-980 | Finds a document of the key, deleted or not |
| Store.Store.CreateMessage | internal/store/store.go:876-890 | Inserts unless the id or the unique partial index refuses; the answer tells which |
| Store.Store.GetAccountIDByAddress | internal/store/store.go:706-747 | Answers with an account of the normalised address, or that there is none |
| IngestWorker.ProcessForRecipient | internal/worker/worker.go:313-535 | With arbitrary interference between any two store calls, the code of one recipient is one attempt of the machine run to its end, with the outcome it returns |
| IngestWorker.ReserveQuota | internal/worker/worker.go:340-359 | Reserve, recalculate once if refused, reserve again: the attempt ends up holding the bytes or done |
| IngestWorker.StoreReserved | internal/worker/worker.go:361-511 | The deferred rollback runs exactly when bytes were reserved and nothing was committed |
| IngestAck.SuccessMeansStored | internal/worker/worker.go:313-535 | An attempt that ends in success saw a message under its ingest key on its recipient's account while it ran |
| IngestOutcome.OutcomeCaused | internal/worker/worker.go:313-535 | Every outcome has its cause among the attempt's own calls: success a document found under its key or its message stored as unread; failure for good an unknown address, an unparsable message, or a second reservation refused by an exceeded quota or a missing account; a retry a failed call; a panic one in parsing |
| IngestOutcome.RetryRecalculates | internal/worker/worker.go:345-358 | No reservation is refused for good before the attempt has recalculated what the account uses |
| IngestOutcome.StoredEndsInSuccess | internal/worker/worker.go:323-333 | An attempt for a message that is stored, deleted or not, for the recipient's one account ends in success if none of the calls made for it fails |
| Delivery.DeduplicatedExactly | internal/worker/worker.go:250-269 | The normalised list holds the distinct non-blank normalised recipients, each once |
| Delivery.RecipientsExactly | internal/worker/worker.go:250-269 | The addresses an attempt is made for are exactly those the mail names, whatever their spelling |
| Delivery.RecipientsOnce | internal/worker/worker.go:250-269 | Several spellings of one address get one attempt |
| Delivery.CollectRecipients | internal/worker/worker.go:250-269 | The loop with the seen set computes that list |
| Delivery.ProcessMessage | internal/worker/worker.go:242-299 | Gives a message up only when every distinct recipient failed for good (or there is none), ends without a retry only when each was stored or failed for good, and asks for one only when some attempt was cut short |
| Delivery.HandleDelivery | internal/queue/queue.go:234-326 | Exactly one of Ack, Nak, Term per callback, panics included, and each for its reason: Term for a malformed message or one whose recipients all failed for good, Nak with the pause due at this delivery when an attempt was cut short, Nak with five seconds after a panic, Ack when every recipient is settled |
| Delivery.AckMeansStored | internal/queue/queue.go:324-325 | Ack implies that each distinct recipient had, in this delivery, a document found or stored, with ingest metadata one under its key, or failed for good with a cause |
| Delivery.TermMeansRefused | internal/queue/queue.go:299-304 | Term on a decoded message implies that each distinct recipient was unknown, unparsable or over quota in this delivery |
| Delivery.NakMeansFault | internal/queue/queue.go:306-322 | Nak on a decoded message implies that a call for one of its recipients failed or parsing panicked |
| Delivery.RedeliveryIsAcked | internal/worker/worker.go:323-333 | The redelivery of a mail stored for all its recipients is acknowledged, not terminated, if no call made for it fails |
| Delivery.PauseDoubles | internal/queue/queue.go:306-320 | One second for the first two deliveries, then doubled up to 30; one second without metadata |
| Delivery.KeyFromMetadata | internal/queue/queue.go:245-254 | A mail has an ingest key exactly if its stream has a name and its sequence number is positive and fits an int64 |
| Delivery.BackOff | internal/queue/queue.go:306-320 | The code computes that pause |
| CursorToken.TokenRoundTrip | internal/store/store.go:1365-1383 | The token `<unix_ms>.<hex>` parses back to the same pair for every int64 and every 12-byte id |
| CursorToken.IntRoundTrip | internal/handler/message.go:94-99 | Decimal printing and parsing are inverse on all of int64 |
| CursorToken.ObjectIdIsNoToken | internal/store/store.go:1169-1211 | A plain message id is never taken for a token |
| CursorToken.HexIgnoresCase | internal/store/store.go:1169-1211 | Ids are read in either case |
| MailOrder.SortFacts | internal/store/store.go:1041-1043 | The listing holds exactly the matching keys, each before all later ones |
| MailOrder.SortAfter | internal/store/store.go:1195-1211 | Seeking past an element continues the listing right behind it |
| MailOrder.Find | internal/store/store.go:1212-1251 | The sorted find with a limit, as a loop, is a prefix of the listing |
| Paging.ListedExactly | internal/store/store.go:1102-1107 | The listing holds exactly the account's live messages, of these only the seen or only the unseen ones if that is asked for, newest first |
| Paging.SeenSplits | internal/store/store.go:1082-1107 | The seen and the unseen listing are disjoint and together are the whole one |
| Traversal.FlagMoves | internal/store/store.go:1393-1423 | Marking a message as seen or unseen moves it into that listing and out of the other, and moves no other message |
| Traversal.StoredIsUnseen | internal/worker/worker.go:397-414 | A message just stored is listed as unseen, under the time of its storing |
| Paging.NextCursorResolves | internal/handler/message.go:94-99 | The cursor the handler prints leads exactly behind the page's last message |
| Paging.LegacyCursorAgrees | internal/store/store.go:1169-1194 | The id cursor of a live matching message gives the page its token gives |
| Paging.ChainAgreesWithSkip | internal/store/store.go:1082-1143 | On a fixed store page p by chained cursors is page p by skip |
| Paging.ChainEnds | internal/store/store.go:1253-1361 | The chain is empty at page p exactly when p * n messages have been shown |
| Paging.BlankCursorStarts | internal/store/store.go:1253-1361 | Without a cursor the first page is shown: 30 messages unless a number is given, never more than 100 |
| Paging.GoneCursor | internal/store/store.go:1169-1194 | Once its message is gone an id cursor is refused, while its token still leads behind that position |
| Traversal.TraversalComplete | internal/store/store.go:1253-1361 | While the store changes, the pages are strictly descending and every message that stays is shown exactly once by the first empty page |
| Traversal.TraversalOfRun | internal/handler/message.go:20-109 | The same for pages read at increasing moments of any run of the ingestion machine |
| Traversal.ShownDescending | internal/store/store.go:1253-1361 | Whatever happens between pages, nothing is shown twice |
| Traversal.RunKeepsIdentity | internal/store/store.go:876-890 | A document keeps owner and creation time while it exists, and its id is never reused |
| Store.Store.ListMessages | internal/store/store.go:1082-1143 | Skip paging returns the slice of the listing: live messages of the account with the flag asked for, newest first |
| Store.Store.ListMessagesAfter | internal/store/store.go:1253-1361 | The page behind a cursor text: start, token, old id cursor, or the error for each bad one; live messages of the account with the flag asked for, newest first |
| BulkDelete.NextBatch | internal/store/store.go:1525-1567 | With n messages of the listing marked, the next read finds the listing from position n on |
| BulkDelete.MarkFrees | internal/store/store.go:1553-1567 | Marking a slice takes exactly its summed size off the live total |
| BulkDelete.RepeatFindsNothing | internal/handler/message_bulk.go:151-199 | A second delete of the same ids finds nothing and changes nothing |
| BulkDelete.RepeatTakesTheRest | internal/store/store.go:1500-1573 | A second delete by account takes what the limit left over |
| BulkDelete.ChosenExactly | internal/store/store.go:1500-1523 | A delete by account takes the newest live messages with the flag asked for, as many as there are up to the limit: 5000 if none is given, at most 20000 |
| BulkDelete.ParseIdsExactly | internal/store/store.go:1575-1592 | The ids of a request are exactly those its texts write; one that writes none spoils it |
| BulkDelete.FoundExactly | internal/store/store.go:1593-1626 | A delete by ids marks the account's own live messages among them and changes no other document |
| Store.Store.SoftDeleteMessagesByAccount | internal/store/store.go:1500-1573 | The loop in batches of at most 1000 marks exactly the newest min(limit, matching) messages, returns each once with the exact sum, and terminates |
| Store.Store.SoftDeleteMessagesByIDs | internal/store/store.go:1575-1626 | Marks each live message of the account among the ids once; a text that is no id rejects the call unchanged |
| Store.Store.DeleteMessage | internal/store/store.go:1483-1498 | Matches on the id alone |
| Handlers.DeleteMessages | internal/handler/message_bulk.go:85-148 | On a quiescent account the bulk delete keeps `used` minus live bytes when `used` covered them, and reports count, sum and truncation |
| Handlers.BulkDeleteMessagesByIDs | internal/handler/message_bulk.go:151-199 | The same by ids; a repeat deletes and releases nothing |
| Handlers.DeleteMessage | internal/handler/message.go:197-229 | Missing, foreign or deleted by its owner, with the release |
| BlockCache.OperationsKeepBlocks | internal/cache/cache.go:288-372 | Lookups and sweeps change no later answer; a block changes only its key's |
| BlockCache.ExpiredAreDropped | internal/cache/cache.go:288-372 | A sweep leaves exactly the keys that are blocked, a lookup leaves its own key only if it is |
| BlockCache.BlockCache.IsBlocked | internal/cache/cache.go:288-314 | True exactly for an unexpired entry; an expired one is dropped and counted |
| BlockCache.BlockCache.Block | internal/cache/cache.go:316-339 | The size counter stays the number of entries and a positive bound is respected |
| BlockCache.BlockCache.Sweep | internal/cache/cache.go:358-372 | Leaves exactly the unexpired entries |
| RateRefinement.StepInv | internal/cache/cache.go:106-158 | One access of one request keeps both counters in the same windows and equal below the limit, and every entry and pending block within a full window, if a block decided now lies within one |
| RateRefinement.CountStep | internal/cache/cache.go:147-152 | A request that is counted gets the plain limiter's answer at that moment |
| RateRefinement.CachedRefinesPlain | internal/cache/cache.go:136-158 | On every such run of any number of processes and interleaved requests, each answer is the plain limiter's at a moment of the call, although the clock is captured before the cache is asked and refused requests are not counted |
| RateRefinement.HarmlessWithinWindow | internal/cache/cache.go:123-133 | A reading within the refusing window is harmless exactly when the block it leads to ends with that window |
| RateRefinement.TimelyIsHarmless | internal/cache/cache.go:123-133 | A remaining time read before the window's last millisecond, added to the clock value captured before, ends within the window |
| RateRefinement.TimelyRunsRefine | internal/cache/cache.go:123-158 | So runs with timely reads need no further assumption |
| RateRefinement.FallbackHarmlessExactly | internal/cache/cache.go:128-131 | An unusable answer, in the last millisecond or after an error, is harmless exactly when a whole window from the captured clock value ends with the refusing window |
| RateDivergence.HarmlessExactly | internal/cache/cache.go:123-133 | Where the cache has room for the key, a reading is harmless if and only if every continuation without a further harmful one gives only answers of the plain limiter |
| RateDivergence.BlockEndExactly | internal/cache/cache.go:128-132 | Within the refusing window this is the comparison of the block's end with the window's end |
| RateDivergence.HarmfulDiverges | internal/cache/cache.go:142-145 | After any harmful reading setting the block and one more call give a refusal the plain limiter would give at no moment of that call |
| RateDivergence.LateTtlDiverges | internal/cache/cache.go:128-132 | For every positive limit and every window of more than a nanosecond there is such a run from the start without any fault |
| Admission.AdmittedPerWindow | internal/cache/cache.go:31-39 | In every set of decisions to let a request of a key through, in windows with one expiry, there are at most `limit` |
| Admission.CountOrder | internal/cache/cache.go:31-39 | A later counted request has a higher count in the same window, or its window starts after the earlier one's end |
| Admission.AdmittedPerStretch | internal/cache/cache.go:136-158 | At most 2 * limit decisions to let a request of a key through fall into any half-open stretch of the configured window, cut to whole milliseconds |
| RateWindows.SharesWindow | internal/cache/cache.go:105-114 | A request counted at least a millisecond before the configured window is over is counted in the window an earlier one opened |
| RateWindows.StartsNewWindow | internal/cache/cache.go:105-114 | One counted a millisecond or more after it is over is counted in a later window (windows of at least a millisecond) |
| RateWindows.LetThroughExactly | internal/cache/cache.go:147-157 | A counted request is let through exactly if fewer than `limit` requests for its key were counted in its window before it |
| RateWindows.BlockReachesEnd | internal/cache/cache.go:123-133 | A block set from a timely reading ends with the window, short of a millisecond and of the time since the request captured the clock |
| RateWindows.AnswersAreDecisions | internal/cache/cache.go:136-158 | Over every run a request is told what was decided on it: let through only by a count within the limit, refused only by a count beyond it or a block |
| RateLimiter.Cache.CheckRateLimit | internal/cache/cache.go:136-158 | Under arbitrary interference, also between capturing the clock and looking into the cache, the call is one request of the machine, and its answer the decision recorded there |
| RateLimiter.Cache.BlockUntilWindowReset | internal/cache/cache.go:123-133 | Sets the block that follows from the recorded reading of the remaining time and the request's own clock value: the remaining time, or a window when that is no use |
| SseSafety.StepInv | internal/handler/sse_hub.go:43-140 | Every region of every caller keeps the hub's invariant |
| SseSafety.NoDoubleClose | internal/handler/sse_hub.go:126-140 | No stop channel is closed twice, and every channel in a client map is open |
| SseSafety.RemovedStaysEmpty | internal/handler/sse_hub.go:87-124 | A topic that left the hub never returns and never has a client again |
| SseSafety.AllReleasedNoTopic | internal/handler/sse_hub.go:87-112 | Once every handle of an account has been unsubscribed no topic of it remains, dropped handles that met a newer topic included |
| SseSafety.OpenExactlyWhileAttached | internal/handler/sse_hub.go:114-124 | A channel is open exactly while it is in its topic's map, so an unsubscribed one is always closed |
| SseSafety.DeliveryIsSegment | internal/handler/sse_hub.go:197-211 | What a client was sent is a contiguous piece of its topic's broadcasts from subscription on, gapless while attached, at most 16 unread |
| SseDelivery.BroadcastDelivers | internal/handler/sse_hub.go:197-211 | A broadcast reaches each channel of the topic with fewer than 16 payloads unread, which stays attached; one with 16 unread is dropped and closed; other channels see nothing |
| SseDelivery.AttachedIsAddressed | internal/handler/sse_hub.go:197-211 | A broadcast to an account's topic addresses every attached subscriber of the account |
| SseDelivery.DroppedOnlyWhenFull | internal/handler/sse_hub.go:197-211 | Over every run a subscriber that has not unsubscribed is attached, unless a broadcast found 16 payloads unread |
| SseSafety.QuietGaugesAreExact | internal/handler/sse_hub.go:64-84 | With no gauge change outstanding the gauges show the attached clients and the hub's topics |
| SseSafety.SweepFindsNothing | internal/handler/sse_hub.go:134-139 | The final loop of `close` finds no client |
| SseSafety.PauseTop | internal/handler/sse_hub.go:184-193 | The pause before resubscribing doubles up to 32 seconds and stays there |
| SseServer.Hub.Join | internal/handler/sse_hub.go:44-69 | The region of `Subscribe` is the machine's step |
| SseServer.Hub.Leave | internal/handler/sse_hub.go:87-112 | The region of `unsubscribe` is the machine's step |
| SseServer.Hub.RemoveClient | internal/handler/sse_hub.go:114-124 | Deletes and closes the channel if present, and says who is left |
| SseServer.Hub.Broadcast | internal/handler/sse_hub.go:197-211 | The loop over the clients serves or drops each as the machine's step says |
| SseServer.Hub.SweepTopic | internal/handler/sse_hub.go:134-139 | The closing loop empties the map and closes what was in it |
| SseServer.Hub.Subscribe | internal/handler/sse_hub.go:43-85 | The whole call, interfered with after the lock: the handle is live and the call raised the client gauge once, and the topic gauge once exactly if it made the topic |
| SseServer.Hub.Unsubscribe | internal/handler/sse_hub.go:78-112 | The first call detaches and closes the channel, lowers the gauges by exactly what it removed, and stops the topic exactly if it was left empty; a further call does nothing |
| SseServer.Hub.FinishClose | internal/handler/sse_hub.go:126-140 | After the run loop has ended the rest of `close` changes no topic and no channel |
| Varint.UvarintRoundTrip | internal/queue/codec.go:143-147 | Every 64-bit value is read back, whatever follows |
| Varint.FitsExactly | internal/queue/codec.go:176-179 | The test on the tenth byte is the test that the value fits into 64 bits |
| Varint.Shortest | internal/queue/codec.go:159-187 | The encoder's bytes are the shortest for their value, and the bytes read exactly when these end in no superfluous zero |
| CodecIO.Reader.ReadUvarint | internal/queue/codec.go:159-187 | The loop with shifts and bitwise or on 64-bit words returns the sum of (b mod 128) * 128^i, rejects exactly the truncated and overflowing inputs, and leaves the offset alone on failure |
| CodecIO.OrDigit | internal/queue/codec.go:181-184 | Or-ing a shifted digit into the word adds it and shifts nothing out |
| CodecIO.Reader.ReadString | internal/queue/codec.go:189-204 | The piece and the offset behind it, or the limit and truncation errors |
| CodecIO.Reader.ReadBytes | internal/queue/codec.go:206-221 | The same for the raw message |
| CodecIO.DecodeIncomingEmail | internal/queue/codec.go:75-141 | The decoder fills in exactly the email `Codec.Decode` defines, or reports its error, reading inside the data only |
| CodecIO.EncodeIncomingEmail | internal/queue/codec.go:26-73 | Encodes exactly the emails within the limits, and names the limit otherwise |
| CodecLaws.RoundTrip | internal/queue/codec.go:26-141 | decode(encode(e)) = e for every email within the limits, any number of recipients, every int64 receive time |
| CodecLaws.ExtensionRejected | internal/queue/codec.go:136-139 | Accepted bytes with anything appended are rejected as trailing |
| CodecLaws.PrefixRejected | internal/queue/codec.go:84-139 | A proper prefix of at least 5 bytes of accepted bytes is rejected |
| CodecLaws.AcceptedIsEncodable | internal/queue/codec.go:75-141 | An accepted email is within the encoder's limits, encodes to bytes that decode to it, no longer than what was read, and equal to it exactly when every length, the count and the time in what was read are minimal varints |
| CodecLaws.NonMinimalAccepted | internal/queue/codec.go:159-187 | So encoding after decoding is not the identity on bytes: for every email without a sender a two-byte zero is accepted as its length |
| CodecLaws.EncodedExactly | internal/queue/codec.go:26-73 | An email is encoded exactly within the limits (16384 bytes a string, 2048 recipients, 64 MiB), behind "MAIL" and version 1 |
| QueueHeaders.PublishedIsReceived | internal/queue/queue.go:122-220 | What `Publish` writes into headers is read back, recipients trimmed and blank ones dropped |
| QueueHeaders.RoundTripExactly | internal/queue/queue.go:187-199 | The email comes back unchanged exactly when every recipient is non-blank and without surrounding space |
| QueueHeaders.AcceptedExactly | internal/queue/queue.go:82-120 | A mail is accepted exactly within the limits and without line breaks in sender, peer address and recipients |
| QueueHeaders.KeptAppend | internal/queue/queue.go:187-199 | The recipients kept are the published ones in order, trimmed, without blank ones |
| QueueHeaders.FormExactly | internal/queue/queue.go:169-175 | Headers are read as this form exactly if they name it, in any case and with any space around it |
| QueueHeaders.RejectedExactly | internal/queue/queue.go:159-220 | Headers are rejected exactly for a receive time that is no number, for more than 2048 values, or for what `Publish` refuses |
| QueueHeaders.Publish | internal/queue/queue.go:122-146 | Refuses what validation objects to, otherwise builds the headers |
| QueueHeaders.DecodeFromHeaders | internal/queue/queue.go:159-220 | Leaves other messages alone; otherwise fills in the email or reports the first error |
| QueueHeaders.Validate | internal/queue/queue.go:82-120 | Objects exactly to a broken limit or a line break, in this order |
| Intro.NormalizeWhitespaceLimited | internal/worker/worker.go:566-623 | One scan gives the words joined by single spaces if they fit, otherwise the longest piece of that within the budget not ending in a space, and says which |
| Intro.GenerateIntro | internal/worker/worker.go:552-564 | The cut carries three dots; a negative budget is none |
| Intro.FullSnoc | internal/worker/worker.go:579-619 | How one more rune changes the joined words |
| Intro.CutUnique | internal/worker/worker.go:611-613 | There is only one longest piece |
| TokenCache.TokenCache.Get | internal/auth/token_cache.go:36-67 | Answers exactly with unexpired entries; the counter stays the number of entries, at most the bound |
| TokenCache.TokenCache.Put | internal/auth/token_cache.go:69-109 | Keeps only claims with a future expiry, and no new token when full |
| TokenCache.TokenCache.MaybeSweep | internal/auth/token_cache.go:111-134 | If due, leaves exactly the unexpired entries |
| TokenCache.OperationsKeepTokens | internal/auth/token_cache.go:36-134 | A token just taken is found until its expiry, every other one as before; no lookup and no sweep loses one before its time |
| TokenCache.SweepsOncePerInterval | internal/auth/token_cache.go:111-134 | The first call sweeps, leaving exactly the unexpired tokens, later calls once the interval has passed and no earlier |
| Auth.Auth.ValidateToken | internal/auth/auth.go:59-93 | The method computes the specified answer and leaves the specified cache |
| Auth.AnswerExactly | internal/auth/auth.go:59-93 | On every run, whatever the clock does, an answer is what validation without the cache gives at one of the two times the call read, exactly unless it is a cache hit before the token's nbf |
| Auth.CacheIsTransparent | internal/auth/auth.go:59-93 | Under a monotone clock that never happens, so each answer of every run is validation's at one of the two times the call read |
| Auth.SameAnswer | internal/auth/auth.go:64-90 | So the cache changes no answer for a token whose validity does not change between these two |
| Auth.AcceptedIsUsable | internal/auth/auth.go:59-93 | On every run an accepted token parses to the claims answered and had not expired at a time the call read; under a monotone clock it had also begun by then |
| Auth.UsableIsAccepted | internal/auth/auth.go:59-93 | A parsed token usable when checked is accepted, one expired by both readings is answered as expired, one that does not parse or has not begun as invalid |
| Auth.ClockSetBack | internal/auth/token_cache.go:55-66 | The monotone clock is needed: set back before nbf, a token seen once is still accepted although validation refuses it |
| TtlSet.TtlSet.Contains | internal/smtp/server.go:321-340 | True exactly for an unexpired entry |
| TtlSet.TtlSet.Add | internal/smtp/server.go:342-356 | Sets the expiry and sweeps when due |
| TtlSet.TtlSet.MaybeSweep | internal/smtp/server.go:358-402 | After a sweep no entry is expired, at most the bound remain, and nothing live was given up unless there were more |
| Domains.TailsExact | internal/domainutil/domainutil.go:16-32 | The candidates are exactly the non-empty suffixes at label boundaries |
| Domains.TailsShrink | internal/domainutil/domainutil.go:16-32 | Longest first |
| Domains.Candidates | internal/domainutil/domainutil.go:16-32 | Splitting and joining labels computes them |
| Domains.BestIsLongest | internal/domainutil/domainutil.go:35-60 | There is a match as soon as one suffix is a key, and it is the longest such |
| Domains.BestIsParent | internal/domainutil/domainutil.go:35-60 | A match is a suffix and a key |
| Domains.SubdomainMatches | internal/domainutil/domainutil.go:35-46 | Labels put before a matching normalised name leave a match, at least as long |
| Domains.MatchSet | internal/domainutil/domainutil.go:35-46 | The loop finds that match |
| Domains.MatchMapKey | internal/domainutil/domainutil.go:49-60 | The same over a map's keys |
| Domains.MatchSlice | internal/domainutil/domainutil.go:63-77 | The same over the listed names except blank ones and the wildcard |
| Domains.ResolveDomain | internal/domainutil/domainutil.go:80-103 | The longest active suffix, and the last active entry of that name |
| Domains.ResolvedExactly | internal/domainutil/domainutil.go:80-103 | A name is resolved exactly if an active entry is a parent of it or the name itself, and then to one at least as long as each such entry |
| Domains.AllowedExactly | internal/domainutil/domainutil.go:63-77 | A name is allowed exactly if a listed name other than the wildcard is a parent of it or the name itself |
| Strings.NormalizeTwice | internal/domainutil/domainutil.go:10-12 | Normalising twice is normalising once |
| Strings.LowerExactly | internal/domainutil/domainutil.go:10-12 | Lower-casing identifies two texts exactly if they differ in nothing but the case of letters |
| Strings.SpaceDoesNotMatter | internal/domainutil/domainutil.go:10-12 | White space around a name does not matter |
| Strings.OnlySpaceIsTrimmed | internal/domainutil/domainutil.go:10-12 | Nothing else is trimmed |

## Left out

- Mongo, Redis, NATS and MinIO themselves: each is an abstract store, counter or queue whose calls are atomic; wire formats, transactions and replication are not modelled.
- Retried single-document updates that fail halfway: a batch update is one step here, except in the ingestion machine, where a deletion marks document by document and every mark may fail.
- MIME parsing and attachment upload: parsing succeeds, fails for good, or panics, as a parameter of the attempt.
- The objects of messages (upload, cleanup, garbage collection), the message's contents, SSE notifications of new mail and the account and count caches.
- The recalculation a bulk delete starts in the background: it is one of the recalculations of the ingestion machine.
- Changing flags in bulk, listing by text search, account and domain administration.
- IngestWorker.ProcessForRecipient: interference is a method `Interfere` known only by its contract; that the other actors keep to the machine is the assumption under which the worker is proved to keep to it as well, and the same holds for RateLimiter.Cache.CheckRateLimit and SseServer.Hub.Subscribe.
- Delivery.HandleDelivery: takes what decoding made of the payload as a parameter, because the codec works on bytes and recipients here are strings; a failing reply is not modelled.
- Paging.ChainAgreesWithSkip: page and skip counts are unbounded integers; the source multiplies in 64 bits.
- Store.Store.UpdateAccountUsed: the counter is an unbounded integer, so 64-bit overflow of `used` is not modelled.
- Store.Store.HasMessageByIngest: stream names are taken without surrounding space, which the source trims.
- Store.Store.SoftDeleteMessagesByAccount: the batches run undisturbed; what interleaved actors do to the account is covered by the ingestion machine.
- RateRefinement.CachedRefinesPlain: Redis and the processes read one clock, processes to the nanosecond and Redis to the millisecond, and the limit does not change.
- RateDivergence.HarmlessExactly: says nothing about a process whose cache is full and does not know the key, since that sets no block.
- BlockCache.BlockCache.Block: `LoadOrStore` followed by `Store` is one step, so the size counter is exact at the granularity of calls only; the same holds for TokenCache.TokenCache.Put and TtlSet.TtlSet.Add.
- TokenCache.TokenCache.Get: entries always have the cache's own type, so the branches for foreign values are left out.
- Auth.Auth.ValidateToken: decoding and the signature check against the fixed secret are a function parameter; times are unbounded.
- CodecIO.DecodeIncomingEmail: the JSON form of old messages is a function parameter, and what is left in the output after an error is not specified.
- QueueHeaders.DecodeFromHeaders: the branch for one comma-joined recipient value cannot be reached, since a header with a value takes the branch before it; it is left out, as are the limits a queue server puts on headers.
- Intro.NormalizeWhitespaceLimited: works on runes with their widths; decoding bytes into runes and which runes are white space are given.
- Domains.Candidates: case and white space are those of ASCII, here and wherever names are normalised.
- SseServer.Hub.Unsubscribe: ends where the source waits for the topic's run loop; FinishClose is what follows once that has ended.
- SSE subscriptions to Redis: the run loop's broadcasts and its end are steps of the machine, but messages lost while resubscribing are not.
- Eventual delivery: redelivery and stream age limits bound the retries, so only safety is stated.
