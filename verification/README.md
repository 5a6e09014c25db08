# Library of Context: verified model

A Dafny model of the core of the context cache: the durable outbox, the bounded prompt, the
caches in front of SQLite, and the machinery that publishes desks and shuts the process down.
`dafny verify dfyconfig.toml` checks all of it.

## The components

**The durable outbox** (`Values`, `Tables`, `SqliteStore`, `Protocol`, `ProtocolRuns`, `OutboxGuarantees`,
`WorkQueue`). The tables are maps; each transaction is a function on them, and the store's methods, which update the tables
row by row, are proved to perform exactly that function. `Protocol` interleaves the transactions of
any number of owners: append, claim, prepare, complete, mark, fail, release, operator retry,
protect, direct writes and deletes. Claim tokens come from a counter that stands for `uuid4`. Time
is an argument of each step and is not even assumed to advance. `ProtocolRuns` states what holds
over every run from the empty database, and what the calls without a token, which the indexer never
makes, would break; `OutboxGuarantees` what each call does, in the columns and fields a caller
sees. Metadata is a Python value; what is stored is what its JSON text keeps of it (`Values`).

**The bounded prompt** (`TextBudget`, `EventLog`, `RecentRing`, `ThreadState`, `ThreadRegistry`, `Markup`,
`MarkupReader`, `Packing`, `Prompt`, `PromptGuarantees`, `Session`, `SessionGuarantees`). Text is a
sequence of characters. The selections are compared with a
declarative notion of the greedy choice, the ring with the longest fitting suffix of the log, the
packers with the one packing that hits, budget and limit leave. What retrieval ranked, how the
clock renders and whether the desk registry has room (`admitted`, decided by
`Swapper.ContextSwapper.BeginRefresh`) are arguments. `MarkupReader` reads the rendered markup back.

**The caches** (`Scopes`, `Gates`, `ByteLru`, `RecordCache`, `RecordTiers`, `Filters`, `QueryCache`,
`QueryGuarantees`). `RecordCache` interleaves the steps of
any number of threads under the gate and the striped record locks; the assignment of records to
locks is arbitrary. `RecordTiers` is the engine's own sequence of SQLite, RAM and Redis for one thread.
`QueryCache` interleaves retrieves and writes protected by the generation alone; ranking is any
function of the question, the listed records that match the filters, the whole store as the search
finds it and the clock. `Filters` says what the cache key keeps of a request's filters.

**Publication, scheduling, shutdown** (`Swapper`, `Scheduler`, `Lifecycle`, `CacheEngine`). The desks and the
scheduler are objects whose methods are the sections that run under one lock; their invariants
hold between any two of them. `Lifecycle` interleaves operations, workers and close attempts;
`CacheEngine` is the engine's code for it, proved section by section to take those steps.

## Where the code and its documentation differ

`LibraryContextGovernor.record` promises that an identical retry is idempotent
(`context_cache/governor.py:142-147`). The store compares the requested protection with the event's
current one (`context_cache/store.py:1118-1145`), so after the event was released or protected the identical
retry is refused. It also compares the metadata with what JSON kept of them
(`context_cache/store.py:694`), so with a tuple, a key that is not text or a NaN that is not the
one object of JSON's own parser anywhere in the metadata the identical retry is always refused. `ProtocolRuns.RepeatedAppend` gives the exact condition, and
`ProtocolRuns.RetryAfterReleaseIsRefused` and `ProtocolRuns.RetryWithTupleIsRefused` two runs in which
the promise fails.

`ContextCache.set_thread_event_protected` changes the log but not the ring in memory
(`context_cache/engine.py:532-570`); `ThreadState.OutsideFlagAgrees` says exactly when that shows.

The seal that keeps operations out once they have drained is lifted by a repeated close
(`context_cache/engine.py:1066`), so a status operation can meet a closed SQLite.
`Lifecycle.StatusAfterStoreClosed` says exactly when, and `Lifecycle.StatusMayMeetClosedStore` gives a run.

The session's repair branch calls a packing method that a reading desk does not have
(`context_cache/session.py:224`). `Session.BuildPrompt` says exactly when a request fails there, `Session.NeverOverlong`
that it does not while the second of two clock readings renders at most 16 characters longer than
the first, and `Session.ClockSlackIsTight` that 16, and 30 with a system prompt, are exact.

The query cache is keyed by JSON text that writes as text what JSON cannot write
(`context_cache/engine.py:782-794`), while ranking compares the filters themselves
(`context_cache/retrieval.py:51-63`). Requests with different filters can so share a key, and one is then
given the other's answer: `QueryCache.DateAnswersText` is such a run, `Filters.TupleSharesKey` and
`Filters.NumberSharesKey` are two more pairs. `Filters.SameMatchesExactly` gives the exact condition under
which it makes no difference, and `Filters.PlainKeysAgree` a sufficient one on each request alone.

## Model

| member | source | states |
|---|---|---|
| Tables.AppendEvent | context_cache/store.py:1101-1239 | A refused append changes nothing; repeating a recorded event ID changes nothing and is accepted if and only if role, content, importance, protection, token count and record ID are each the recorded ones and the metadata compares equal with what JSON kept of it; a new event takes the next sequence of its thread and an unreserved, unused record ID, and adds exactly the head, the event and a pending row; metadata that cannot be written is refused. |
| Values.SameAfterRoundTrip | context_cache/store.py:686-694 | Metadata read back from its JSON text equals the metadata written exactly when it holds no tuple, no NaN but the one object that JSON's parser gives, and no key but text, at any depth. |
| Values.SameIsNormal | context_cache/retrieval.py:51-63 | A stored value equals a given one, objects that JSON cannot write included, exactly when some stored value does and the normal forms agree. |
| Tables.Upsert | context_cache/store.py:703-840 | A refused write changes nothing; an accepted one stores exactly the record, on the indexer's path only as the linked event's own projection, never on any other reserved record ID, and never changes the visibility of a stored record. |
| Tables.CompleteClaim | context_cache/store.py:853-943 | Only a live claim completes: record, outbox row and event change together or not at all. |
| Tables.MarkIndexed | context_cache/store.py:1543-1591 | The fenced mark finishes row and event together, or changes nothing. |
| Tables.FailClaim | context_cache/store.py:1593-1634 | A failure changes exactly the one row: one attempt more, a new due time, no lease, quarantined if it was the last attempt; a refused one changes nothing. |
| Tables.SetProtected | context_cache/store.py:1327-1408 | The flag changes on the one event and in the protection field of its own projection, if one is stored, and in no other field; every other record, every row and every head stays. |
| SqliteStore.SQLiteStore.AppendThreadEvent | context_cache/store.py:1101-1239 | The row-by-row append performs exactly the append transaction. |
| SqliteStore.SQLiteStore.UpsertRecord | context_cache/store.py:703-840 | The record write performs exactly the write transaction, with its four refusals. |
| SqliteStore.SQLiteStore.SelectThreadHeads | context_cache/store.py:1441-1463 | The selected rows are the first claimable thread heads in dispatch order: distinct, ordered, as many as the limit allows, and none left out comes before one taken. |
| SqliteStore.SQLiteStore.ClaimOutboxEvents | context_cache/store.py:1425-1507 | Exactly the selected rows are leased, each under a token never used before, and the claims report their keys, sequences and attempts. |
| SqliteStore.SQLiteStore.LeaseClaims | context_cache/store.py:1476-1502 | The UPDATE per claim, which repeats the lease condition, leases every selected row and no other. |
| SqliteStore.SQLiteStore.CompleteOutboxClaim | context_cache/store.py:853-943 | Completing a claim performs exactly the completion transaction, rolling everything back when the record write is refused. |
| SqliteStore.SQLiteStore.MarkThreadEventIndexed | context_cache/store.py:1543-1591 | With a token it performs the fenced mark transaction, without one the unconditional mark. |
| SqliteStore.SQLiteStore.FailOutboxEvent | context_cache/store.py:1593-1634 | With a token it performs the fenced failure transaction, without one it fails any row not processed. |
| SqliteStore.SQLiteStore.ReleaseOutboxClaim | context_cache/store.py:1521-1541 | One lease is dropped, exactly when its token matches and the row is not processed. |
| SqliteStore.SQLiteStore.ReleaseOutboxLeases | context_cache/store.py:1509-1519 | Every unprocessed row leased by the owner is released, and no other row changes. |
| SqliteStore.SQLiteStore.RetryFailedOutboxEvent | context_cache/store.py:1656-1681 | A quarantined row returns to work exactly when no other row of its thread is leased. |
| SqliteStore.SQLiteStore.SetThreadEventProtected | context_cache/store.py:1327-1408 | The flag is written to the event and to its own projection, if one is stored. |
| Protocol.StepKeepsInv | context_cache/store.py:1101-1681 | Each of the twelve kinds of transaction keeps all invariants of heads, log, rows, leases, records, prepared records, history and attempts. |
| Protocol.ClaimKeepsLeases | context_cache/store.py:1441-1503 | After a claim every leased row is still the active head of its thread, under its own fresh token. |
| Protocol.RetryKeepsLeases | context_cache/store.py:1656-1681 | Reviving a quarantined row never puts an active row below a leased one, because it is refused while another row of the thread is leased. |
| ProtocolRuns.AtMostOneLiveClaim | context_cache/store.py:1441-1503 | In every reachable state a thread has at most one leased row, and that row is its lowest active row. |
| ProtocolRuns.CompletesAtMostOnce | context_cache/store.py:864-942 | Over every run no event is completed twice. |
| ProtocolRuns.CompletesInOrder | context_cache/store.py:1452-1459 | Whenever an event completes, every lower sequence of its thread is processed or quarantined. |
| ProtocolRuns.TokensAreFresh | context_cache/store.py:1464-1474 | No step leases a row under a token granted before. |
| ProtocolRuns.SupersededTokenChangesNothing | context_cache/store.py:1552-1634 | Once no row is leased under a token, any later complete, mark, fail or release that presents it leaves the whole state unchanged, however the run went on. |
| ProtocolRuns.HeldUntilExpiry | context_cache/store.py:1444-1451 | In every reachable state a leased row is claimed again exactly when another owner finds the lease run out and the row due. |
| ProtocolRuns.ReleaseFreesHead | context_cache/store.py:1521-1541 | A released claim is open to every owner at once, subject only to its due time. |
| ProtocolRuns.FailureBacksOff | context_cache/store.py:1593-1634 | A failed claim is open to every owner exactly once its delay is over, and never if it was quarantined. |
| ProtocolRuns.RetryRevives | context_cache/store.py:1656-1681 | A retried row is open to every owner from now on, exactly when nothing below it in its thread is active. |
| ProtocolRuns.ActiveRowsHaveAttemptsLeft | context_cache/indexing.py:194-206 | In every reachable state an active row has failed fewer times than the limit. |
| ProtocolRuns.FailuresAreBounded | context_cache/indexing.py:194-206 | Over every run failures number at most max_attempts times appends plus operator retries. |
| ProtocolRuns.SequencesAreDense | context_cache/store.py:1163-1190 | In every reachable state a thread's sequences are exactly 1 to its recorded watermark. |
| ProtocolRuns.IndexedPrefix | context_cache/store.py:1683-1725 | The indexed watermark is the length of the longest fully indexed prefix. |
| ProtocolRuns.WatermarksNeverDecrease | context_cache/store.py:1683-1725 | No step lowers the recorded or the indexed watermark. |
| ProtocolRuns.EventsAreConserved | context_cache/store.py:1683-1725 | Processed plus pending plus failed events equal the recorded ones in every reachable state. |
| ProtocolRuns.EventsAreImmutable | context_cache/store.py:1101-1239 | Whatever runs, a recorded event keeps everything but its protection flag and index time. |
| ProtocolRuns.ReusedEventId | context_cache/store.py:1118-1145 | An event ID once recorded stands for its first draft through every run: a later append of it changes nothing and is accepted if and only if it asks for the same role, content, importance, token count and record ID, for the event's present protection and for equal metadata; anything else is refused. |
| ProtocolRuns.RepeatedAppend | context_cache/store.py:1118-1145 | Repeating an append at any later point changes no table, and is accepted if and only if the event's protection is still what was first asked for and its metadata is of a kind that JSON text does not change. |
| ProtocolRuns.RetryAfterReleaseIsRefused | context_cache/governor.py:142-147 | The first counterexample to the promised idempotent retry: after a protect or release the identical append is refused. |
| ProtocolRuns.RetryWithTupleIsRefused | context_cache/governor.py:142-147 | The second counterexample: metadata that holds a tuple makes the identical append fail at once. |
| ProtocolRuns.UnfencedMarkKeepsApart | context_cache/store.py:1543-1591 | Marking an event without a token breaks "never both processed and quarantined" exactly when the event was quarantined. |
| ProtocolRuns.UnfencedMarkMixes | context_cache/store.py:1543-1591 | A run in which it does: one event, claimed, quarantined and marked without a token. |
| ProtocolRuns.UnfencedFailKeepsHeads | context_cache/store.py:1593-1634 | Failing an event without a token breaks "leased rows are thread heads" exactly when it revives a quarantined row below a leased one. |
| ProtocolRuns.UnfencedFailBreaksHeads | context_cache/store.py:1593-1634 | A run in which it does: the first of two events is quarantined, the second claimed, the first failed without a token. |
| OutboxGuarantees.NewEventIsStored | context_cache/store.py:1146-1239 | A new event ID is accepted if and only if nothing in the namespace has its record ID and its metadata can be written; it is then stored field by field as drafted, next in its thread, with a pending row, and nothing else changes. |
| OutboxGuarantees.UnwritableIsRefused | context_cache/store.py:1187-1213 | Metadata that holds an object JSON cannot write, a date say, is refused with the whole event. |
| OutboxGuarantees.ClaimTakesOldestHeads | context_cache/store.py:1441-1463 | A claim takes only rows that wait, are due and free to its owner, with nothing waiting below them in their thread, in order of creation, then sequence, and no more than its limit. |
| OutboxGuarantees.ClaimLeavesNoneOut | context_cache/store.py:1441-1463 | Such a row is left out only when the claim has taken all it may, and none of those comes later. |
| OutboxGuarantees.ClaimLeasesWhatItTakes | context_cache/store.py:1464-1507 | Each row taken is leased to the owner for the time asked, a second at least, under its own new token; no other row and no other column changes. |
| OutboxGuarantees.ReservedRecordShowsItsEvent | context_cache/indexing.py:103-136 | In every reachable state a record under an event's identifier has the event's content as its text, its importance, token count and metadata, the six reserved fields, no expiry, and the event's thread as the only one that sees it. |
| OutboxGuarantees.CompletionIsExact | context_cache/store.py:853-943 | In every reachable state a worker that holds its lease always completes: row processed, event indexed, record stored with the event's content and present protection, nothing else changed; one that does not changes nothing. |
| OutboxGuarantees.MarkIsExact | context_cache/store.py:1543-1591 | The fenced mark does the same without a record, exactly when the lease is held. |
| OutboxGuarantees.FailureIsExact | context_cache/store.py:1593-1634 | A failure costs one attempt, delays the row by what was asked, a hundredth of a second at least, and quarantines it exactly when no attempt is left; without the lease it changes nothing. |
| OutboxGuarantees.ReleaseIsExact | context_cache/store.py:1509-1541 | A release drops the lease of the row held and of no other; an owner that leaves drops all of its own, and no other column changes. |
| OutboxGuarantees.RetryIsExact | context_cache/store.py:1656-1681 | An operator's retry starts a quarantined row afresh if and only if no other row of its thread is leased, and otherwise changes nothing. |
| OutboxGuarantees.FlagIsTheLastOneSet | context_cache/store.py:1327-1408 | No step changes an event's flag but a request for that event, which sets it. |
| OutboxGuarantees.FlagReachesItsProjection | context_cache/store.py:1327-1408 | A new flag reaches a stored record if and only if that is a projection of the event under its identifier. |
| OutboxGuarantees.DirectWriteIsExact | context_cache/store.py:703-840 | A direct write is stored if and only if no event of the namespace reserves its identifier and what is stored there has the same scope, owner and team; otherwise nothing changes. |
| OutboxGuarantees.OnlyProjectionsAreWritten | context_cache/store.py:709-743 | On the indexer's path only a thread's record that names the one event reserving its identifier is written. |
| OutboxGuarantees.OnlyOwnRecordsAreOverwritten | context_cache/store.py:745-771 | It overwrites only a record of the same thread that names the event, or an older one without event ID that names the thread. |
| WorkQueue.UniqueWorkQueue.Offer | context_cache/rings.py:93-102 | An item already pending is accepted and not queued again; a new one is queued unless the queue is full. |
| WorkQueue.UniqueWorkQueue.Get | context_cache/rings.py:104-105 | First in, first out. |
| WorkQueue.UniqueWorkQueue.Complete | context_cache/rings.py:107-111 | The item stops being pending. |
| WorkQueue.OfferClaims | context_cache/indexing.py:86-101 | A pass that asked for no more than the free room queues all its claims: the overflow error is not reached. |
| WorkQueue.DispatchNeverOverflows | context_cache/indexing.py:86-101 | The same while workers take and finish items between the scanner's two reads: in every run no offer overflows and at most min(workers, capacity) claims are out. |
| TextBudget.EstimateTokens | context_cache/embeddings.py:22-26 | The estimate is the character count over four, rounded up. |
| TextBudget.TruncateText | context_cache/text_budget.py:18-28 | The shown text fits the budget, is the text itself if that fits, and otherwise a prefix of it, possibly closed by the marker. |
| TextBudget.TruncateKeepsMost | context_cache/text_budget.py:18-28 | A text that is cut keeps all that fits before the marker but trailing space: with four more characters it would exceed the budget. |
| TextBudget.SelectDescendingEvents | context_cache/prompt_builder.py:32-65 | The selection costs what it reports, stays within the budget, repeats nothing excluded, and is the greedy newest-first choice over the candidates. |
| TextBudget.SelectEventTail | context_cache/text_budget.py:31-64 | The tail selection is the greedy choice over the events not excluded, read backwards. |
| TextBudget.GreedyIsLongest | context_cache/text_budget.py:31-64 | Nothing that shows the newest candidates within the budget shows more of them than the greedy choice. |
| TextBudget.GreedyIsUnique | context_cache/text_budget.py:31-64 | Candidates and budget determine the greedy choice. |
| TextBudget.TailIsSuffix | context_cache/text_budget.py:31-64 | A tail selection shows a suffix of the events, all of it in full but possibly the newest event. |
| EventLog.IterThreadEventsDescending | context_cache/store.py:1280-1314 | For every page size from 1 to 1024, whatever is appended and whichever flags change between two pages: nothing is yielded twice, every event of the log the first page saw that has the flag throughout is yielded and none that never has it; with no flag changed the pages join up to the whole newest-first listing of that log. Any other size is refused. |
| EventLog.ResumeBelow | context_cache/store.py:1295-1314 | Resuming below the last row of a page yields exactly the rows after it. |
| RecentRing.RecentEventRing.Append | context_cache/rings.py:29-52 | A fresh event leaves the longest suffix that fits both limits; a known or old one leaves the ring alone. |
| RecentRing.RecentEventRing.SetProtected | context_cache/rings.py:61-70 | The flag of the one event changes and nothing else; the result says whether it was there. |
| RecentRing.RingCost | context_cache/rings.py:44-52 | An event takes its tokens and four more of the ring. |
| RecentRing.FittingSuffixIsLongest | context_cache/rings.py:48-52 | What eviction leaves is a suffix that fits, and no longer suffix does. |
| RecentRing.SuffixThenAppend | context_cache/rings.py:29-52 | Evicting early loses nothing that a later append would have kept. |
| RecentRing.LastRowsSuffice | context_cache/thread_state.py:63-74 | Reading only the last max_events rows is enough to rebuild the ring. |
| ThreadState.CreateRing | context_cache/thread_state.py:63-74 | A rebuilt ring is the longest fitting suffix of the whole log, oversized events projected. |
| ThreadState.EvictionIsInvisible | context_cache/thread_state.py:63-116 | However records, flags, indexing and evictions interleave, the ring agrees with the log, and evicting and rebuilding it goes unnoticed up to indexing times, as long as every step is one the ring can follow. |
| ThreadState.OutsideFlagAgrees | context_cache/engine.py:532-570 | A protection flag set past the governor keeps ring and log in agreement exactly if the thread has no ring in memory, or its ring does not hold the event with the other flag. |
| ThreadState.OutsideFlagShows | context_cache/engine.py:532-570 | A history in which it does not: an event is recorded and its flag then changed past the governor. |
| ThreadRegistry.ThreadStateRegistry.Prune | context_cache/thread_state.py:76-84 | Exactly the unleased threads idle for the whole time to live are dropped. |
| ThreadRegistry.ThreadStateRegistry.MakeRoom | context_cache/thread_state.py:86-94 | A full registry gives up the least recently used unleased thread and no other; it fails only if every slot is leased. |
| ThreadRegistry.ThreadStateRegistry.Lease | context_cache/thread_state.py:96-110 | All leases that are out on one thread, and no others, share its state, and the registry never exceeds its capacity. |
| ThreadRegistry.ThreadStateRegistry.EndLease | context_cache/thread_state.py:111-116 | Returning a lease leaves every other lease as it was. |
| Markup.EscapeText | context_cache/context_markup.py:13-30 | Escaped body text never opens or closes an element and is no shorter than the text. |
| Markup.EscapeAttribute | context_cache/context_markup.py:33-37 | Escaped attribute text cannot close its quotes or its tag. |
| Markup.TextRoundTrip | context_cache/context_markup.py:13-30 | Reading escaped body text gives back the text, with disallowed characters replaced. |
| Markup.AttributeRoundTrip | context_cache/context_markup.py:33-37 | Reading an escaped attribute gives back the value, with disallowed characters replaced. |
| Markup.EscapeTextMonotone | context_cache/context_markup.py:13-30 | A longer prefix renders longer, by at least the characters added. |
| Markup.ContextLength | context_cache/context_markup.py:58-81 | The wrapper's length is that of the empty wrapper plus its contents, up to the two timestamps' difference. |
| Markup.BoundedString | context_cache/transport_views.py:30-43 | A short identifier is kept; a long one keeps its first 493 characters and closes with 16 digits of its digest, 512 in all. |
| MarkupReader.RenderingReadsBack | context_cache/swapper.py:239-274 | Reading what a packing renders gives exactly the hits shown, in order: each book under its own identifier, source and relevance, with its whole text, or the last with the cut and the marker. |
| MarkupReader.WrapperReadsBack | context_cache/context_markup.py:58-81 | The wrapper is read under the session, the mode and the time it was made for, and holds the books unchanged. |
| Packing.Bisect | context_cache/swapper.py:251-268 | The bisection finds the largest fitting value of a downward-closed test, or that there is none. |
| Packing.CutFitsIsDownwardClosed | context_cache/swapper.py:255-264 | If a cut fits, every shorter cut fits, in either view: what makes bisection sound. |
| Packing.PackHits | context_cache/swapper.py:229-274 | The selected hits are a prefix of the ordered ones within top_k, in full but for a last one cut to the longest fitting text; the context is their rendering and fits the budget. |
| Packing.WholeHitsAreMaximal | context_cache/swapper.py:235-248 | m hits fit in full if and only if at least m are shown in full. |
| Packing.PackingIsUnique | context_cache/swapper.py:229-274 | Hits, budget and limit leave only one packing. |
| Packing.RenderedFits | context_cache/swapper.py:229-274 | What a packing renders fits its budget and shows no more hits than allowed. |
| Packing.PackTransportContext | context_cache/transport_views.py:240-279 | The transport context fits its budget; for a desk with hits and text it is marked truncated if and only if some hit is not rendered in full, and the two remaining cases in which the mark differs are given exactly. |
| Prompt.RepackSuffices | context_cache/prompt_builder.py:274-299 | Repacking to the desk's tokens less the overflow and eight brings any prompt back within its budget, whatever the wrapper measures. |
| Prompt.FilterKeepsRanking | context_cache/swapper.py:207-226 | The hits kept stand at ascending positions of the ranking, and those are all the positions not excluded. |
| Prompt.Refresh | context_cache/swapper.py:297-352 | A refresh yields a desk that shows the packing of the hits not excluded, the best ranked first and none skipped but excluded ones, or is refused for a bad budget or book count, exhausted capacity or a blank focus, in that order. |
| Prompt.RetrieveContext | context_cache/prompt_builder.py:205-237 | The desk gets exactly what the messages and an empty wrapper leave over less four tokens, is asked only for a subject and eight tokens, and shows the best of the ranking but the records whose events are already shown; it is refused exactly when it is asked for and capacity is exhausted. |
| Prompt.AttachContext | context_cache/prompt_builder.py:247-264 | The block joins the system message or becomes one; without text nothing changes. |
| Prompt.EnforceBudget | context_cache/prompt_builder.py:266-302 | For every desk at all the final prompt is within the total budget: the error is unreachable, a prompt that fits is untouched, and an overlong desk is repacked to the computed target. |
| Prompt.Subject | context_cache/prompt_builder.py:152-161 | The focus if given, else the newest user event, else the newest event. |
| Prompt.TurnsFit | context_cache/prompt_builder.py:117-151 | The two selections leave at least 32 tokens of the total budget. |
| Prompt.SelectEvents | context_cache/prompt_builder.py:124-145 | The recent and protected selections are the greedy ones over the ring and over the whole protected log, for every page size, and show no event twice. |
| Prompt.Build | context_cache/prompt_builder.py:101-203 | A prompt is refused for exactly one of three reasons: no events, an overlong system prompt, or a desk that is called for and finds no capacity. Otherwise its tokens are counted exactly and within budget, its messages are the two selections under the attached desk, no event appears twice and no shown event is retrieved again. |
| Prompt.SelectionsAreUnique | context_cache/prompt_builder.py:124-145 | Budget, events and log leave only one pair of selections, so the refusals and the prompt are determined. |
| Prompt.NewestComesLast | context_cache/prompt_builder.py:124-151 | The recent selection is a non-empty suffix of the events and the prompt ends with the newest one, cut only if it has to be. |
| Prompt.Prepare | context_cache/governor.py:263-294 | Preparing a fresh turn yields a prompt within budget that ends with that turn; it fails exactly when the system prompt leaves no room or the desk that is called for finds no capacity. |
| Prompt.TurnIsWholeOrCut | context_cache/prompt_builder.py:124-133 | The turn is sent whole exactly when it fits the ring and the recent share, and otherwise cut first to the one and then to the other. |
| Prompt.NewestStaysInRing | context_cache/rings.py:29-52 | The ring always keeps the event just recorded. |
| PromptGuarantees.MessagesCost | context_cache/text_budget.py:12-15 | Each message adds a token for every four characters begun, and four more. |
| PromptGuarantees.RequestLayout | context_cache/prompt_builder.py:146-151 | A request is one system message, prompt before desk, if there is either; then the protected events and then the recent ones, in order, each under its role with its content. |
| PromptGuarantees.RecentLeavesTheReserve | context_cache/prompt_builder.py:124-133 | The recent events leave the protected ones min(protected, max(0, available - min(recent, max(64, available / 2)))) tokens, and one more of them in full would not fit the rest. |
| PromptGuarantees.ProtectedEventsAreShown | context_cache/prompt_builder.py:134-145 | The protected events that no recent message shows are sent newest first as far as they go, only the very newest cut, and all of them in full if they cost no more than is left of their allowance. |
| PromptGuarantees.DeskReadsBack | context_cache/swapper.py:229-274 | Reading a desk's text gives exactly its hits, in order, each with its identifier, source, relevance and whole text, but for a marked cut of the last. |
| Session.Recent | context_cache/session.py:125-135 | The window is the longest run of newest records that fits, and never empty if there is history. |
| Session.WindowIsUnique | context_cache/session.py:125-135 | History and budget leave only one window. |
| Session.ShowRecent | context_cache/session.py:278-293 | Several records are shown in full, one is cut if needed, and the cost is at most the recent budget or five. |
| Session.DeskStaysWithinBudget | context_cache/session.py:166-190 | Rounding system prompt, wrapper and desk separately costs at most the eight tokens kept back while the second timestamp is at most 16 characters longer (30 with a system prompt). |
| Session.ClockSlackIsTight | context_cache/session.py:166-190 | One character more exceeds the budget by one token, without a system prompt as with one. |
| Session.RetrieveContext | context_cache/session.py:157-190 | The desk is the packing within what messages and wrapper leave less eight tokens, the best ranked first but the records already shown, or empty where that is under eight; from eight tokens on it is refused exactly when capacity is exhausted or the subject is blank. |
| Session.DeskIsUnique | context_cache/session.py:157-190 | Inputs leave only one desk. |
| Session.BuildPrompt | context_cache/session.py:251-325 | Every request is answered or refused, never both: refused for the number of books, a blank message to be recorded, an overlong system prompt, nothing to say, an empty message without history, exhausted desk capacity or a blank subject; it fails in the repair branch exactly when the desk as retrieved exceeds the budget; otherwise it is answered within budget with a window of the history and that desk. |
| Session.NeverOverlong | context_cache/session.py:212-249 | While the second clock reading renders at most 16 characters longer than the first (30 with a system prompt) the desk as retrieved never exceeds the budget, so neither the repair branch nor the final error is reached. |
| SessionGuarantees.RefusedBeforehand | context_cache/session.py:251-277 | Before a desk is asked for, a request is refused for exactly one of five reasons, in the order of the checks. |
| SessionGuarantees.EnvelopeShowsTheWindow | context_cache/session.py:278-293 | The envelope ends with the newest records, in order, each under its role with its whole text; a single one is cut to its share if it has to be; and their identifiers are reported. |
| SessionGuarantees.WindowFillsItsShare | context_cache/session.py:125-135 | The records shown fit min(recent, total - prompt - 64) tokens unless there is one, and one more would not. |
| SessionGuarantees.EnvelopeLayout | context_cache/session.py:192-210 | Above the records there is one system message, prompt before desk, if there is either; the tokens are counted exactly and within budget. |
| SessionGuarantees.EnvelopeDesk | context_cache/session.py:157-190 | The desk looks for the user's message, or failing that for the newest record, and shows the best of the ranking but the records shown below. |
| Scopes.ScopePredicate | context_cache/store.py:1001-1024 | The generated clauses and positional parameters select exactly the records the in-memory test allows, NULL columns included. |
| Scopes.SameIdentitySameRecords | context_cache/scopes.py:104-126 | Selections with equal cache identity allow the same records. |
| Scopes.ValidateRecordScope | context_cache/scopes.py:129-155 | A boundary is accepted exactly when the owner or team its scope needs is a valid identifier and the other is absent, and then keeps just that one. |
| Scopes.IdentifierIsValid | context_cache/scopes.py:16-28 | An identifier has at most 512 characters, none of them a control, and is not all spaces. |
| Scopes.BoundaryIsExact | context_cache/scopes.py:113-155 | A validated record is visible to exactly the owning session, the members of its team, or everyone asking for project records. |
| Gates.ReadWriteGate.EnterRead | context_cache/concurrency.py:18-29 | A reader enters while no writer is inside or waiting; a nested entry always passes. |
| Gates.ReadWriteGate.LeaveRead | context_cache/concurrency.py:30-37 | Leaving undoes one entry; the counter stays the sum of all depths. |
| Gates.ReadWriteGate.AnnounceWrite | context_cache/concurrency.py:40-45 | A thread inside for reading is refused; any other waits. |
| Gates.ReadWriteGate.EnterWrite | context_cache/concurrency.py:44-49 | A waiting writer enters exactly when no reader and no writer is inside. |
| Gates.ReadWriteGate.LeaveWrite | context_cache/concurrency.py:50-55 | Leaving opens the gate again. |
| Gates.MoveKeepsExclusion | context_cache/concurrency.py:18-55 | No permitted entry or exit puts a writer inside with a reader or a second writer. |
| Gates.WriterIsAlone | context_cache/concurrency.py:18-55 | After every sequence of entries and exits a writer that is inside is alone there. |
| ByteLru.ByteLRU.Get | context_cache/ram.py:40-53 | A live entry is returned and becomes the newest; an expired one is dropped; the counters follow. |
| ByteLru.ByteLRU.Put | context_cache/ram.py:55-75 | The stored entries are the longest run of newest ones that fits; a value too large only removes its key. |
| ByteLru.ByteLRU.Delete | context_cache/ram.py:77-89 | Only the key's entry goes, and its bytes with it. |
| ByteLru.ByteLRU.Clear | context_cache/ram.py:81-84 | Every entry goes; the counters stay. |
| ByteLru.EvictedIsLongest | context_cache/ram.py:72-75 | Eviction keeps a run of the newest entries that fits, and one more would not. |
| ByteLru.PutThenGet | context_cache/ram.py:40-75 | A value that fits is found right after it is stored, and no other key gains a value. |
| RecordCache.RamKeyInjective | context_cache/engine.py:170-172 | No two records share a RAM key, because a validated namespace has no control characters. |
| RecordCache.StepKeepsInv | context_cache/engine.py:368-419 | Every step of every interleaving keeps gate, locks, RAM and SQLite consistent. |
| RecordCache.GetIsGetVisible | context_cache/engine.py:482-530 | Over every interleaving of reads, writes, deletes, bulk deletes, expiry and eviction, a get that holds the record's lock finds a record if and only if it is stored, the selection allows it and it has no expiry or a later one, and then gives the stored row. |
| RecordCache.QuietRamIsCurrent | context_cache/engine.py:368-419 | Once no operation is inside, every unexpired RAM entry equals its SQLite row. |
| RecordCache.VisibilityIsFixed | context_cache/store.py:790-820 | A record that stays stored keeps its visibility through any run. |
| RecordTiers.ContextCache.PersistRecord | context_cache/engine.py:368-389 | A write reaches SQLite and RAM with two generation bumps, or is refused with one bump and nothing else changed. |
| RecordTiers.ContextCache.Get | context_cache/engine.py:482-530 | Whatever RAM and Redis hold, a record is found if and only if it is stored, allowed and unexpired, and is then the stored row; at most expired rows leave the store. |
| RecordTiers.ContextCache.Delete | context_cache/engine.py:660-685 | A record is deleted, from every tier and with two bumps, if and only if it is stored, allowed and unexpired; otherwise no tier but the store's expired row changes. |
| RecordTiers.ContextCache.DeleteSource | context_cache/engine.py:687-712 | Exactly the allowed records of the source leave SQLite and RAM; the second bump comes only if there were any. |
| RecordTiers.ContextCache.PurgeExpired | context_cache/engine.py:974-984 | Exactly the expired rows go; RAM and the query cache are emptied and the second bump made only if there were any. |
| RecordTiers.ContextCache.PublishRecords | context_cache/engine.py:860-889 | Published are exactly the hits still stored as ranked, in order and with the new access time, and RAM still mirrors SQLite. |
| RecordTiers.KeptIsStable | context_cache/engine.py:860-889 | Touching rows and dropping expired ones while publishing does not change which of the later hits are published. |
| RecordTiers.PublishedAreCurrent | context_cache/engine.py:860-889 | The hits published are, in order, all those whose record is stored and unexpired with the times, hash and boundary it was ranked with. |
| QueryCache.StepKeepsInv | context_cache/engine.py:277-279 | Every step keeps: with no write pending, all answers and readers of the current generation rest on reads that are still up to date. |
| QueryCache.PublishKeepsFresh | context_cache/engine.py:860-889 | A hit dropped on publication has expired; a published one is still what was ranked. |
| Filters.SameMatchesExactly | context_cache/retrieval.py:51-63 | Two filters match the same metadata, whatever it may be, exactly when both expect something no metadata meets, or they expect the same values under the same text keys. |
| Filters.OneFilter | context_cache/retrieval.py:51-63 | A text asks for itself, a number for itself or the truth value equal to it, None for an absent or null field, a list of texts for one of them. |
| Filters.FiltersConjoin | context_cache/retrieval.py:51-63 | No filters match everything, and several match what each of them does. |
| Filters.PlainKeysAgree | context_cache/engine.py:772-794 | Filters that share a cache key match the same metadata if both hold nothing but what JSON writes and reads back as it was. |
| Filters.DateSharesKey | context_cache/engine.py:772-794 | A date and its text share a cache key; the date matches nothing, the text its records. |
| Filters.TupleSharesKey | context_cache/engine.py:772-794 | A tuple and a list share a cache key; the list is met by its members, the tuple by nothing. |
| Filters.NumberSharesKey | context_cache/engine.py:772-794 | A number and its text share a cache key as names; only the text can name a stored value. |
| QueryCache.CacheHitIsFresh | context_cache/engine.py:796-972 | Over every interleaving of retrieves and writes, with no write pending, a cache hit is the ranking, at some moment, of a listing and a search that show exactly what the store shows now, up to rows expired since; it is ranked for a request of the same key, and for the asking one too if their filters are interchangeable. |
| QueryCache.CacheHitsAreStored | context_cache/engine.py:796-826 | Every record in such a hit is in the store now, unexpired and with the same contents. |
| QueryCache.AnswersSeeEndedWrites | context_cache/engine.py:796-972 | With writes pending or not, cached or not, every answer is, but for hits left out and what their stamps do not show, the ranking of a listing, a search and a clock reading that all follow every write that had ended when the query took its key; ranked for a request of the same key, and for the query's own if their filters are interchangeable. |
| QueryCache.EmptyAnswerIsShared | context_cache/engine.py:772-826 | So it goes for any two requests of one key of which the first matches nothing and the second a stored record. |
| QueryCache.DateAnswersText | context_cache/engine.py:772-826 | A run in which the key is not enough: a query for a date caches an empty answer that the same query for the date's text is then given, although a matching record is stored. |
| QueryCache.HitsAreAllowed | context_cache/engine.py:910-972 | Cached or fresh, a query is only given records of its namespace that its selection allows, whichever request filled the entry. |
| QueryGuarantees.CacheHitFollowsRanking | context_cache/engine.py:796-972 | With no write pending, a cached answer lists in the order of the ranking exactly the ranked records that match the filters it was computed for and are unexpired, as stored now; what was ranked is exactly what the asking request may see now. |
| QueryGuarantees.AnswerFollowsRanking | context_cache/engine.py:796-972 | Every answer lists in the order of the ranking records that matched the filters it was computed for and that the asking request was allowed to see, stored and unexpired at one moment after every write that had ended when the query began. |
| Swapper.ContextSwapper.Prune | context_cache/swapper.py:113-124 | Exactly the desks idle for the whole time to live go; a generation goes with its desk only if no refresh and no watch needs it. |
| Swapper.ContextSwapper.MakeRoom | context_cache/swapper.py:128-143 | Room is made by forgetting the unneeded generations issued longest ago, no more than have to go, with their desks; it fails only when all are needed. |
| Swapper.ContextSwapper.BeginRefresh | context_cache/swapper.py:126-149 | A refresh gets a generation later than any issued; generations of keys in flight or watched are kept; when capacity is exhausted all are such, and nothing is issued. |
| Swapper.ContextSwapper.FinishRefresh | context_cache/swapper.py:151-156 | One refresh fewer is in flight. |
| Swapper.ContextSwapper.StoreDesk | context_cache/swapper.py:163-180 | The desk is stored as the most recently used; idle desks go, and of the others only the least recently used, just as many as the maximum demands. |
| Swapper.ContextSwapper.Publish | context_cache/swapper.py:353-362 | A refresh publishes if and only if it is permitted and nothing later was ever issued for its key; its desk is then stored, idle desks go, and one in use goes only for want of room and only if every one used less recently goes too. |
| Swapper.ContextSwapper.Get | context_cache/swapper.py:368-407 | A desk is found exactly if it is stored, in use by the monotonic clock and free of records expired by the wall clock. |
| Swapper.ContextSwapper.ChangeFocus | context_cache/swapper.py:489-494 | A new focus outdates every refresh already in flight. |
| Swapper.ContextSwapper.Watch | context_cache/swapper.py:454-455 | The key is watched from now on. |
| Swapper.ContextSwapper.StopWatch | context_cache/swapper.py:530-540 | Ending a watch outdates every refresh already in flight. |
| Scheduler.DeskScheduler.Schedule | context_cache/scheduler.py:68-93 | A watch gets a new generation and a due time, or is refused for one of three reasons with nothing changed. |
| Scheduler.DeskScheduler.Stop | context_cache/scheduler.py:120-125 | Only the one watch is removed. |
| Scheduler.DeskScheduler.Ready | context_cache/scheduler.py:132-137 | Exactly the watches that are due and not in flight. |
| Scheduler.DeskScheduler.Dispatch | context_cache/scheduler.py:140-146 | The queue has room for the watch, its key is in flight once, and it waits without a time only while its own run is out. |
| Scheduler.DeskScheduler.Coordinate | context_cache/scheduler.py:127-157 | A pass launches only watches whose time has come and that are not out, never more than there are idle workers, and all of them if a worker stays idle; every other watch stays as it is. |
| Scheduler.DeskScheduler.TakeWork | context_cache/scheduler.py:159-165 | A worker takes the oldest item; the keys in flight stay the same. |
| Scheduler.DeskScheduler.GiveUp | context_cache/scheduler.py:166-172 | A worker of a stopped scheduler gives its item up. |
| Scheduler.DeskScheduler.FinishRun | context_cache/scheduler.py:177-205 | A run that ends gives a new time to the watch of its own generation and changes no other, so no watch is lost. |
| Scheduler.DeskScheduler.DrainQueue | context_cache/scheduler.py:261-270 | After closing only the keys that workers still hold are in flight. |
| CacheEngine.ContextCache.EnterOperation | context_cache/engine.py:207-226 | An operation is admitted exactly when it is nested, or the cache is open, or it is a status operation while closing unsealed; the counter is the number of threads inside. |
| CacheEngine.ContextCache.LeaveOperation | context_cache/engine.py:226-233 | Leaving undoes one entry. |
| CacheEngine.ContextCache.WaitForOperations | context_cache/engine.py:235-243 | Sealed exactly when no operation is active. |
| CacheEngine.ContextCache.CloseRuntime | context_cache/runtime.py:149-190 | The runtime counts as drained once indexer, swapper, scheduler and thread states have all stopped, with no worker left. |
| CacheEngine.ContextCache.CloseResources | context_cache/engine.py:1087-1124 | The lock is released only after SQLite is closed; the attempt is complete exactly when all three are closed. |
| CacheEngine.ContextCache.Close | context_cache/engine.py:1057-1085 | A close attempt reaches Redis, SQLite and the lock only with no active operation and a drained runtime, closes each that is still open and lets it, the lock only after SQLite, and is complete exactly when all three are closed. |
| Lifecycle.StepKeepsInv | context_cache/engine.py:1057-1124 | Every step of every interleaving of operations, workers and close attempts keeps the lifecycle invariant. |
| Lifecycle.StoreClosesQuietly | context_cache/engine.py:1070-1077 | Over every run the step that closes SQLite finds no active operation and no runtime worker. |
| Lifecycle.LockOutlivesStore | context_cache/engine.py:1107-1117 | The database lock is never released while SQLite is open. |
| Lifecycle.NoOrdinaryOperationAfterClose | context_cache/engine.py:207-226 | Once a close has begun no outermost ordinary operation is ever admitted, and none is left when SQLite is closed. |
| Lifecycle.ClosedIsFinal | context_cache/engine.py:1057-1085 | A closed cache has no operation and admits none. |
| Lifecycle.SealedStoreIsQuiet | context_cache/engine.py:1062-1066 | While the seal holds over a closed SQLite no operation is inside and none is admitted. |
| Lifecycle.StatusAfterStoreClosed | context_cache/engine.py:1062-1066 | After SQLite is closed a status operation is admitted if and only if a later attempt has lifted the seal and closing is not complete. |
| Lifecycle.StatusMayMeetClosedStore | context_cache/engine.py:1062-1066 | A run in which that happens: releasing the lock fails and a second close begins. |

## Left out

- Tables.AppendEvent: error texts, the stored hash of the content and the validation of identifiers, which guard no property proved here; which of two keys that are written alike wins; numbers that are not real numbers but for NaN; a protection flag that is not a truth value, which the comparison by identity would never match.
- Tables.Upsert: records written directly carry metadata that is JSON already.
- Protocol.StepKeepsInv: the token-less mark and failure calls are not steps of the protocol, since they break its invariants (`ProtocolRuns.UnfencedMarkKeepsApart`, `ProtocolRuns.UnfencedFailKeepsHeads`); migrated databases, since runs start from an empty one.
- SqliteStore.SQLiteStore.ClaimOutboxEvents: the text of SQL statements; a transaction is atomic and either commits or changes nothing.
- Prompt.Build: the watermark fields, pressure figure and protected-ID list of the returned object; a failing embedder or database.
- Prompt.Prepare: the wait for indexing under strict freshness.
- TextBudget.TruncateText: how much of a cut text is kept, which `TextBudget.TruncateKeepsMost` states.
- Markup.EscapeText: which replacement each character gets, which `Markup.TextRoundTrip` pins down.
- Markup.EscapeAttribute: the same, which `Markup.AttributeRoundTrip` pins down.
- MarkupReader.RenderingReadsBack: a relevance that renders with characters of markup, which the digits of a score never are.
- Session.BuildPrompt: the write that records the user's message, which happens before the history is read, and the history count of the returned object.
- RecordCache.GetIsGetVisible: an exception between the SQLite write and the RAM update; Redis, which is compared with SQLite but never returned; re-entering the gate and a lock already held, as promotion does.
- Filters.PlainKeysAgree: the order in which keys that are not text are written, so that the model takes a few more filters to share a key than the code does; objects that equal several different stored values.
- QueryCache.CacheHitIsFresh: the Redis tier; a failure after SQLite has committed; SHA-256 of the key, taken as injective.
- Swapper.ContextSwapper.Get: desks fetched from Redis.
- Swapper.ContextSwapper.BeginRefresh: a bound on the remembered generations, because a focus change or stop inserts one without a capacity check.
- Scheduler.DeskScheduler.Coordinate: wake-ups, jitter and the wait between passes; the wake-up items that closing puts into the queue for idle workers.
- CacheEngine.ContextCache.Close: the background thread that repeats a failed close, and the timeouts; an attempt is one uninterrupted call and whether a part stopped in time an argument (`Lifecycle` interleaves the same sections).
- Ordering of pinned records and the swap difference of a desk: lists derived from identifiers, with no invariant behind them.
- Embeddings, cosine and lexical scoring: ranking is any function, so nothing depends on them.
- The HTTP, MCP, CLI and daemon layers, file permissions, process locks and schema migrations: plumbing or foreign systems.
- The bounded excerpts and identifier lists of the transport views other than the packed context: simple cuts.
- Wall-clock latency: only safety and bounds are proved.
