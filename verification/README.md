# Verified model of saka

saka is a web-search and page-fetch service in Go. This project models its stateful core in Dafny and
proves what that core promises:

- **Extraction** (`Text`, `Dom`, `Readability`, `Paragraphs`, `Streaming`): the readable container of a page, its
  text as one page, paragraph by paragraph, and as a stream of chunks.
- **Provider chain** (`TokenBucket`, `RateLimit`, `CircuitBreaker`, `Backoff`, `Fallback`,
  `ProviderChain`, then `ChainRuns`, `Cooldown`, `Service`): fallback, retries, breakers and rate limiters, first for
  one search, then for any number of searches that share them.
- **Streams** (`SearchStream`, `FetchStream`): the channel protocols between producers, forwarder and
  handler, over every interleaving.
- **Caches** (`DiskCache`, `Fetcher`, then `DiskRuns`, `FetchRuns`, `SharedDisk`, `LoneFetch`): memory in front of
  disk in front of the origin, first for one caller, then for any number of callers that share them, and how the two
  agree.
- **Keys and configuration** (`Auth`, `Providers`, `Engine`): per-key rate limits, config validation, the
  division of providers into verticals and the routing of searches.

`dafny verify dfyconfig.toml` checks everything.

## How the model reads the code

Programs that update state are classes and methods with the source's loops and fields; each is proved
against a function of its inputs and old state, and the theorems are about those functions. Code that
runs concurrently is a state machine whose steps are the source's locked sections and channel
operations; a theorem about a run covers every interleaving. What the outside decides (a provider's
answer, a parsed document, the clock, a random draw, which ready `select` case is taken) is an input, or
an arbitrary value (`:= *`).

- A DOM walk is a fold over the nodes it visits in order (`Dom.Preorder`, `Dom.Fold`).
- Text is a sequence of Unicode characters with their UTF-8 widths; white space is what Go's
  `unicode.IsSpace` accepts.
- Tokens, scores and times are exact reals and the clock does not run backwards; backoff pauses are
  64-bit integers with wrap-around.

## Findings

The model follows the code. In these points the code does something else than its documentation says or than a
caller may expect:

- The flush at paragraph boundaries never happens (`Streaming.BoundaryNeverFlushes`), although
  the documentation says chunks end on paragraph boundaries; a chunk ends with the text node that fills it.
- A limiter's bucket holds as many tokens as it gets per second. With a rate between 0 and 1 it never
  grants, so such a provider is never called, in any run (`ChainRuns.SlowEntryNeverCalled`); the default
  configuration gives `startpage` 0.2.
- The documentation says that an open breaker stops all traffic to the provider for 30 s. It stops new searches
  at the check; a search that passed it before goes on calling (`Cooldown.CallDespiteCooldown`), at most
  retries + 1 times, and nobody else does (`Cooldown.CallsDuringCooldown`). It takes three failures in a row
  to open it, rate-limit answers included (`CircuitBreaker.BreakerMeaning`).
- `backoff` is exact for attempts up to 33 and for no others (`Backoff.FaithfulIff`), and panics after attempt
  35: a search can crash exactly if an entry has 35 retries or more (`Fallback.CrashIff`). `Validate` admits at
  most 5, `chain.New` any number.
- `Get` and `GC` look at a file and remove it in two steps. A page renamed into place in between is deleted
  although it is fresh (`DiskRuns.RaceLosesPage`). Apart from that race, and exactly apart from it, the disk
  cache is a timestamped map (`DiskRuns.DiskRefinesMap`); with it, a read may find nothing, but never an old or
  torn page (`DiskRuns.ReadReturnsLatest`).
- A page can be as old as the memory and disk TTLs together if the memory TTL is 0, which `Validate`
  admits; for a positive one its age stays below, but for the time a fetch takes to store a page and to warm
  memory from disk (`FetchRuns.AlwaysBelowIff`).
- A caller that leaves a fetch stream early strands the forwarding goroutine exactly if more chunks are
  left than the channel holds (`FetchStream.LeftBehind`, `FetchStream.LeftHalts`); there is such a run exactly
  for streams of more chunks than that (`FetchStream.StrandedIff`).
- A refused stream request (402) has used up a token (`Auth.RefusedStreamCosts`).
- In `Fetch` the branch for status 429 cannot be reached: any status but 200 has returned before
  (`Fetcher.NeverRateLimited`).

## Model

| member | source | states |
|---|---|---|
| Text.NormalizeText | fetch/extract.go:146-156 | The loop returns the trimmed, non-blank lines of its input joined by blank lines. |
| Text.LinesJoin | fetch/extract.go:147 | Splitting at newlines and joining with newlines is the identity, and no line contains a newline. |
| Text.TrimCutsEnds | fetch/extract.go:150 | Trimming cuts a stretch of white space off each end and nothing from the middle. |
| Text.TrimKeeps | fetch/extract.go:150 | Trimming keeps all non-white characters in order and leaves no white space at either end. |
| Text.NormalizeFixedPoints | fetch/extract.go:146-156 | Every result is in normal form (trimmed non-blank lines, one blank line between), and a text is unchanged exactly if it already is. |
| Text.NormalizeIdempotent | fetch/extract.go:146-156 | Normalizing twice is normalizing once, for every string. |
| Text.NormalizeKeepsText | fetch/extract.go:146-156 | Normalizing adds, drops and reorders white space only. |
| Dom.VisitedIffClearPath | fetch/extract.go:54-144 | In each of its modes a walk visits a node exactly if some path of child positions leads to it through nodes it enters: no skipped element in a text walk, no link either in a scoring walk. |
| Dom.InsertDivWraps | fetch/extract.go:54-70 | Putting a div around the article at any path gives a tree in the wrapping relation to the original. |
| Dom.FoldWrapped | fetch/extract.go:82-101 | A walk whose step ignores divs and sees equal nodes equally ends in the same state on a tree with divs put around articles. |
| Readability.LengthWalk.Walk | fetch/extract.go:113-126 | The closure adds the bytes of every text node below the node, skipped elements included. |
| Readability.DensityWalk.Visit | fetch/extract.go:82-97 | At a node the closure counts it and goes on to its children, except for a skipped element or a link, where its whole effect is that of the walk. |
| Readability.DensityWalk.Walk | fetch/extract.go:81-102 | The closure's three counters end as the tally over the nodes a scoring walk visits. |
| Readability.ComputeDensity | fetch/extract.go:79-111 | The score computed by the walk is the density of the node. |
| Readability.DensityZeroIff | fetch/extract.go:103-110 | A node's density is 0 exactly if no text outside links and skipped elements is more than white space. |
| Readability.TextRaisesLinksLower | fetch/extract.go:82-110 | A further text node that is not blank strictly raises a node's density; a further link with text strictly lowers it unless it was 0. |
| Readability.DensityScale | fetch/extract.go:103-110 | In a node with text and no links a further byte of text counts 1 and a paragraph 100. |
| Readability.LinkScales | fetch/extract.go:103-110 | A link put into such a node scales its score by the share of the node's text in that and the link's together. |
| Readability.LengthIsBytes | fetch/extract.go:113-126 | The length of a link's text is the bytes of all text nodes below it concatenated. |
| Readability.BestWalk.Visit | fetch/extract.go:55-66 | The switch replaces the best candidate only by one of strictly higher weighted density. |
| Readability.BestWalk.Walk | fetch/extract.go:54-70 | The closure's best and bestScore end as the strict maximum so far over the document order. |
| Readability.FindBestContainer | fetch/extract.go:50-76 | The method returns the best container, or the document when there is none. |
| Readability.BestIsFirstMaximum | fetch/extract.go:50-76 | The container is the first node in document order whose weighted density no other exceeds; the document itself if all are 0. |
| Readability.FirstMaximumUnique | fetch/extract.go:58-64 | There is only one such node. |
| Readability.CandidatesMeaning | fetch/extract.go:55-66 | The candidates are article, div, main and section elements of positive density; one of the latter three beats an article exactly if nine tenths of its density exceed the article's. |
| Readability.CollectText | fetch/extract.go:128-144 | The recursion appends to the builder exactly what the visible nodes emit, in order. |
| Readability.Extract | fetch/extract.go:20-48 | Batch extraction returns the normalized text of the best container. |
| Readability.EmitAddsSpaceOnly | fetch/extract.go:128-144 | The collected text without white space is the visible text nodes without white space. |
| Readability.PageHoldsVisibleText | fetch/extract.go:37-47 | The page text has exactly the non-white characters of the container's visible text, in order. |
| Paragraphs.PageIsCuts | fetch/extract.go:128-156 | The page is the visible text cut at every paragraph start, the kept lines of all the cuts in order with a blank line between any two. |
| Paragraphs.ParagraphSplitsPage | fetch/extract.go:133-135 | Splitting the walk at any paragraph start splits the page's lines there. |
| Paragraphs.StretchIsConcat | fetch/extract.go:137-139 | A stretch of the walk without a paragraph start is its text nodes put together with nothing in between. |
| Readability.DensityWrapped | fetch/extract.go:79-111 | Divs put directly around articles change no node's density. |
| Readability.BestWrapped | fetch/extract.go:50-76 | The container chosen in the wrapped tree is the counterpart of the one chosen in the original. |
| Readability.WrappingKeepsPage | fetch/extract.go:37-47 | Divs around any number of articles, anywhere, change neither the collected nor the page text. |
| Streaming.ChunkWriter.Flush | fetch/stream.go:51-58 | A flush of a non-empty buffer sends one chunk with the next number; of an empty one, nothing. |
| Streaming.ChunkWriter.Walk | fetch/stream.go:60-83 | The closure's buffer, counter and sent chunks end as the fold over the visible nodes. |
| Streaming.ExtractStream | fetch/stream.go:22-109 | The goroutine sends the chunk sequence of the best container and delivers the same page as batch extraction. |
| Streaming.BoundaryNeverFlushes | fetch/stream.go:66-72 | On entry to every node fewer than 900 bytes are buffered, so an element, paragraph or not, never flushes. |
| Streaming.GreedyIsUnique | fetch/stream.go:74-79 | A list of text nodes has one grouping in which each full group reaches 900 bytes with its last node and not before. |
| Streaming.ChunksAreGreedy | fetch/stream.go:48-85 | The chunks are the texts of that grouping, with a last shorter chunk exactly if some text is left. |
| Streaming.ChunksWellFormed | fetch/stream.go:51-58 | Numbers are 0, 1, 2, ...; no chunk is empty; every chunk but the last has at least 900 bytes. |
| Streaming.ChunksHoldVisibleText | fetch/stream.go:48-85 | The chunks concatenated are the visible text nodes concatenated. |
| Streaming.StreamMatchesPage | fetch/stream.go:48-97 | For every document the chunks and the delivered page have the same non-white characters in the same order. |
| Streaming.WrappingKeepsStream | fetch/stream.go:46-97 | Divs around articles leave the chunk sequence and the page unchanged. |
| Streaming.InsertedDivKeepsStream | fetch/stream.go:46-97 | So does one div put around the article at any path of any document. |
| TokenBucket.VisitConserves | ratelimit/ratelimit.go:28-34 | A critical section takes out no more than flowed in, and leaves between 0 and the maximum. |
| TokenBucket.WindowBound | ratelimit/ratelimit.go:25-44 | Whoever the callers are, a window of any run grants at most the maximum plus rate times its length, and tokens stay in range. |
| TokenBucket.GrantedIff | ratelimit/ratelimit.go:25-35 | The bound is used up: with a full bucket at the start, a visit of any run gets a token exactly if one more grant fits every window up to it. |
| TokenBucket.SleepSuffices | ratelimit/ratelimit.go:36-42 | After a refusal, a visit at least the computed sleep later is granted exactly if the maximum is at least one token. |
| TokenBucket.SmallBucketStarves | ratelimit/ratelimit.go:29-35 | A bucket with a maximum below one token grants nothing over any run. |
| TokenBucket.RefusalsKeepInflow | server/auth.go:75-85 | A stretch of refused visits loses no inflow. |
| RateLimit.Limiter.constructor | ratelimit/ratelimit.go:18-23 | A new limiter is full, its maximum is its rate, and a rate of 0 or less counts as 1. |
| RateLimit.Limiter.TryTake | ratelimit/ratelimit.go:27-37 | The critical section refills and takes a token as the bucket function says, and a refusal yields the sleep that brings one token. |
| RateLimit.Limiter.Wait | ratelimit/ratelimit.go:25-44 | The loop, undisturbed, ends in the state and with the answer of the lone waiter. |
| RateLimit.WaitAloneEnds | ratelimit/ratelimit.go:25-44 | A lone waiter needs at most one sleep if the maximum is at least 1, and is otherwise never granted until cancelled. |
| RateLimit.LimiterGrantsIffWholeToken | ratelimit/ratelimit.go:18-35 | A limiter grants anything at all, over any non-empty run, exactly if its rate is at least 1, or 0 or less, which counts as 1. |
| CircuitBreaker.BreakerMeaning | chain/chain.go:103-117 | The count is the failures since the last success modulo 3, and openUntil is 30 s after the last third failure of a streak, success or not. |
| CircuitBreaker.Ledger | chain/chain.go:103-117 | Recorded failures are three per opening, plus those pending, plus those wiped by successes; fewer than three are pending. |
| CircuitBreaker.OpenUntilGrows | chain/chain.go:109-117 | No record moves openUntil back. |
| CircuitBreaker.OpenDuringCooldown | chain/chain.go:97-117 | For 30 s after an opening the breaker reads open, whatever is recorded meanwhile. |
| CircuitBreaker.OpenIff | chain/chain.go:97-117 | The breaker reads open exactly if some failure that was the third, sixth, ... in a row was recorded less than 30 s ago. |
| Backoff.FaithfulIff | chain/chain.go:92-95 | The pause is 2^attempt half seconds plus its jitter, for every jitter, exactly for attempts up to 33. |
| Backoff.PausesAre | chain/chain.go:92-95 | Up to attempt 33 the possible pauses are exactly the whole nanoseconds from 500 ms times 2^attempt up to, not including, 750 ms times it. |
| Backoff.TotalPauseBounds | chain/chain.go:77 | n pauses in a row total at least 500 (2^n - 1) ms and less than 750 (2^n - 1) ms. |
| Backoff.FirstPanic | chain/chain.go:94 | A jitter can be drawn exactly where the draw does not panic, which is so up to attempt 34 and not at 35. |
| Backoff.ComputeBackoff | chain/chain.go:92-95 | The call panics exactly where no jitter can be drawn, and else is the wrapped sum of delay and some jitter. |
| Fallback.LogIsShaped | chain/chain.go:49-85 | Whatever a search has done so far is a list of finished visits and the open one. |
| Fallback.SearchContract | chain/chain.go:49-85 | The event logs with which a search returns r are exactly the in-order visits to entries that their retries admit, each but the last falling through, ending in a win, an abort, a panic of backoff or no entry left. |
| Fallback.SearchCounts | chain/chain.go:51-84 | Entries behind were skipped or failed exactly once (neither for negative retries), the winner has one success and no failure, entries ahead are untouched, no entry gets more than retries + 1 calls. |
| Fallback.ThrottleIsLastCall | chain/chain.go:71-73 | After a rate-limit answer no later call goes to the same entry. |
| Fallback.SearchTerminates | chain/chain.go:51-79 | Every event lowers a measure, so a search does a bounded number of events. |
| Fallback.ExhaustedPauses | chain/chain.go:57-79 | Exhausting r retries pauses at least 500 (2^(r+1) - 1) ms and less than 750 (2^(r+1) - 1) ms in total. |
| Fallback.AttemptsStayBelow36 | chain/chain.go:57-78 | No entry is called for an attempt after 35, however many retries it has. |
| Fallback.CrashIff | chain/chain.go:92-95 | Some search ends in a panic exactly if some entry has 35 retries or more. |
| ProviderChain.Entry.ReadOpen | chain/chain.go:97-101 | The check compares the time with the entry's openUntil. |
| ProviderChain.Entry.RecordSuccess | chain/chain.go:103-107 | A success changes the breaker as the breaker function says. |
| ProviderChain.Entry.RecordFailure | chain/chain.go:109-117 | A failure changes the breaker as the breaker function says. |
| ProviderChain.Attempt | chain/chain.go:57-78 | One round of the retry loop returns the provider's hits, gives up on a refused token or a rate-limit answer, stops if the pause is cancelled, or goes on, exactly as the outside answers. |
| ProviderChain.TryEntry | chain/chain.go:55-79 | The retry loop is a visit that the entry's retries admit, attempt for attempt as the outside answers, with the result to return or whether there is an error to record. |
| ProviderChain.VisitEntry | chain/chain.go:51-83 | A visit skips exactly if the breaker reads open at its check, goes as the outside answers, and leaves the breaker as its own events replayed. |
| ProviderChain.Chain.Search | chain/chain.go:49-85 | Search visits the entries in order as the outside answers and ends with the result of its log; each check was answered by the breaker before, each breaker is then the old one with the log's records, the times of the log are in order from the start to the end, and each visit takes at least its pauses. |
| ProviderChain.SearchAnswer | chain/chain.go:49-85 | Given what limiter, providers and context answer, a search finds hits h of entry k exactly if k's breaker is closed, its first attempt that does not fail is h, within its retries, and all entries before are open or fall through; it has no results exactly if all are. |
| ProviderChain.HealthyEntryAnswers | chain/chain.go:51-69 | So an entry whose cooldown is over, with hits before anything else but failed attempts, is the one found if every entry before it falls through or is in its cooldown when checked. |
| ProviderChain.ExhaustTakesTime | chain/chain.go:74-78 | An entry that exhausts r retries, up to 33, holds the search for at least (2^(r+1) - 1) / 2 seconds before the next entry is checked or the search ends. |
| ChainRuns.SearchesFollowLogs | chain/chain.go:49-85 | In every reachable state of concurrent searches each search stands where its own log leads, so the contract of one search holds of all. |
| ChainRuns.BreakerFollowsRecords | chain/chain.go:97-117 | An entry's breaker depends only on the successes and failures recorded on it, in order. |
| ChainRuns.EntryLedger | chain/chain.go:97-117 | The ledger holds for every entry under any interleaving. |
| ChainRuns.NoPassDuringCooldown | chain/chain.go:52-54 | No search passes an entry's check within 30 s after a failure opened it. |
| ChainRuns.SkippedIff | chain/chain.go:52-54 | In any run, a search skips an entry at its check exactly if less than 30 s before a third failure in a row was recorded on it. |
| ChainRuns.OpenUntilNeverDecreases | chain/chain.go:109-117 | openUntil never decreases over a run. |
| ChainRuns.BucketFollowsPolls | chain/chain.go:58-60 | An entry's bucket and grants are those of the visits all searches made to it. |
| ChainRuns.CallsConsumeGrants | chain/chain.go:57-61 | Grants of an entry are the calls made to it and the searches about to make one. |
| ChainRuns.PolitenessInWindow | chain/chain.go:57-61 | Over all searches and retries, in any window of any run, the calls to an entry are at most rps (1 + length), and those that had their token when the window began. |
| ChainRuns.Politeness | chain/chain.go:57-61 | From the start: the calls to an entry by time t are at most rps (1 + t - t0), where a rate of 0 or less counts as 1. |
| ChainRuns.SlowEntryNeverCalled | ratelimit/ratelimit.go:18-35 | An entry with a rate above 0 and below 1 is never called, in any run. |
| Service.PollGrantedIff | ratelimit/ratelimit.go:25-35 | In any run, a search asking an entry's limiter gets its token exactly if one more grant fits every window of polls up to then: no more than rps (1 + length) grants. |
| Service.EverySearchGoesOn | chain/chain.go:49-85 | With rates of at least one per second, every unfinished search of any run has a possible move at some later time. |
| Service.AllFinish | chain/chain.go:49-85 | With such rates every run goes on to one in which all searches have finished. |
| Cooldown.LateCallPassedBefore | chain/chain.go:52-61 | A call to an entry within 30 s of an opening comes from a search that passed the check before the opening. |
| Cooldown.CallsDuringCooldown | chain/chain.go:49-85 | In those 30 s the entry gets at most retries + 1 calls from each search that was between check and outcome at the opening, and none from others. |
| Cooldown.CallDespiteCooldown | chain/chain.go:52-61 | Such a call happens: three searches open the breaker, and a fourth that passed the check calls afterwards. |
| SearchStream.FramesArePrefix | server/http.go:185-222 | Over every interleaving and cancellation the frames are a prefix of: all results in order and then done, or one error. |
| SearchStream.TerminalFrames | server/http.go:209-222 | A terminal frame is the last one, done only after every result, error only alone. |
| SearchStream.UncancelledOutput | saka.go:236-261 | Without cancellation a handler that has returned has written exactly that sequence. |
| SearchStream.NeverStuck | saka.go:236-261 | No reachable state before both sides have finished is stuck, once Search returns. |
| SearchStream.RunsAreFinite | saka.go:249-260 | Every step lowers a measure; a run has at most 2 n + 7 steps for n results. |
| SearchStream.RunCompletes | server/http.go:185-221 | Every run can be continued, without cancelling, to one in which both sides have finished. |
| SearchStream.CancelledProducerCloses | saka.go:249-260 | Once cancelled the producer can always move, with or without a consumer, and each of its steps brings it closer to the close. |
| SearchStream.WaitsIff | saka.go:249-257 | Without cancellation, a producer with results left waits exactly when it is eight results ahead of the written frames. |
| FetchStream.RunKeepsInvariant | fetch/fetch.go:127-174 | In every reachable state chunks are conserved and page and error slots are filled only where the two programs fill them. |
| FetchStream.PipelineConserves | fetch/fetch.go:157-160 | Consumed, outer buffer, chunk in hand, inner buffer and unsent chunks make up the chunk sequence, in order. |
| FetchStream.DrainedToClose | fetch/fetch.go:161-172 | At the close the consumer has every chunk and exactly one of page and error was delivered, once; the page is the one cached. |
| FetchStream.NeverStuck | fetch/fetch.go:127-174 | With a consumer that reads on, no reachable state is stuck. |
| FetchStream.RunsAreFinite | fetch/stream.go:27-98 | A run has at most 4 n + 11 steps for n chunks. |
| FetchStream.RunCompletes | fetch/fetch.go:127-174 | Every run with the consumer there goes on to one in which it has read to the close. |
| FetchStream.LeftBehind | fetch/fetch.go:158-160 | After the consumer left and everything halted, the forwarder has ended exactly if the unconsumed chunks fit the channel; else it hangs and nothing is delivered or cached. |
| FetchStream.LeftHalts | fetch/fetch.go:158-160 | Every run whose consumer has left goes on to one in which everything has halted, with no more consumed. |
| FetchStream.StrandedIff | fetch/fetch.go:158-160 | Some run strands the forwarding goroutine exactly if there are more than 16 chunks. |
| FetchStream.StreamedPageAgrees | fetch/fetch.go:157-169 | For a parsed document the consumed text, the delivered page and the cached page agree up to white space. |
| DiskCache.Disk.Lookup | fetch/diskcache.go:36-55 | A lookup returns the page of a fresh, readable, decodable file and tries to remove an expired or torn one. |
| DiskCache.Disk.Store | fetch/diskcache.go:57-70 | A store leaves the final file untouched unless the rename happens. |
| DiskCache.Disk.Collect | fetch/diskcache.go:74-86 | The collector removes exactly the expired final files but those whose removal fails, and returns how many were expired. |
| DiskCache.StaysIff | fetch/diskcache.go:74-86 | A file outlasts the collector exactly if it is temporary, no older than the TTL, or cannot be removed. |
| DiskCache.RemovalInvisibleIff | fetch/diskcache.go:72-86 | Removing files at some time changes no read of any URL at that time or later exactly if the final ones with a page among them have expired. |
| DiskCache.CollectorInvisible | fetch/diskcache.go:72-86 | So no read notices that the collector ran, whatever removals worked. |
| DiskRuns.LoneVisitIsGet | fetch/diskcache.go:36-55 | Get's file operations one after the other, with nobody in between, change and answer what Get does. |
| DiskRuns.LoneCollectorDrops | fetch/diskcache.go:78-83 | The collector's steps on one file, with nobody in between, remove it exactly if it has expired and the removal works. |
| DiskRuns.LonePutIsPut | fetch/diskcache.go:57-70 | Put's file operations one after the other, however far they get, leave the files that Put leaves. |
| DiskRuns.DiskRefinesMap | fetch/diskcache.go:36-86 | Over any interleaving of the file operations of puts, reads, collectors and crashes: at every moment a read gives what a timestamped map without removals would, exactly if no removal of the URL's file came after the rename of another, still fresh page since the file was looked at. |
| DiskRuns.ReadReturnsLatest | fetch/diskcache.go:44-54 | Unconditionally, a page returned is the one renamed last, and was fresh by a clock reading taken during the read. |
| DiskRuns.ReadsLinearize | fetch/diskcache.go:36-55 | Without such a race so far, every read that the file system does not fail answers what the map gives at some moment of the read. |
| DiskRuns.RaceLosesPage | fetch/diskcache.go:38-41 | The race exists with one writer and a forward clock: a removal of an expired page deletes the fresh one just renamed into its place. |
| DiskRuns.CollectionIsInvisible | fetch/diskcache.go:72-86 | Dropping all readers and collectors from a run changes what some read would give exactly if there is such a race. |
| DiskRuns.OldOrNew | fetch/diskcache.go:57-70 | While a put is under way the map has the old page, and until the next put of the URL it has the old or the new one, whatever else happens. |
| DiskRuns.CrashLeavesOldOrNew | fetch/diskcache.go:57-70 | After a crash at any moment of a put, with anything else before and after, reads return the old page, the new one or nothing until the next put of the URL; not the new one if the rename had not happened. |
| Fetcher.Fetcher.StoreFresh | fetch/fetch.go:113-118 | A fresh page is written to both tiers. |
| Fetcher.Fetcher.FetchPage | fetch/fetch.go:55-120 | The method consults memory, disk and origin in this order and updates both tiers as the fetch function says, which LoneFetch joins to the steps of concurrent fetches. |
| FetchRuns.RunTraced | fetch/fetch.go:60-118 | Over any interleaving of fetches and streams in several processes, what is cached anywhere was extracted for its URL, and expires within the TTLs and the times taken, however often it was loaded from disk again. |
| FetchRuns.Staleness | fetch/fetch.go:60-76 | A returned page was extracted from the origin for that URL; its age is below both TTLs plus the time from disk read to memory write plus the time from extraction to storing, or at most that without the memory TTL. |
| FetchRuns.AlwaysBelowIff | fetch/fetch.go:60-76 | For all such times, the age stays below that sum over every run exactly if the memory TTL is positive. |
| SharedDisk.RunJoined | fetch/diskcache.go:57-70 | Over every run of fetches, the disk they see is the timestamped map that their own put steps make. |
| SharedDisk.ReadAllowed | fetch/fetch.go:70-76 | Whatever a read of the files answers, in any run of the files that takes the fetches' put steps amid any readers and collectors, races included, is an answer the fetch model allows. |
| LoneFetch.LoneFetchIsFetch | fetch/fetch.go:55-120 | With nobody in between, a fetch has the result, the memory and the files that its locked sections and disk operations give as steps of a run: look, load and warm, or extract, remember and put, for every I/O outcome and every answer of the origin. |
| LoneFetch.FetchStaleness | fetch/fetch.go:60-120 | For any list of fetches one after the other, in any processes with one cache directory: a page returned is the text of a document that the origin gave with status 200 for that URL to this or an earlier fetch, and no older than the staleness theorem allows. |
| LoneFetch.MemoryServes | fetch/fetch.go:60-76 | A page that a fetch got from disk or the origin is found again by the process's next fetch of the URL exactly if that comes less than the TTL after it was kept, without asking disk or origin. |
| LoneFetch.DiskServes | fetch/fetch.go:70-76 | A page whose Put got to the rename is found by the next fetch of the URL, in any process, that misses its memory, exactly if the file can be read and is no older than the disk TTL. |
| Auth.AuthMiddleware.Allow | server/auth.go:64-86 | The closure changes the one key's bucket as a visit does and no other key's. |
| Auth.AuthMiddleware.Handle | server/auth.go:88-123 | The handler answers 401, 429, 402 or serves, as the response function says. |
| Auth.KeysAreIndependent | server/auth.go:64-86 | After any run a key's bucket is the one it would have if it were alone. |
| Auth.AnswerIsLoneBuckets | server/auth.go:88-118 | A request of a known key takes a token exactly if the lone bucket grants one at its place among the key's requests; a 402 takes one, too. |
| Auth.AdmittedIff | server/auth.go:64-86 | A request of a known key takes a token exactly if one more fits every window of that key's requests up to it. |
| Auth.AnswerMeaning | server/auth.go:88-123 | 401 exactly without a known key after "Bearer "; 429 exactly without a token; served, with that key, exactly if a token was taken and the path is not /v1/stream or the tier is standard or pro. |
| Auth.TierRates | server/auth.go:29-33 | A pro key has 600 requests a minute, a standard one 120, any other 10. |
| Auth.RefusedStreamCosts | server/auth.go:107-118 | The first request of a key without streaming, if for a stream, is answered 402 and leaves the bucket one token short. |
| Auth.LeastWait | server/auth.go:107-112 | The waits after a refusal that always get the next request admitted are exactly those of at least 60 / RPM seconds; the advertised one is the next whole second. |
| Auth.KeyWindowBound | server/auth.go:64-86 | In any window of a run a key has at most RPM + RPM times the window's minutes admitted, whatever other keys do. |
| Auth.RetryAfterSuffices | server/auth.go:107-112 | A key refused, coming back the advertised seconds later with nothing admitted in between, is admitted. |
| Engine.Validate | saka.go:78-119 | Validate returns the first fault, and none exactly for a valid configuration. |
| Engine.ValidationMeaning | saka.go:78-119 | No fault is found exactly if there are providers, each is good, no name occurs twice in whatever verticals, and the fetch section is in range. |
| Engine.ErrorMeaning | saka.go:78-119 | What Validate complains of is wrong, all that it checks before is in order, and an error names the provider and the verticals it is about. |
| Engine.NewChain | chain/chain.go:29-43 | The nested loops make one entry, with a closed breaker, per configuration entry and provider of its name, in order. |
| Engine.GroupByVertical | saka.go:191-194 | The groups are the verticals in use, each with its configuration entries in order. |
| Engine.New | saka.go:157-204 | New succeeds exactly for a valid configuration whose factories all succeed and whose cache directory, if any, can be made, and otherwise reports the first of these that fails; it has one chain per vertical, all breakers closed, and the configured TTLs. |
| Engine.Engine.Search | saka.go:208-215 | Search errs exactly for a vertical without a chain, and else returns what that chain's search does. |
| Engine.VerticalPartition | saka.go:191-198 | Each provider is in the chain of its vertical exactly once, with its configured rate and retries, and in no other, in configuration order. |
| Engine.ChainIffVertical | saka.go:191-198 | A vertical has a provider configured for it exactly if its list of entries is not empty. |
| Engine.RoutesMeaning | saka.go:208-215 | A built engine has a chain for a vertical exactly if a provider is configured for it, and that chain is made of those providers, each once, in configuration order. |
| Engine.SearchStaysInVertical | saka.go:208-215 | All that a search for a vertical does it does to entries configured for it, and it never panics. |
| Engine.RunStaysInVertical | chain/chain.go:49-85 | So for any number of concurrent searches, over every interleaving: every call goes to an entry configured for the vertical. |

## Left out

- HTML parsing, HTTP, JSON encoding and provider scraping: trees, encoded pages and outcomes are inputs.
- Titles and publication times (`findMeta`, `findTag`, `parseTime`): a page is its URL and text.
- Text that is not valid UTF-8.
- Float rounding and the truncation of sleeps to nanoseconds: reals are exact.
- robots.txt: the origin's answer may be a refusal.
- ProviderChain.Chain.Search: no other search acts between its steps, and the limiter's answers are an input; module ChainRuns has the limiter and any number of searches.
- ChainRuns.SearchesFollowLogs: a search that panics just ends; that it can take the process with it is left out.
- RateLimit.Limiter.Wait: no other caller acts while it sleeps; module ChainRuns has any number of waiters.
- DiskCache.Disk.Lookup: nobody else acts between its file operations; module DiskRuns has any number of readers.
- DiskCache.Disk.Collect: one clock reading, and nobody else acts; module DiskRuns has a reading per file and any number of collectors.
- Fetcher.Fetcher.FetchPage: no other fetch in between (module FetchRuns has any number of them), and the limiter's error is one answer of the origin.
- FetchStream.NeverStuck: assumes a consumer that reads on; FetchStream.LeftBehind says what happens otherwise.
- The terminal frame of the fetch-stream handler, which may see the closed channel before a pending error.
- DiskRuns.DiskRefinesMap: one writer per URL at a time, since two would share a temporary file; the hashed file name is taken to be injective, and each single file operation to be atomic.
- Signed keys, usage counters, the registry, tool schemas, MCP, the command line and deployment: plumbing.
