# Webhook inbox: verified model

A Dafny model of the logic of a webhook inbox that stores incoming webhooks, searches them and sends them again, with
proofs of what that logic promises. `dafny verify dfyconfig.toml` checks everything.

- **The replay queue** (`Replays`, `ReplayProtocol`, `ReplayLaws`, `ReplayDrain`). The collection of replays is a class
  whose methods are the database calls. `ReplayProtocol` runs any number of workers on it, one database call a step, with
  crashes at any point, clocks read before they are used, and writes that arrive after the lease was taken back.
- **The token bucket** (`RateLimit`, `RateLimitLaws`). The limiter is a class with a table of bucket objects; the laws are
  about whole runs of calls.
- **Search and paging** (`Tokenize`, `Lookalikes`, `Events`, `Query`, `Paging`, `Listing`, `SearchLaws`, `Typos`). Terms are built from
  text, pipelines are lists of stages with a meaning, and pages are followed by cursor.
- **Bodies** (`JsonDepth`, `Body`, `Utf8`, `RawBody`). The byte scan is proved against a grammar of JSON texts, key
  escaping against the values it round-trips, and the stored text against the bytes that arrived.

## Facts of the code that the proofs turn on

- A finish or abandon names its replay by identifier and checks nothing stored, so the last write decides
  (`ReplayLaws.LastWriteDecides`). A worker that outlives its lease can turn a success into a failure, a failure into a
  success (`ReplayLaws.LateWritesReplaceResults`), and put a delivered replay back in the queue
  (`ReplayLaws.LateWriteUndoesASuccess`). Exactly which step changes a stored result is
  `ReplayLaws.AResultIsOverwrittenIff`; writing in time, or a lease never taken back, rules it out.
- docs/architecture.md:318-319 says that 5xx is retried and 4xx never is. The code retries 429, and of the 5xx range only
  500, 502, 503, 504, 507, 508 and 509. The model follows the code.
- A search that starts with a dollar sign is a field path inside the score expression, so its exact and prefix tiers never
  fire: an indexed identifier such as `$set.value`, searched verbatim, scores 40 and not 100
  (`SearchLaws.DollarIdentifierScoresForty`).
- A search has no terms exactly when it holds no letter and no digit (`SearchLaws.TermlessIffNoAlnum`), and then scoring
  alone would accept every event while the prefilter does not.
- The plain list pages by time alone, so events tied with the last row of a full page are skipped. The pages are
  complete exactly when no page boundary of the whole list splits a tie (`Listing.ListingIsCompleteIff`).
- A lookalike that the sender wrote in a key comes back from storage as a dot or a dollar sign, so a rebuild can lose a
  token that ingest stored (`Events.RebuildCanDiffer`). It indexes the same strings exactly when no key outside the
  sensitive ones and what lies under them holds the dot lookalike or starts with the dollar one
  (`Events.RestoredStringsIffClean`).
- `retry_after` takes the current time and does not use it.
- A negative `max_retries` is possible and still gives one attempt.

## Model

| member | source | states |
|---|---|---|
| Replays.EndingsAreClassified | app/replay/runner.py:34-151 | every ending of a request is a success, a retryable failure or a final failure and never two of them, with the statuses that are retried listed independently; an answer is recorded as it came and any other ending leaves its reason |
| Replays.BackoffDoubles | app/replay/store.py:88-93 | the first retry waits the configured delay and each further one twice the one before |
| Replays.ReplayCollection.Enqueue | app/replay/store.py:22-43 | adds one pending replay of the request with no attempt counted and no outcome, due from now on and not before, and leaves the others alone |
| Replays.ReplayCollection.TakeBackExpired | app/replay/store.py:47-55 | exactly the running replays whose lease ran out strictly before become pending, nothing but their state changes, and none is left expired |
| Replays.ReplayCollection.TakeEarliestDue | app/replay/store.py:56-65 | takes any one of the pending replays due earliest, counting the attempt and stamping the lease and the start, or nothing exactly when none is due |
| Replays.ReplayCollection.Claim | app/replay/store.py:46-65 | undisturbed, comes back empty iff nothing is due and no lease has expired; keeps every running replay due when leased |
| Replays.ReclaimedIsDue | app/replay/store.py:47-58 | a replay taken back is due in the same claim, so what a claim can take is what was due or expired |
| Replays.ReplayCollection.Finish | app/replay/store.py:68-99 | the state returned and stored is that of the outcome by the worker's own copy; the attempt's answer, error and duration are stored; other replays and the claim's fields stay; the end or the next attempt is set, never both |
| Replays.ReplayCollection.Abandon | app/replay/store.py:102-112 | that replay is failed and ended now with the reason; its response, its claim's fields and other replays stay |
| Replays.ReplayCollection.RunOnce | app/replay/worker.py:13-41 | one claim and then exactly one write: if the event is stored the request is sent and its ending decides state, answer, error and next attempt; if not, the replay fails for that reason and no answer is touched; with nothing taken only expired leases change |
| ReplayProtocol.RunsKeepInvariant | app/replay/store.py:46-112 | in every run: running replays were due when leased, a worker's copy is a claim the replay has counted, and no two workers hold the same claim |
| ReplayProtocol.RunsAreAccounted | app/replay/store.py:46-112 | in every run each claim writes at most one outcome, and attempts are paid for by retry writes and reclaims |
| ReplayProtocol.AttemptsAreBounded | app/replay/store.py:85-99 | under any interleaving with late writes, at most `max_attempts - 1` retry writes happen, and attempts never exceed `max_attempts` (or one) plus the reclaims |
| ReplayProtocol.WorkIsBounded | app/replay/worker.py:13-41 | all successful claims of a run number at most the attempts allowed plus the leases taken back |
| ReplayLaws.LeasesAreExclusive | app/replay/store.py:49-64 | if every write happens within the lease, a replay has at most one live holder, whose attempt number is the stored one |
| ReplayLaws.ResultsAreFinal | app/replay/store.py:85-112 | if every write happens within the lease, a finished replay is never changed again |
| ReplayLaws.AResultIsOverwrittenIff | app/replay/store.py:85-112 | in any run the state of a finished replay changes exactly by a finish of another outcome, or an abandon of a success, from a worker still holding it; any change implies such a write, a reclaim, and a late write if those before were in time |
| ReplayLaws.AResultIsReopenedIff | app/replay/store.py:87-97 | of these, exactly the finishes that may be retried put a finished replay back in the queue |
| ReplayLaws.LastWriteDecides | app/replay/store.py:97 | for every configuration and any two outcomes, a run in which a worker that lost its lease overwrites the outcome of the one that took over |
| ReplayLaws.LateWritesReplaceResults | app/replay/store.py:97 | for every configuration, runs from success to failure and from failure to success |
| ReplayLaws.LateWriteUndoesASuccess | app/replay/store.py:97 | for every configuration that retries, a run in which a late timeout returns a delivered replay to the queue |
| ReplayLaws.UnreclaimedReplaysAreOrderly | app/replay/store.py:85-95 | a replay never taken back has retryable failures and then at most one final outcome, numbered without gaps, and its k-th claim is no earlier than `created_at + delay * (2^(k-1) - 1)` |
| ReplayLaws.ExhaustedMeansAllAttemptsUsed | app/replay/store.py:87-95 | a replay never taken back that gave up after retryable failures was claimed exactly `max_attempts` times, and at least once |
| ReplayDrain.Drain | app/replay/worker.py:44-56 | the polling loop of one undisturbed worker ends with every replay finished, whatever the destinations answer, within the turns left |
| ReplayDrain.TurnsAreSpent | app/replay/worker.py:13-41 | a turn that takes a replay uses up one of the turns left, and one that takes none changes nothing |
| ReplayDrain.TurnsOfAFreshQueue | app/replay/store.py:31-33 | a fresh queue has `max_attempts` (or one) turns for each replay |
| ReplayDrain.ATurnIsARun | app/replay/worker.py:13-41 | whatever one undisturbed turn does to the collection, the steps of the protocol do from the same world, however late the write arrives |
| ReplayDrain.UndisturbedStepsAreAClaim | app/replay/store.py:46-65 | an undisturbed claim in protocol steps is one claim on the collection |
| ReplayDrain.EmptyHandedMeansDrained | app/replay/store.py:46-65 | in every reachable world, an undisturbed claim made once every replay is ready comes back empty iff all are finished |
| ReplayDrain.NeverStuck | app/replay/worker.py:44-56 | from every reachable world, after any crashes and late writes, some run finishes every replay |
| ReplayDrain.EverySchedule | app/replay/worker.py:44-56 | in every endless schedule of any number of workers with finitely many replays and reclaims, claims stop succeeding, and from then on a late undisturbed claim finds every replay finished |
| RateLimit.RateLimiter.Allow | app/ratelimit.py:31-46 | one call on the table of buckets is the step the laws speak of; switched off or with no positive rate it answers true and leaves the table alone |
| RateLimit.RateLimiter.RetryAfterSeconds | app/ratelimit.py:48-54 | at least one second; that long after its last refill the stored bucket holds a token, and an empty one does not more than a second earlier |
| RateLimit.RateLimiter.Prune | app/ratelimit.py:56-67 | drops exactly the buckets idle for the limit, once a minute |
| RateLimit.PruneDropsTheIdle | app/ratelimit.py:56-67 | once sixty seconds have passed since the last time, exactly the buckets left alone for sixty seconds go, and the others stay as they are |
| RateLimitLaws.AllowIsTheWindowRegulator | app/ratelimit.py:31-46 | switched on with a positive rate, a request is let through iff for every earlier admission of its key, the admissions since then plus one are at most the rate per minute plus a sixtieth of it for every second since |
| RateLimitLaws.EveryWindowIsBounded | app/ratelimit.py:31-46 | in any run a window holds at most the rate per minute plus a sixtieth of it for every second of its length |
| RateLimitLaws.BalanceIsEveryWindow | app/ratelimit.py:40-45 | the lazily refilled balance is at least x iff no window ending now is overcharged |
| RateLimitLaws.PruningIsInvisible | app/ratelimit.py:56-67 | over every sequence of calls the answers are those of a limiter that never prunes |
| RateLimitLaws.TheTableIsBounded | app/ratelimit.py:56-67 | after each call every stored bucket belongs to a key that called in the last 120 seconds |
| RateLimitLaws.RetryAfterIsExact | app/ratelimit.py:48-54 | after a denial a request that waits as told is admitted, whatever happens in between short of an admission of the key, and one more than a second earlier is refused |
| RateLimitLaws.InactiveAdmitsEverything | app/ratelimit.py:24-33 | switched off or with no rate, everything is admitted and nothing stored |
| JsonDepth.NestingDepth | app/ingest/parser.py:54-73 | on every text of every JSON value the loop returns the structural depth |
| JsonDepth.ScanValue | app/ingest/parser.py:54-73 | scanning any text of a value restores depth and string state and raises the maximum by exactly its depth |
| Body.EscapedBodyIsStorable | app/ingest/parser.py:20-35 | every key of an escaped body, at any depth, has no dot and no leading dollar |
| Body.EscapeMergesNoCleanKeys | app/ingest/parser.py:30-32 | distinct keys without the lookalikes stay distinct and no pair is lost |
| Body.EscapeRoundTripIffClean | app/ingest/parser.py:20-43 | unescaping undoes escaping iff no key at any depth holds the dot lookalike or starts with the dollar one |
| Body.EscapeIsIdentityIffStorable | app/ingest/parser.py:20-35 | escaping leaves a body alone iff all its keys are storable already |
| Body.KeysAreExchanged | app/ingest/parser.py:20-27 | character by character, dots become U+FF0E and a leading dollar sign U+FF04, and back, and nothing else changes |
| Utf8.DecodeThenEncode | app/ingest/parser.py:46-49 | whatever the strict decoder accepts is the encoding of what it returns |
| Utf8.EncodeThenDecode | app/replay/store.py:19 | every text is decoded back from its encoding |
| Utf8.EncodingIsTheTable | app/replay/store.py:19 | how many bytes a character takes, in what ranges, and where its bits go, as section 3 of RFC 3629 has it |
| RawBody.Base64RoundTrip | app/ingest/parser.py:51 | base64 is undone by its decoder for every byte sequence and padding |
| RawBody.Base64IsTheRfcs | app/ingest/parser.py:51 | each three bytes are a number of 24 bits written as four letters of section 4 of RFC 4648, with zero bits and equals signs at the end |
| RawBody.ReplaySendsTheBytesThatArrived | app/replay/store.py:13-19 | the body sent is the body stored, for every byte sequence |
| RawBody.Base64OnlyForInvalidUtf8 | app/ingest/parser.py:46-51 | base64 is chosen iff the bytes are the UTF-8 of no text |
| Tokenize.TokenizeValue | app/search/tokenize.py:28-35 | the words in order, each cut to 64 characters, and then the whole text cut the same if there are several words and no space; the whole text is one of them iff it is kept whole |
| Tokenize.TokensHoldTheWholeText | app/search/tokenize.py:28-35 | a text is one of its own tokens iff it is at most 64 characters and is one word or several without a space |
| Tokenize.SeparatorsSplit | app/search/tokenize.py:24-25 | any character that is not a small letter or a digit splits a text into the words on either side of it |
| Tokenize.OneWord | app/search/tokenize.py:24-25 | a text of small letters and digits is one word, so with the row above every text has its words |
| Tokenize.NoWordsIffNoAlnum | app/search/tokenize.py:24-25 | a text has no words iff it has no letter and no digit |
| Tokenize.NormalFormIs | app/search/tokenize.py:20-21 | white space goes from both ends and nothing else does, A to Z become small and nothing else changes |
| Tokenize.CaseDoesNotMatter | app/search/tokenize.py:20-21 | texts that differ only in the case of letters have the same normal form and tokens, and as keys are sensitive together |
| Tokenize.TrigramsSlideOverTheToken | app/search/tokenize.py:38-42 | one trigram for each place of the token with a space before and after it, and none of a token under three characters |
| Tokenize.Capped | app/search/tokenize.py:45-51 | no value twice, the values of a prefix of the list, and all of them unless the cap is reached |
| Tokenize.Collect | app/search/tokenize.py:54-70 | appends the indexed strings of a body and nothing under a sensitive key |
| Lookalikes.IndexedIsPublic | app/search/tokenize.py:54-70 | the indexed strings of a body are all keys, texts and numbers, in order, of what is left when every sensitive pair is deleted |
| Tokenize.CollectSources | app/search/tokenize.py:73-91 | a string is collected iff it is the endpoint, a non-empty event type, the key or value of a header or query field whose key is not sensitive, or a string of the body; and they come in that order |
| Tokenize.BuildTerms | app/search/tokenize.py:94-104 | only tokens of the collected strings and trigrams of those tokens, none twice, at most 512 and 2048, and all of them when there are fewer |
| Tokenize.SensitiveIff | app/log.py:5-30 | a key is sensitive iff in small letters it holds one of the fourteen words |
| Tokenize.SecretsDoNotReachTheIndex | app/search/tokenize.py:54-104 | requests that differ only under sensitive keys, at any depth, have the same terms through both caps |
| Lookalikes.SensitiveIgnoresMarks | app/log.py:28-30 | exchanging dots, dollar signs and their lookalikes never changes whether a key is sensitive |
| Lookalikes.PublicOfRenamed | app/ingest/parser.py:30-43 | deleting the sensitive pairs commutes with renaming keys and merging those that become alike, at every depth |
| Lookalikes.StringsTellTheBody | app/ingest/parser.py:30-43 | a body that comes back from storage with the same strings comes back the same: merging two keys always loses one |
| Lookalikes.IndexedStringsSurviveIff | app/search/tokenize.py:54-70 | the strings indexed of a body are the same after storage iff no key outside the secrets holds the dot lookalike or starts with the dollar one |
| Events.RestoredStringsIffClean | app/search/tokenize.py:107-116 | the rebuild indexes the strings that ingest indexed iff no indexed key of the body holds the dot lookalike or starts with the dollar one |
| Events.RebuildAgreesWithIngest | app/search/tokenize.py:107-116 | then the terms rebuilt from a stored event are those written at ingest |
| Events.RebuildCanDiffer | app/search/tokenize.py:107-116 | for any two words joined by the lookalike dot as a key, the rebuild loses the token that ingest stored |
| Events.RebuildChangesNothing | app/search/backfill.py:15-33 | a full rebuild of such events changes no document |
| Events.ReceivedNeedsNoBackfill | app/ingest/receiver.py:107-135 | a collection filled by ingest has nothing to backfill, and a full rebuild changes nothing if every indexed key is clean |
| Events.EventCollection.Backfill | app/search/backfill.py:15-33 | a rebuild gives every document its recomputed terms and counts them all; a plain backfill does so for exactly those that had none and counts those; nothing else of any document changes, whatever the order and the batches |
| Events.BackfillIsIdempotent | app/search/backfill.py:15-33 | a second backfill finds nothing to do |
| Query.BuildCondition | app/search/query.py:51-69 | the condition built holds of an event iff every filter given holds, the method in capitals and the whole end day included |
| Query.CandidateClause | app/search/query.py:107-117 | the prefilter lets an event through iff a token is or starts with the text, or every one of some terms is a token, or some trigram is shared |
| Query.WantedIs | app/search/query.py:172-174 | the terms of a query are the words of its normal form cut to 64 characters, and its trigrams are those of all its terms, each once |
| Paging.PipelineReturnsTheRanking | app/search/query.py:169-187 | the stages return exactly the candidates that score 12 or more and come after the cursor, by score, then newest, then greatest identifier, whatever order the collection is read in |
| Paging.BuildPipeline | app/search/query.py:169-187 | the stages built, run on any collection, give exactly the rows asked for in rank order, or with a limit the first of them |
| Paging.RankedPagingIsExact | app/search/query.py:145-157 | following cursors to a short page while events are inserted returns every event that matched at the start, none twice, and only matches |
| Paging.PagesJoinToTheExport | app/search/query.py:209-214 | with no inserts the pages joined are the unbounded pipeline of the export |
| Listing.CursorNarrowsTheFilters | app/search/query.py:203-205 | along a chain of pages, replacing the end date by the cursor only narrows the filters |
| Listing.CursorAfterARow | app/search/query.py:100-104 | the cursor made of a matching row asks for exactly the matching events older than it |
| Listing.ListingNeverRepeats | app/search/query.py:199-206 | whatever is inserted meanwhile, no event is on two pages of the plain list or twice on one |
| Listing.ListingOmitsExactlyTies | app/search/query.py:199-206 | whatever is inserted meanwhile, a matching event there at the start is on no page iff it has the time of the last row of some full page and is not on that page |
| Listing.ListingIsCompleteIff | app/search/query.py:199-206 | while newer events arrive, the pages hold every matching event there at the start iff no page boundary of the list at the start falls between two events of one time |
| Listing.ListingsAgreeOnTimes | app/search/query.py:206 | any two newest-first orders of the same events have the same times in the same places, so that condition does not depend on how ties are ordered |
| Listing.DistinctTimesListEverything | app/search/query.py:199-206 | with distinct times among the matching events the pages hold all that were there at the start, and only matches |
| Listing.TiesCanBeLost | app/search/query.py:205 | two events of one time and pages of one: the second is on no page |
| SearchLaws.TiersNeverMeet | app/search/query.py:120-142 | the scores 100, 60, 40 and at most 30 each have their own condition and never overlap |
| SearchLaws.FuzzyScoreIsTheShare | app/search/query.py:130-141 | an event no better tier takes scores thirty times the share of the query's trigrams that it has |
| SearchLaws.MoreSharedComesFirst | app/search/query.py:130-182 | among fuzzy results, one that has more of the query's trigrams comes before one that has fewer |
| SearchLaws.TiersComeInOrder | docs/architecture.md:225-232 | in the results exact matches come before prefix matches, those before whole matches and those before fuzzy ones |
| SearchLaws.TermlessIffNoAlnum | app/search/query.py:172-173 | a query has no terms iff its normal form holds no letter and no digit |
| SearchLaws.PrefilterLosesOnlyTermlessQueries | app/search/query.py:107-142 | an event that scores enough is dropped by the prefilter iff the query has no term and no token starts with it |
| SearchLaws.SearchIsScoringEverything | app/search/query.py:107-142 | for a query with a term, the search returns exactly the events that meet the filters and score enough |
| SearchLaws.PlainWordIsOneTerm | app/search/tokenize.py:20-35 | a word of lower-case letters and digits of at most 64 characters is its own only token and only search term |
| SearchLaws.SearchingIndexedTextFindsIt | app/search/query.py:133-141 | searching any indexed string verbatim scores at least 40, 100 when it is kept whole, and exactly 40 when it starts with a dollar sign |
| SearchLaws.DollarIdentifierScoresForty | app/search/query.py:133-141 | for any two words, the identifier that joins them by a dot after a dollar sign is kept whole and, searched verbatim, scores 40 |
| Typos.BlockSpoilsFewTrigrams | app/search/tokenize.py:38-42 | a word with x where the token has y loses at most the length of x plus two trigrams |
| Typos.TypoSpoilsFewTrigrams | app/search/tokenize.py:38-42 | one dropped, added or replaced character or one swap spoils at most 2, 3, 3 or 4 trigrams |
| Typos.TyposAreFound | app/search/query.py:120-142 | a one-term search with one typo returns the event when the term has 4, 5, 5 or 7 distinct trigrams, by the kind of typo |
| Typos.LiteralComesBeforeTheTypo | docs/architecture.md:234-236 | a mistyped word returns the event it was meant for, and an event that holds the typo literally comes before it with 100 |
| Typos.NeededIsTight | app/search/query.py:18-19 | for each kind of typo there is a word one trigram short whose search returns no event stored with the token it was mistyped from |

## Left out

- HTTP routes, templates, sessions, signatures, settings, retention, redaction of logs and the export formats: easy members or library code.
- The network: `execute` is modelled from the way a request ends; redirects, size limits, header merging and destination checks are not part of this model.
- MongoDB: a collection is a map, sequence or set, and each driver call is one atomic step; indexes, TTL deletion and failed calls are not modelled, except that a failed call in a worker is a crash.
- Replays.ReplayCollection.TakeEarliestDue: the search for the earliest due replay happens inside the database, so it is a choice and not a loop.
- ReplayLaws.LeasesAreExclusive: assumes one clock for all workers; skew between machines is not modelled.
- ReplayDrain.Drain: the loop is stopped when the queue is drained, not by a signal, and the queue gets no new replays meanwhile.
- ReplayDrain.EverySchedule: schedules in which leases are taken back without end, or new replays keep coming, are not covered.
- RateLimitLaws.AllowIsTheWindowRegulator: tokens and times are reals, so the rounding of floats is not modelled; scores are exact in the same way.
- Tokenize.TokenizeValue: text is ASCII as far as case and white space go; Unicode case folding and Unicode white space are not modelled.
- SearchLaws.SearchingIndexedTextFindsIt: a search that starts with a dollar sign and names an existing field of the event, or is no valid field path, is not modelled; the path is taken to name nothing.
- JsonDepth.NestingDepth: texts in UTF-16 or UTF-32 and a leading byte order mark, which the JSON library also accepts, are not texts of the grammar; the grammar of bare literals is wider than that of numbers.
- RawBody.Base64RoundTrip: the decoder stops at a malformed group, while Python's skips characters outside the alphabet; only encoded text is ever stored.
- Paging.RankedPagingIsExact: events that are deleted or rewritten between page loads are not modelled, here or in the plain list; cursors are taken as decoded, and PAGE_SIZE is any positive number.
- Listing.ListingIsCompleteIff: events that arrive meanwhile are received no earlier than those there at the start; a clock that runs backwards is not modelled there.
- Query.BuildCondition: parsing of dates and identifiers is not part of this model; one that does not parse is the same as none.
- Events.RebuildAgreesWithIngest: the condition is exact for the strings indexed (`Events.RestoredStringsIffClean`); that different strings can by coincidence of tokenising or of the caps give the same terms is left open.
- Number leaves of a body carry the text Python's `str` gives them.
