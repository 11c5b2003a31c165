# News-to-market alert pipeline, modelled in Dafny

This project models the correlation-and-prioritization pipeline of a bot that reads news
tweets and alerts Discord channels about Polymarket prediction markets they move. The model
has four parts, one module each, plus three shared modules:

- `Store` (store.dfy): the SQLite store of `helpers/database.py`. Its three tables are
  `markets`, `tweets` and `sent_correlations`. Each is a sequence of rows in rowid order,
  held by the class `Database`. Each statement is a method that sets the new table to a
  pure function of the old one. The pure functions carry the lemmas: INSERT OR IGNORE keeps
  the first row, and `is_processed`, `sent_to_discord` and `is_active` only ever move one way.
  `insert_markets` is modelled with its price parsing, its link derivation and its
  `parent_slug`/`parent_event_id` loop variables, which carry over from one iteration to
  the next.
- `Engine` (engine.dfy): `run_correlation_engine`. Each unprocessed tweet is embedded and
  scored against every active market by cosine similarity. The 50 best candidates, under a
  stable sort, go to an adjudicator. Every judgment with relevance at least 0.6 is stored,
  and the tweet is marked processed whatever the adjudication did.
- `Dedup` (dedup.dfy): `deduplicate_raw_tweets`. Of each group of tweet ids that the
  language model reports as the same news, the first member with the highest engagement
  stays. The other members are discarded, and the batch is filtered in its original order.
  The model also covers the pass-through fallbacks and the KeyError on an unknown id.
- `Broadcast` (broadcast.dfy): `send_new_correlations`. It runs these steps:
  - refresh odds from the catalogue (in memory and in the store);
  - group the rows into one package per tweet;
  - score each package with the alpha score and sort by score;
  - drop packages whose tweet embedding is more than 0.95 similar to a kept one;
  - with no subscribers, mark everything sent;
  - otherwise, for each package, collapse markets by parent event, refresh the odds just
    in time, compose the message and mark the package's correlations sent.
- Shared modules:
  - `Common` (common.dfy): Option, truthiness, string order, filter and flatten.
  - `Sorting` (sorting.dfy): Python's stable `list.sort` and `itertools.groupby`.
  - `Similarity` (similarity.dfy): the zero-guarded cosine similarity.

Outside effects are parameters:
- the embedding model (`embed`, which answers None when `generate_embeddings` returns an
  empty list), the adjudicating language model (`adjudicate`) and the duplicate report
  (`Report`);
- the catalogue's price answers (`latest`, `fetch`);
- the Euclidean norm (`norm`);
- the subscribed channels (`channels`);
- how many packages the Discord loop gets through before an exception (`failAt`);
- the clock (`now`).

## Model

| member | source | states |
|---|---|---|
| Store.Database.constructor | helpers/database.py:36-98 | a freshly set-up store has three empty tables and the AUTOINCREMENT counter at 1 |
| Store.Database.InsertMarkets | helpers/database.py:113-169 | the records built from `zip(markets_data, embeddings)` are INSERT-OR-IGNOREd into `markets`; an uncaught NameError (no `parent_slug` bound yet) leaves the table unchanged; other tables untouched |
| Store.RecordOfMarketWithEvents | helpers/database.py:125-146 | with a non-empty `events` list: yes price is `prices[0]` or 0.0, no price `prices[1]` or 0.0, the URL is the event prefix plus the first event's ticker when truthy and the market slug otherwise, the parent id is the first event's id |
| Store.RecordOfMarketWithoutEvents | helpers/database.py:131-146 | without `events`, the URL and parent id are those of an earlier iteration, and the first such market raises NameError |
| Store.RaisedSticks | helpers/database.py:122-160 | once an iteration raises an exception the loop does not catch, the whole insert has raised |
| Store.InsertMarketRowsKeeps | helpers/database.py:164-169 | INSERT OR IGNORE never overwrites or removes a market, keeps ids unique, and every insertable record's id is present afterwards |
| Store.Database.PruneExpiredMarkets | helpers/database.py:182-197 | the markets become `Prune(old, now)` and the returned count is the number of active markets that ended before now |
| Store.PruneOnlyDeactivates | helpers/database.py:187-191 | pruning deletes no row, changes no column but `is_active`, never reactivates, clears it exactly on expired active markets, and leaves nothing for a second prune |
| Store.PruneCount | helpers/database.py:187-197 | the reported row count equals the number of rows whose flag actually flipped |
| Store.Database.InsertTweets | helpers/database.py:199-231 | new tweets are INSERT-OR-IGNOREd into `tweets`; other tables untouched |
| Store.InsertTweetRowsKeeps | helpers/database.py:227-231 | existing tweets are kept unchanged, ids stay unique, every given tweet id is present afterwards, and each added row carries the id, text, URL, author and time of a given tweet, unprocessed and without embedding |
| Store.Unprocessed | helpers/database.py:245 | exactly the tweets with `is_processed = 0` |
| Store.UnprocessedIdsUnique | helpers/database.py:245 | the unprocessed tweets have distinct ids |
| Store.Database.GetUnprocessedTweets | helpers/database.py:240-248 | returns exactly the stored tweets that are not processed |
| Store.ActiveMarkets | helpers/database.py:255-259 | exactly the markets that are active and have an embedding |
| Store.Database.GetActiveMarketData | helpers/database.py:251-262 | returns exactly the stored active markets with an embedding |
| Store.Database.MarkTweetAsProcessed | helpers/database.py:264-270 | the tweets become `MarkProcessed(old, id)`; other tables untouched |
| Store.MarkProcessedFacts | helpers/database.py:268 | only `is_processed` changes, it is set exactly on the tweet with that id, nothing is unset, and marking twice is marking once |
| Store.MarkProcessedAllFacts | helpers/database.py:268 | after several marks a tweet is processed iff it was before or its id was marked |
| Store.MarkProcessedAllAppend | helpers/database.py:268 | marking a list of ids then another equals marking their concatenation |
| Store.Database.StoreCorrelation | helpers/database.py:273-282 | the correlation table becomes `Upsert(old, request)`; markets and tweets untouched |
| Store.UpsertFirstWins | helpers/database.py:277-280 | a second store for the same (tweet, market) pair leaves the table as the first store left it |
| Store.UpsertKeeps | helpers/database.py:277-280 | an insert keeps UNIQUE(tweet_id, market_id) and increasing AUTOINCREMENT ids, never alters an existing row, and afterwards the pair is present; a new row is unsent with the request's scores |
| Store.UpsertAllKeeps | helpers/database.py:277-280 | a sequence of stores keeps the table well formed, keeps old rows as a prefix and leaves every requested pair present |
| Store.UpsertAllNewRows | helpers/database.py:277-280 | every row added by a sequence of stores is unsent, has a fresh id, and carries the pair and scores of some request |
| Store.UpsertAllAppend | helpers/database.py:277-280 | storing two batches in turn equals storing their concatenation |
| Store.JoinUnsentExactly | helpers/database.py:311-314 | every joined row is an unsent correlation's columns joined with an existing tweet and market of its ids, and every unsent correlation whose tweet and market exist is joined with them |
| Store.UnsentOrderTotal | helpers/database.py:315 | relevance descending, then tweet time descending, is a total preorder |
| Store.Database.GetUnsentCorrelations | helpers/database.py:285-319 | returns the rows of the join, as a multiset, ordered by relevance descending and then tweet creation time descending |
| Store.SetPrices | helpers/database.py:325-327 | rows with that id get exactly the new yes and no price and keep every other column; rows with another id are unchanged; no row is added or removed |
| Store.Database.UpdateMarketPrices | helpers/database.py:322-329 | the markets become `SetPrices(old, id, yes, no)`; other tables untouched |
| Store.MarkSentFacts | helpers/database.py:335-339 | only the row with that id changes; it gets `sent_to_discord = 1` and `sent_at = now`; a sent row stays sent |
| Store.MarkSentAllFacts | helpers/database.py:335-339 | after several marks, exactly the rows whose ids were marked are sent with the timestamp, the rest are unchanged |
| Store.MarkSentAllPreserves | helpers/database.py:335-339 | marking keeps ids and the UNIQUE pair constraint intact |
| Store.Database.MarkCorrelationAsSent | helpers/database.py:331-341 | the correlations become `MarkSent(old, id, now)`; other tables untouched |
| Similarity.DotSymmetric | helpers/correlation_engine.py:91 | the dot product commutes |
| Similarity.Cosine | helpers/correlation_engine.py:90-95 | the result is 0.0 when either norm is zero, and otherwise times the product of the norms gives the dot product |
| Similarity.CosineSymmetric | helpers/correlation_engine.py:91-95 | similarity is symmetric in its two vectors |
| Sorting.Sort | helpers/correlation_engine.py:131 | the sorted list is a permutation of the input |
| Sorting.SortSorted | helpers/correlation_engine.py:131 | the sorted list is in order |
| Sorting.SortStable | helpers/correlation_engine.py:131 | elements with equal sort keys keep their input order |
| Sorting.GroupRunsFlatten | helpers/discord_bot.py:125 | groupby loses and reorders nothing: the runs concatenate to the input |
| Sorting.GroupRunsUniform | helpers/discord_bot.py:125 | every run has one key and neighbouring runs have different keys |
| Sorting.GroupRunsDistinct | helpers/discord_bot.py:124-125 | after sorting by key, no key appears in two runs |
| Engine.ScoresUpTo | helpers/correlation_engine.py:126-129 | one (similarity, market) pair per active market in market order, or a failure exactly when some market embedding has another dimension (numpy raises) |
| Engine.TopCandidatesFacts | helpers/correlation_engine.py:126-135 | the candidates are the first min(50, markets) of the stable descending sort of all scores, in non-increasing order, each at least every unselected score, with ties in market order |
| Engine.RankCandidates | helpers/correlation_engine.py:126-135 | the loop and sort compute exactly the candidate list above |
| Engine.Attempted | helpers/correlation_engine.py:149-176 | with no store raising, every judgment is handled; when the i-th store raises, exactly the first i; when the call itself fails, none |
| Engine.RequestsFor | helpers/correlation_engine.py:161-171 | the store calls are exactly the requests of the judgments at or above 0.6: each is for this tweet and comes from such a judgment, and every such judgment is stored, with whatever market id it names |
| Engine.RequestsForInOrder | helpers/correlation_engine.py:161-171 | the store calls keep the order of the judgments: they are a subsequence of the requests of all judgments |
| Engine.TweetStepFacts | helpers/correlation_engine.py:113-179 | an empty embedding list crashes the run (IndexError), an empty embedding skips the tweet with no store call, every store call is for that tweet and at or above the floor, and when ranking succeeds and no store raises, every judgment at or above the floor is stored |
| Engine.OutcomesAreSound | helpers/correlation_engine.py:113-179 | the store calls planned for the whole backlog respect the tweet and the floor |
| Engine.CrashSticks | helpers/correlation_engine.py:127-129 | once a similarity raises, the run ends there and nothing later happens |
| Engine.TraceFacts | helpers/correlation_engine.py:113-179 | the tweets marked processed are a prefix of the backlog, all of it unless the run crashed, and every store call belongs to a processed tweet and clears the floor |
| Engine.CompletedRunClearsBacklog | helpers/correlation_engine.py:120-179 | a run that ends normally leaves no unprocessed tweet |
| Engine.ProcessedOnce | helpers/correlation_engine.py:120-179 | no tweet is marked processed twice in one run |
| Engine.StoreJudgments | helpers/correlation_engine.py:161-171 | the storing loop applies exactly the requests for the judgments at or above 0.6, in order |
| Engine.ProcessTweet | helpers/correlation_engine.py:113-179 | one iteration: it crashes exactly when the similarity raises, with the store unchanged; otherwise its store calls are applied and the tweet is marked processed |
| Engine.ProcessBacklog | helpers/correlation_engine.py:113-179 | the loop marks the traced tweets processed and applies the traced store calls, and crashes exactly when the trace does |
| Engine.ActiveHaveEmbeddings | helpers/database.py:255-259 | every market the active-market query returns has an embedding, as the similarity loop needs |
| Engine.RunCorrelationEngine | helpers/correlation_engine.py:97-181 | with no unprocessed tweets it returns before reading the markets and leaves the store unchanged; otherwise tweets and correlations change exactly as the trace over the active markets says, and markets never change |
| Dedup.Engagement | helpers/deduplication.py:58-61 | engagement is non-negative for non-negative counts and at least the likes and twice the retweets |
| Dedup.EngagementWeights | helpers/deduplication.py:58-61 | a missing like, retweet or reply count weighs as zero; one more like or reply adds one, one more retweet adds two |
| Dedup.ById | helpers/deduplication.py:103 | the lookup finds a tweet with that id exactly when the batch has one |
| Dedup.ByIdLastWins | helpers/deduplication.py:103 | when ids repeat, the lookup finds the last tweet with that id, as the dict comprehension does |
| Dedup.ByIdUnique | helpers/deduplication.py:103 | with distinct ids each tweet is found under its own id |
| Dedup.MissingId | helpers/deduplication.py:111 | reports an id of the group that the batch lacks, exactly when there is one |
| Dedup.BestIndex | helpers/deduplication.py:110-113 | Python's `max`: a maximum, and the first one |
| Dedup.BestIdIsFirstMaximum | helpers/deduplication.py:110-113 | the kept id is the group's first member of maximal engagement |
| Dedup.GroupDiscards | helpers/deduplication.py:118-120 | a group discards exactly its members other than the kept id |
| Dedup.MissingSticks | helpers/deduplication.py:105-121 | once an unknown id raises, later groups change nothing |
| Dedup.DiscardsMissing | helpers/deduplication.py:105-111 | the group loop raises KeyError exactly when some group of two or more ids has an id not in the batch |
| Dedup.DiscardsFacts | helpers/deduplication.py:105-121 | an id is discarded exactly when some group of two or more, all of whose ids are in the batch, names it and keeps another id; every such group's non-keepers are all discarded |
| Dedup.FindDiscards | helpers/deduplication.py:102-121 | the group loop computes exactly the discard set, or the KeyError |
| Dedup.DiscardOthers | helpers/deduplication.py:118-120 | the inner loop adds every member but the best to the set |
| Dedup.Survivors | helpers/deduplication.py:124 | the filter keeps exactly the batch tweets whose id is not discarded |
| Dedup.SurvivorsAppend | helpers/deduplication.py:124 | the filter keeps the batch order |
| Dedup.SurvivorCount | helpers/deduplication.py:124 | output length is input length minus the number of discarded tweets present |
| Dedup.SurvivorsMultiset | helpers/deduplication.py:124 | the output is a sub-multiset of the input |
| Dedup.KeepSurvivors | helpers/deduplication.py:124 | the comprehension computes exactly the filtered list |
| Dedup.DeduplicateRawTweets | helpers/deduplication.py:63-127 | the whole step returns the input on fewer than 2 tweets, an exception, a null answer or no groups; the KeyError on an unknown id; else the filtered batch |
| Dedup.PassThrough | helpers/deduplication.py:68-99 | each fallback returns the input list unchanged |
| Dedup.UnknownIdRaises | helpers/deduplication.py:103-111 | the step raises KeyError exactly when a group of two or more names an id not in the batch |
| Dedup.SurvivorsFacts | helpers/deduplication.py:124 | the output is a sub-multiset of the input, and a batch tweet survives exactly when no group of two or more discards it; a tweet in no such group survives, and a keeper survives unless another group discards it |
| Dedup.GroupLosersDropped | helpers/deduplication.py:110-124 | a group member other than the kept one does not survive |
| Dedup.PairGroup | helpers/deduplication.py:110-121 | in a pair of distinct tweets the one with less engagement is discarded |
| Dedup.ExampleKeepsBest | helpers/deduplication.py:105-124 | on a concrete batch the lower-engagement duplicate goes and order is kept |
| Dedup.ExampleOverlappingGroups | helpers/deduplication.py:105-124 | overlapping groups can discard the keeper of an earlier group |
| Dedup.ExampleUnknownId | helpers/deduplication.py:111 | a concrete unknown id raises KeyError |
| Broadcast.Fresh | helpers/discord_bot.py:115-118 | fresh odds exist exactly when the market was returned with at least two prices, and they are the first two |
| Broadcast.RefreshRow | helpers/discord_bot.py:114-120 | a row changes only in yes and no price, and only when fresh odds exist |
| Broadcast.FirstUndecodable | helpers/discord_bot.py:114-117 | the position of the first row whose price data does not parse (the uncaught exception), or the length |
| Broadcast.StoreRefreshFacts | helpers/discord_bot.py:114-121 | a stored market's prices become the fresh odds exactly when some row names it and fresh odds exist; nothing else changes |
| Broadcast.RefreshAgrees | helpers/discord_bot.py:119-121 | after the refresh, the in-memory row and the stored market hold the same odds |
| Broadcast.RefreshPrices | helpers/discord_bot.py:111-121 | the refresh loop updates rows and store as specified, and raises exactly at the first undecodable price data, having stored the rows before it |
| Broadcast.PackagesPartition | helpers/discord_bot.py:124-125 | packages are non-empty, each holds one tweet, no tweet has two packages, and together they are the rows |
| Broadcast.SettledMarketHasNoImpact | helpers/discord_bot.py:136 | impact is zero when either price is zero |
| Broadcast.DiversityBonus | helpers/discord_bot.py:138 | the bonus lies in [0, 0.1], is size/50 below five rows and 0.1 from five on |
| Broadcast.AlphaScoreWeights | helpers/discord_bot.py:132-139 | relevance weighs 0.5 and urgency 0.3; a larger package never scores less; past five rows size adds nothing |
| Broadcast.ScorePackageFacts | helpers/discord_bot.py:129-140 | the package is sorted by relevance descending, its top row is a most relevant row, and the score is the alpha score of the top row and package size |
| Broadcast.ScorePackages | helpers/discord_bot.py:128-140 | the loop scores every package, in order |
| Broadcast.PrioritizedFacts | helpers/discord_bot.py:143 | the prioritized list is a permutation of the scored packages, in non-increasing score, with equal scores in tweet-id order |
| Broadcast.IsDuplicate | helpers/discord_bot.py:158-164 | duplicate means some kept embedding is more than 0.95 similar; not duplicate means none is; failure means a dimension mismatch made numpy raise |
| Broadcast.CheckDuplicate | helpers/discord_bot.py:158-164 | the inner loop computes exactly that verdict |
| Broadcast.KeptSubsequence | helpers/discord_bot.py:147-168 | the kept packages are an order-preserving subsequence of the prioritized packages |
| Broadcast.KeptWithoutEmbedding | helpers/discord_bot.py:153-156 | a package whose first row has no tweet embedding is always kept |
| Broadcast.KeptDissimilar | helpers/discord_bot.py:158-168 | the remembered embeddings are those of the kept packages, and any two are at most 0.95 similar |
| Broadcast.KeptFirst | helpers/discord_bot.py:151-168 | the first package is always kept |
| Broadcast.NoneSticks | helpers/discord_bot.py:158-161 | once a similarity raises, the dedup has raised |
| Broadcast.CrossDedup | helpers/discord_bot.py:147-168 | the dedup loop returns exactly the kept packages, or fails exactly when the specification does |
| Broadcast.PrioritizedNonEmpty | helpers/discord_bot.py:124-143 | every prioritized package is non-empty |
| Broadcast.Selection | helpers/discord_bot.py:124-168 | the selected packages are non-empty |
| Broadcast.SelectPackages | helpers/discord_bot.py:124-168 | grouping, scoring, sorting and dedup compute exactly the selection |
| Broadcast.DelayBound | helpers/discord_bot.py:183-184 | the delay is non-negative and n packages spaced by it take less than 3600 seconds |
| Broadcast.MostRelevantFirst | helpers/discord_bot.py:224-225 | the head of a relevance-sorted group is a most relevant member |
| Broadcast.ParentRunsFacts | helpers/discord_bot.py:218-223 | the parent groups hold only markets with a truthy parent id, one id per group, no id in two groups, and every such market is in some group |
| Broadcast.CollapseKeeps | helpers/discord_bot.py:218-227 | the collapsed list holds only group markets, keeps every market without a parent, and is sorted by relevance descending |
| Broadcast.CollapseOnePerParent | helpers/discord_bot.py:218-227 | every parent id is represented, by exactly one market, which is a most relevant market of that parent |
| Broadcast.CollapseByParent | helpers/discord_bot.py:215-227 | the collapsing loop computes exactly the collapsed list |
| Broadcast.RefreshInMemory | helpers/discord_bot.py:234-244 | the just-in-time refresh changes only in-memory odds with at least two prices and skips unparsable data |
| Broadcast.TweetGroup | helpers/discord_bot.py:204-213 | the re-sorted group is a permutation of the package |
| Broadcast.ComposeMessage | helpers/discord_bot.py:198-247 | the message is the group's tweet with its collapsed, refreshed market list, and the ids to mark are those of the whole uncollapsed group |
| Broadcast.MessagesUpTo | helpers/discord_bot.py:197-247 | one message per package the loop gets through, the i-th composed from the i-th package |
| Broadcast.IdsUpToMembers | helpers/discord_bot.py:264-266 | the marked ids are exactly the correlation ids of the groups handled |
| Broadcast.TweetGroupMembers | helpers/discord_bot.py:204-213 | re-sorting keeps exactly the package's correlations |
| Broadcast.SentIdsCover | helpers/discord_bot.py:264-266 | every correlation of a sent package, collapsed away or not, has its id marked |
| Broadcast.SentIdsOnly | helpers/discord_bot.py:264-266 | only ids of correlations in sent packages are marked |
| Broadcast.AllIdsCover | helpers/discord_bot.py:178-180 | with no subscribers every correlation of every final package is marked |
| Broadcast.AllIdsOnly | helpers/discord_bot.py:178-180 | with no subscribers only correlations of final packages are marked |
| Broadcast.SentPackagesMarked | helpers/discord_bot.py:264-266 | every stored correlation of a sent package ends sent at now, and every other row is unchanged |
| Broadcast.AllPackagesMarked | helpers/discord_bot.py:174-181 | with no subscribers every stored correlation of a final package ends sent at now, and every other row is unchanged |
| Broadcast.MarkSentOne | helpers/discord_bot.py:265-266 | marking one more id is one more `mark_correlation_as_sent` |
| Broadcast.MarkIds | helpers/discord_bot.py:265-266 | the marking loop applies `mark_correlation_as_sent` to every id in turn |
| Broadcast.MarkAllSent | helpers/discord_bot.py:178-180 | the no-subscriber loop marks every correlation of every final package |
| Broadcast.BroadcastPackages | helpers/discord_bot.py:197-268 | the send loop produces the messages of the first k packages and marks exactly their groups' correlations |
| Broadcast.SendNewCorrelations | helpers/discord_bot.py:94-279 | returns early without effect when unconfigured or nothing is unsent; raises (with the stored odds refreshed up to the failing row) on undecodable prices or a failing similarity; with no channels marks everything selected and returns 0; otherwise sends and marks the packages the loop gets through and returns the number selected |

## Left out

- Networking is left out: the catalogue and X fetchers, the Discord client, login, channel
  fan-out, embed formatting and `asyncio.sleep`. Catalogue answers are the parameters
  `latest` and `fetch`. The Discord loop is reduced to the messages it would compose and the
  number of packages it gets through before an exception (`failAt`).
- Per-channel send errors are I/O. They are caught inside the fan-out and do not change
  what is marked.
- RunCorrelationEngine: reads leave no trace in the model's state. That the markets are
  read only after the backlog check shows in the method's order of calls. The contract
  states that an empty backlog leaves the store unchanged.
- BroadcastPackages: an exception is modelled only between packages. A failure between two
  `mark_correlation_as_sent` calls of the same package, which would leave it partly marked,
  is not modelled.
- `get_all_active_channel_ids` is imported from helpers/database.py, but that file does not
  define it. Its implementation is not part of this model, and the subscribed channels are
  the input `channels`.
- Embeddings, the adjudicating language model and its prompt are not modelled. They are
  total functions given as parameters, so every call with the same arguments gives the same
  answer. `embed` returns None for an empty `generate_embeddings` result, whose `[0]` raises
  IndexError, and an empty vector for a failed request.
- Cosine: the Euclidean norm is the parameter `norm`, because `sqrt` has no exact real
  counterpart. Only the zero guard and symmetry are proved, and the bound |cosine| <= 1 is
  not stated.
- Floating point is modelled as exact `real` arithmetic, with no rounding in the scores,
  the alpha score or the delay.
- Engagement: a count is either an integer or absent (counted as 0). A count that is
  present but null, or not a number, raises TypeError in the source and is not modelled.
- RecordStep, RefreshPrices, RefreshInMemory: price entries are reals. A non-numeric entry,
  whose `float()` raises ValueError, is not modelled. In `insert_markets`
  (helpers/database.py:127-128) and in the first refresh (helpers/discord_bot.py:119-120)
  nothing catches it. In the just-in-time refresh (helpers/discord_bot.py:241-242) the
  `except` names JSONDecodeError, IndexError and TypeError but not ValueError, so it would
  end the Discord loop through the outer handler at helpers/discord_bot.py:273.
- The JSON answer decides whether prices parse: `OutcomePrices` is either a decoded list or
  `Undecodable`. Prices that decode to a non-list are not modelled.
- Time is an integer. The comparison of `end_date_utc` text with CURRENT_TIMESTAMP and the
  timestamp parsing with its fallback in `insert_tweets` are not modelled. A tweet's
  creation time is an input, and every `sent_at_utc` in one call gets the single `now`.
- SQLite NULLs in NOT NULL columns are not modelled: a market record lacking a question,
  slug or end date is never inserted. Neither are the `full_data_json` column, connection
  handling and the numpy blob adapters. The schema is reduced to the columns the pipeline
  reads.
- GetUnsentCorrelations: SQLite does not promise an order for rows with equal relevance and
  equal tweet time. The model picks one: a stable sort of the join in rowid order, so such
  rows come in correlation rowid order. The contract states only the ORDER BY and the
  multiset of rows.
- Each Python dict row is modelled as a value. In `send_new_correlations` the in-place price
  and impact updates on shared dicts are copies; the source reads them back only in the
  order the model follows.
- Broadcast.Delay is computed and bounded, but it is not passed anywhere, since sleeping is
  not modelled.
- `print` logging, orchestration (main.py, bot.py, helpers/seed.py) and the similarity REPL
  (test_similarity.py) are not part of this model.
