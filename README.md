# slack-search, modelled in Dafny

This project models the core of a Slack retrieval bot. The bot exists in two
variants: the original `src` package and the newer `src/slack_vector_bot`
package. Both index every plain Slack message into a `MessageStore`, which
holds three structures:

- a SQLite `messages` table, unique on `(channel_id, ts)`;
- a `vector_map` table that links message ids one-to-one to FAISS slots;
- a flat FAISS index that only ever grows.

Both bots answer `/ask` the same way. An LLM turns the question into several
search queries. Each query is embedded and searched. The per-query
`(score, idx)` results are max-merged into a candidate dict, ranked by score
(highest first, stable) and cut to `MAX_RETURN`. The surviving slots are
resolved to messages and summarised. `/reindex` backfills configured channels
page by page.

The model is organised by the program's own structure:

| file | models |
|---|---|
| `wrappers.dfy` | `Option` and `Result` |
| `py_text.dfy` | the CPython string primitives the code relies on: `str.strip`, `str.splitlines`, `str.split(",")`, `s[:n]`, `int()`, `str()` |
| `config.py` → `config.dfy` | the integer settings and the `INDEX_CHANNELS` parse |
| `llms.py` (both identical copies) → `llms.dfy` | reply parsing of `gen_search_queries` and the fallback formatter of `summarize_results` |
| `store_model.dfy` | the store's state as a value, the consistency its schema and upsert keep, and the slot-to-message lookup |
| `slack_vector_bot/db.py` → `vector_bot_db.dfy` | `MessageStore` as a class, with `upsert_message` specified by a function of the old state |
| `src/db.py` → `legacy_db.dfy` | the original `MessageStore`, its different check order, and its malformed metadata query |
| `ranking.dfy` | the candidate max-merge, the stable descending sort and the truncation |
| `indexing.dfy` | the event and history filters, and the `/reindex` paging plan with its execution |
| `asking.dfy` | the retrieval part of `/ask` |
| `vector_bot_handlers.dfy`, `legacy_handlers.dfy` | the three handlers of each bot as imperative methods over their store |

An unset index is created with the dimension recorded in the message's
row, falling back to the embedding length only when that is 0
(`src/slack_vector_bot/db.py:112`, `src/db.py:85`). It is not simply the
embedding's length, and the model follows the code here.

## Model

| member | source | states |
|---|---|---|
| PyText.StripChars | src/llms.py:28 | `s.strip(chars)` removes exactly the maximal runs of `chars` at both ends: the result is a middle slice of `s`, everything cut off is in `chars`, and neither end of a non-empty result is |
| PyText.StripCharsIdempotent | src/llms.py:26-28 | stripping twice is stripping once |
| PyText.StripCharsOfClean | src/config.py:15 | a string that starts and ends outside the strip set is returned unchanged |
| PyText.SplitLines | src/llms.py:28 | `splitlines()` yields lines that contain no line boundary, and no more lines than characters |
| PyText.SplitLinesTerminated | src/llms.py:28 | `splitlines()` inverts writing each line followed by a newline |
| PyText.SplitOn | src/config.py:15 | `split(",")` yields at least one piece, and no piece contains the separator |
| PyText.JoinSplitOn | src/config.py:15 | joining the pieces of `split(sep)` with `sep` restores the string |
| PyText.SplitOnJoin | src/config.py:15 | splitting a `sep`-join of separator-free pieces gives the pieces back |
| PyText.SliceTo | src/llms.py:30 | `s[:n]` is a prefix whose length is `n` clamped to the length, with a negative `n` counting from the end |
| PyText.ParseIntToString | src/config.py:12-14 | `int(str(n)) == n` for every integer |
| Config.IntSetting | src/config.py:12-14 | a set variable is parsed; an unset one parses the default text |
| Config.IntSettingDefaults | src/config.py:12-14 | unset, `TOP_K_PER_QUERY`, `N_QUERY_AUG` and `MAX_RETURN` are 10, 3 and 10 |
| Config.IntSettingOverride | src/config.py:12-14 | a variable set to the decimal text of `n` yields `n`, whatever the default |
| Config.KeepStripped | src/config.py:15 | the kept entries are no more than the pieces, and each is non-empty, comma-free and has no surrounding whitespace |
| Config.ParseChannels | src/config.py:15 | every `INDEX_CHANNELS` entry is non-empty, has no comma and no surrounding whitespace |
| Config.ParseChannelsUnset | src/config.py:15 | an unset or empty variable gives no channels |
| Config.KeepStrippedAppend | src/config.py:15 | entries keep their left-to-right order: the entries of a concatenation are the concatenated entries |
| Config.ParseChannelsJoin | src/config.py:15 | writing valid entries out comma-separated and parsing them gives exactly those entries back |
| Config.KeepStrippedOfEntries | src/config.py:15 | valid entries pass the strip-and-filter unchanged |
| StoreModel.Empty | src/slack_vector_bot/db.py:12-28 | a fresh database with no index snapshot is consistent and empty |
| StoreModel.InsertOrIgnoreConsistent | src/slack_vector_bot/db.py:91-102 | `INSERT OR IGNORE` keeps the store consistent, adds exactly the key, leaves every other row alone, and gives a new key an id that no row or link had |
| StoreModel.AppendAndLinkConsistent | src/slack_vector_bot/db.py:131-143 | appending a vector of the index's dimension for an unlinked message links it to slot `ntotal`, which lies above every linked slot, grows `ntotal` by one, and keeps the store consistent |
| StoreModel.Resolve | src/slack_vector_bot/db.py:161-185 | the lookup gives at most one item per requested slot |
| StoreModel.ResolveSlotLinked | src/slack_vector_bot/db.py:167-174 | in a consistent store a slot resolves exactly when a message is linked to it, and then to that message's row |
| StoreModel.ResolveAppend | src/slack_vector_bot/db.py:166-184 | the lookup works slot by slot, in input order |
| StoreModel.ResolveSkipsOrphan | src/slack_vector_bot/db.py:173-174 | a slot with no linked message is dropped without affecting the other slots |
| StoreModel.ResolveAllLinked | src/slack_vector_bot/db.py:166-185 | when every slot is linked there is exactly one item per slot, and item `i` is slot `i`'s message |
| VectorBotDb.Upsert | src/slack_vector_bot/db.py:79-144 | the row for the key exists afterwards and an existing row is untouched; a success returns that row's id; a failure links nothing and adds no vector; `ntotal` grows by at most one |
| VectorBotDb.UpsertConsistent | src/slack_vector_bot/db.py:79-144 | every upsert, failing or not, keeps `vector_map` one-to-one, its message ids existing and its slots below `ntotal`, and all vectors at the index dimension |
| VectorBotDb.UpsertLinkedIsNoOp | src/slack_vector_bot/db.py:114-119 | re-upserting a linked message returns its id and changes nothing, whatever the embedding |
| VectorBotDb.UpsertAppendsOnce | src/slack_vector_bot/db.py:131-143 | an unlinked message whose embedding fits gets exactly one new vector, in slot `ntotal`, linked to its id; every earlier link is to a lower slot |
| VectorBotDb.UpsertInitialisesIndex | src/slack_vector_bot/db.py:112-123 | an unset index is created with the row's recorded dimension, which is the embedding length for a new row |
| VectorBotDb.UpsertRejectsMismatch | src/slack_vector_bot/db.py:122-127 | the upsert fails exactly when the message is unlinked and the index dimension differs from the embedding's; the row committed before stays, and neither vectors nor links change |
| VectorBotDb.UpsertTwice | src/slack_vector_bot/db.py:21 | upserting the same pair twice leaves one row, returns the same id from both successful calls, adds at most one vector, and after a success the second call changes nothing |
| VectorBotDb.MessageStore.constructor | src/slack_vector_bot/db.py:32-48 | the store starts from the persisted tables and the index snapshot (none without one) |
| VectorBotDb.MessageStore.UpsertMessage | src/slack_vector_bot/db.py:79-144 | the method keeps the store consistent, and its new state and result are those of `VectorBotDb.Upsert` |
| VectorBotDb.MessageStore.Search | src/slack_vector_bot/db.py:147-156 | an unset or empty index gives no results for any `k`; otherwise the FAISS neighbours are returned |
| VectorBotDb.MessageStore.FetchMetaByFaissIndices | src/slack_vector_bot/db.py:158-185 | the items are the joined rows of the slots, in input order, with unlinked slots skipped (`[]` for no slots) |
| LegacyDb.Upsert | src/db.py:57-113 | as in the other store, and the index is always set afterwards, because it is initialised before any check |
| LegacyDb.UpsertConsistent | src/db.py:57-113 | every upsert keeps the store consistent |
| LegacyDb.UpsertLinked | src/db.py:87-99 | a linked message re-upserted with an embedding of the index's length returns its id and changes nothing; with any other length the call raises, although nothing would have been added |
| LegacyDb.UpsertVariantsAgree | src/db.py:87-99 | the two stores agree on every call except one: a linked message with a wrong-length embedding, where this store raises and the other returns the id; in that case both leave the same state |
| LegacyDb.UpsertTwice | src/db.py:19 | the same pair resolves to one row and one id; after a success, a second call with an embedding of the same length changes nothing; at most one vector is added |
| LegacyDb.FetchAsWritten | src/db.py:126-139 | an empty slot list returns `[]` without querying; any other list fails on the first `execute` of the malformed query |
| LegacyDb.FetchQueryGluesClauses | src/db.py:134-139 | the adjacent literals produce `permalinkFROM` and `m.idWHERE` where the intended query has ` FROM` and ` WHERE`; a single linked slot, which the intended query resolves to one item, makes the function as written fail |
| LegacyDb.MessageStore.constructor | src/db.py:32-39 | the store starts from the persisted tables and the index snapshot |
| LegacyDb.MessageStore.UpsertMessage | src/db.py:57-113 | the method keeps the store consistent, and its new state and result are those of `LegacyDb.Upsert` |
| LegacyDb.MessageStore.Search | src/db.py:116-124 | an unset or empty index gives no results; otherwise the FAISS neighbours are returned |
| LegacyDb.MessageStore.FetchMetaByFaissIndices | src/db.py:126-152 | with the intended query: the joined rows of the slots, in input order, unlinked slots skipped |
| Llms.GenSearchQueries | src/llms.py:14-30 | no client gives `[question]`; a reply with no non-blank line gives `[question]`; otherwise the result is a prefix of the parsed queries, of length `n` when `0 <= n <=` their number, and all of them when `n` exceeds it |
| Llms.KeepQueriesTrimmed | src/llms.py:27-29 | no kept query starts or ends with `-`, `•`, a tab or a space |
| Llms.KeepQueriesAppend | src/llms.py:27-29 | lines are read independently and in order |
| Llms.KeepQueriesEmpty | src/llms.py:27-30 | no query is kept exactly when every line is blank |
| Llms.DashReplyGivesEmptyQuery | src/llms.py:28 | a line of dashes is not blank but trims to `""`, so the reply `-` yields the single query `""`, not the question |
| Llms.KeepQueriesOfQueries | src/llms.py:27-29 | lines that are already queries are kept as they are, all of them, in order |
| Llms.ParseQueriesLineReply | src/llms.py:17-29 | the reply the prompt asks for, the queries one per line, is read back as exactly those queries, in order |
| Llms.GenSearchQueriesLineReply | src/llms.py:17-30 | for that reply, `gen_search_queries` returns its first `n` queries |
| Llms.ParseQueriesBulletReply | src/slack_vector_bot/llms.py:26-29 | a reply whose lines also carry `- ` markers is read back as the same queries: the strip set removes the markers |
| Llms.GenSearchQueriesBulletReply | src/slack_vector_bot/llms.py:26-30 | for such a marked reply, `gen_search_queries` returns its first `n` queries |
| Llms.Snippet | src/llms.py:36 | `text[:120]` is a prefix of at most 120 characters: all of a short text, exactly 120 characters of a long one |
| Llms.SummarizeResults | src/llms.py:33-37 | no hits gives `""`; without a client the result is the fallback; otherwise it is the model's reply stripped |
| Llms.BulletShape | src/llms.py:36 | one bullet is `• <`, the permalink, `|リンク>: `, the snippet and `…`, in that order |
| Llms.FallbackSummaryAppend | src/slack_vector_bot/llms.py:35-37 | the fallback of a concatenation concatenates the fallbacks: one bullet per hit, in hit order |
| Llms.SummarizeResultsEmpty | src/slack_vector_bot/llms.py:33-37 | the summary is empty exactly when there are no hits or the model's reply is blank |
| Ranking.Max | src/slack_vector_bot/slack_handlers.py:84 | `max` returns one of its arguments, and it is at least both |
| Ranking.Put | src/slack_vector_bot/slack_handlers.py:84 | assigning `cand[k]` sets its score; an existing key keeps its place, and a new key goes last |
| Ranking.Flatten | src/slack_vector_bot/slack_handlers.py:79-81 | every pair any query returned is among the pairs the loop visits |
| Ranking.MergeHits | src/slack_vector_bot/slack_handlers.py:81-84 | the inner loop computes the fold of one query's pairs into `cand` |
| Ranking.MergeFromAppend | src/slack_vector_bot/slack_handlers.py:79-84 | merging a concatenation merges its parts in turn |
| Ranking.FlattenAppend | src/slack_handlers.py:62-64 | the pairs of successive queries follow each other |
| Ranking.MergeSnoc | src/slack_handlers.py:64-67 | merging one more pair is one turn of the inner loop |
| Ranking.MergeIsBest | src/slack_vector_bot/slack_handlers.py:78-84 | after the loop the dict is well formed, its keys are exactly the reported slots other than `-1`, and each key's score is the maximum of its reported scores (never below `-1e9`) |
| Ranking.BestUnique | src/slack_handlers.py:64-67 | the best score of a slot depends only on the multiset of reported pairs |
| Ranking.MergeScoresOrderFree | src/slack_vector_bot/slack_handlers.py:79-84 | merged scores do not depend on the order of the reported pairs |
| Ranking.QueryOrderFree | src/slack_handlers.py:62-67 | running two groups of queries in either order gives the same merged scores |
| Ranking.FirstAt | src/slack_vector_bot/slack_handlers.py:84 | the first position that reports slot `k`, or the length when none does |
| Ranking.MergeOrderFirstSeen | src/slack_vector_bot/slack_handlers.py:78-84 | the dict's keys come in the order their slots were first reported |
| Ranking.InsertByScore | src/slack_vector_bot/slack_handlers.py:88-90 | inserting a key yields a permutation of the keys plus it |
| Ranking.SortByScore | src/slack_vector_bot/slack_handlers.py:88-90 | `sorted(..., reverse=True)` yields a permutation of the keys with no key scoring above the one before it |
| Ranking.SortStable | src/slack_vector_bot/slack_handlers.py:88-90 | keys of equal score keep their relative order |
| Ranking.RankIsTop | src/slack_vector_bot/slack_handlers.py:88-93 | the ranked slots are candidates in descending score order, `MAX_RETURN` of them (all when there are fewer), and no candidate left out scores above a kept one |
| Ranking.RankEmpty | src/slack_handlers.py:69-82 | with no candidates nothing is ranked |
| Indexing.EventRequest | src/slack_vector_bot/slack_handlers.py:24-45 | an event is indexed exactly when its subtype is not ignored and its stripped text, `ts` and channel are non-empty; the upsert uses those fields, with a missing user as `""` |
| Indexing.HistoryRequest | src/slack_vector_bot/slack_handlers.py:139-146 | a history message is indexed exactly when it has no subtype, non-blank text and a `ts` |
| Indexing.LiveAndBackfillFiltersDiffer | src/slack_handlers.py:26-45 | a message with a subtype outside the ignored list is indexed live but skipped by the backfill, and apart from the subtype the two filters agree |
| Indexing.PageSteps | src/slack_vector_bot/slack_handlers.py:139-154 | one page makes at most one upsert per message, each for this channel with non-empty text and `ts` |
| Indexing.ChannelStepsPage | src/slack_vector_bot/slack_handlers.py:132-155 | one page: the read, then, for a non-empty page, its upserts and then the next page from the last message's `ts`, or the error when that `ts` is missing |
| Indexing.CountsAppend | src/slack_vector_bot/slack_handlers.py:130-155 | reads and upserts are counted step by step |
| Indexing.ChannelPagesBounded | src/slack_vector_bot/slack_handlers.py:132-135 | a channel reads at most 10 pages, the first from the starting cursor |
| Indexing.ChannelReadsOwnPages | src/slack_handlers.py:97-100 | each channel's backfill reads only that channel's history |
| Indexing.EmptyPageStops | src/slack_vector_bot/slack_handlers.py:136-138 | an empty page ends the channel |
| Indexing.PlanPagesBounded | src/slack_handlers.py:95-100 | the whole backfill reads at most 10 pages per configured channel |
| Indexing.ExecCountsUpserts | src/slack_vector_bot/slack_handlers.py:151-156 | the total a completed backfill reports is the number of upsert calls made, already indexed messages included |
| Indexing.BackfillNotConfigured | src/slack_vector_bot/slack_handlers.py:125-127 | the not-configured reply comes exactly when no channel is configured, and then the store is untouched |
| Asking.SearchResults | src/slack_vector_bot/slack_handlers.py:79-80 | one result list per query: empty on an empty index, otherwise the FAISS neighbours of the query's embedding |
| Asking.EmptyIndexFindsNothing | src/slack_handlers.py:59-69 | on an unset or empty index there is no candidate and no hit, whatever the queries |
| Asking.AskHitsAreRanked | src/slack_vector_bot/slack_handlers.py:86-93 | at most `MAX_RETURN` hits; with candidates, hits are the resolved ranked slots; in a consistent store whose ranked slots are all linked, one hit per ranked slot, in rank order |
| VectorBotHandlers.Answer | src/slack_vector_bot/slack_handlers.py:95-99 | the summary of the hits, or the not-found text when there are none |
| VectorBotHandlers.AnswerNotEmpty | src/slack_vector_bot/slack_handlers.py:95-99 | with the fallback formatter, the posted summary is never empty |
| VectorBotHandlers.HandleMessageEvent | src/slack_vector_bot/slack_handlers.py:22-47 | a filtered event leaves the store unchanged; any other event makes exactly one upsert with the permalink and embedding of its text, and the outcome is that upsert's |
| VectorBotHandlers.Ask | src/slack_vector_bot/slack_handlers.py:49-99 | a blank question gets the usage reply; otherwise the hits are the resolved top slots of the merged results of the generated queries, and the reply is `Answer` of them; both completions come from the one client; the store is only read |
| VectorBotHandlers.IndexPage | src/slack_vector_bot/slack_handlers.py:139-154 | the store and the count after one page are those of carrying out the page's upserts, stopping at the first error |
| VectorBotHandlers.IndexChannel | src/slack_vector_bot/slack_handlers.py:131-155 | the store and the count after one channel are those of carrying out its paging plan |
| VectorBotHandlers.Reindex | src/slack_vector_bot/slack_handlers.py:122-159 | the store and the reply are those of `Backfill`: not configured, completed with the upsert count, or aborted by the first error |
| LegacyHandlers.Answer | src/slack_handlers.py:69-82 | the intended reply: the summary of the hits, or the not-found text when there are none |
| LegacyHandlers.AnswerNotEmpty | src/slack_handlers.py:69-82 | with the fallback formatter, the intended reply is never empty |
| LegacyHandlers.AnswerAsWrittenDiffers | src/slack_handlers.py:69-82 | the reply as written and the intended reply differ exactly when there are candidates but no hit, and then the reply as written is `""` |
| LegacyHandlers.AskReplyAsWrittenCases | src/slack_handlers.py:69-85 | as written, a question with candidates gets the error text when at least one slot is ranked, and `""` when `MAX_RETURN` ranks none (zero, or negative by at least the number of candidates) |
| LegacyHandlers.ZeroMaxReturnGivesEmptyReply | src/slack_handlers.py:69-78 | with `MAX_RETURN` 0, any question with a candidate gets `""` as written, while the intended reply is the not-found text |
| LegacyHandlers.OrphanGivesEmptyReplyOnceQueryFixed | src/slack_handlers.py:69-78 | a consistent store with one unlinked vector: as written the lookup fails and the error text is the reply; with the lookup fixed, nothing resolves, the handler's candidate test gives `""`, and the intended reply is the not-found text |
| LegacyHandlers.HandleMessageEvent | src/slack_handlers.py:22-47 | a filtered event leaves the store unchanged; any other event makes exactly one upsert, whose outcome is returned |
| LegacyHandlers.Ask | src/slack_handlers.py:49-82 | a blank question gets the usage reply; otherwise the hits are the resolved top slots of the merged results, and the reply is the intended `Answer`; both completions come from the one client; the store is only read |
| LegacyHandlers.IndexPage | src/slack_handlers.py:104-119 | the store and the count after one page are those of carrying out its upserts |
| LegacyHandlers.IndexChannel | src/slack_handlers.py:96-120 | the store and the count after one channel are those of its paging plan |
| LegacyHandlers.Reindex | src/slack_handlers.py:87-124 | the store and the reply are those of `Backfill` over this store's upsert |

## Left out

- FAISS scoring, `normalize_L2` and the float32 cast are left out: vectors are opaque sequences, and search results are a parameter.
- Index snapshot reads and writes are left out, and `_save_index` is a no-op. The constructor takes the persisted state as a parameter and requires it to be consistent.
- SQLite itself is left out: WAL and pragmas, connections, commits and SQL parsing. The tables are maps carrying the declared `UNIQUE` constraints.
- Locks and concurrency are left out, including the window in which the vector-bot store releases its database lock before appending to the index. The model is sequential.
- The Slack and OpenAI calls are parameters: the permalink, history and embedding functions, and the contents the one chat client returns (`Llms.Completions`). `embeddings.py` and `main.py` are not part of this model.
- The chat prompts and the model's choice of summary are left out. The completion content is an input.
- The `/ask` placeholder and final messages of the vector bot, and the replies built from exception texts, are not modelled. Their exception paths come from Slack, OpenAI or SQLite failures outside the model. The one exception the legacy `/ask` raises by itself, its malformed lookup, is modelled by `LegacyHandlers.AskReplyAsWritten`, with the database's message as a parameter.
- The glue defects are not modelled. `src/slack_handlers.py:15` imports a nonexistent `.llm`. `src/slack_vector_bot/slack_handlers.py:69` uses `SlackApiError` without importing it. `src/slack_vector_bot/slack_handlers.py:102` calls `log_query`, which the store does not define.
- The branch at `src/db.py:77-83`, which re-reads a missing row, is not modelled: right after `INSERT OR IGNORE` the row always exists.
- `int()` on non-ASCII digits is not modelled. `None` field values other than a missing key are not modelled either.
- LegacyHandlers.Ask: it uses the corrected lookup and the corrected reply (see Findings). As written, any non-empty lookup raises, and the command replies with the error text, as `LegacyHandlers.AskReplyAsWrittenCases` states.
- StoreModel.Resolve: its own contract only bounds the item count. What each item is comes from `ResolveSlotLinked` and `ResolveAllLinked`.
- VectorBotHandlers.HandleMessageEvent, LegacyHandlers.HandleMessageEvent: the error is returned instead of logged.

## Findings

| source | as written | input that shows it | evidently intended | confidence | as-written member | corrected member |
|---|---|---|---|---|---|---|
| src/db.py:134-139 | adjacent string literals with no spaces between them form `...m.permalinkFROM ... m.idWHERE ...`, which SQLite rejects | any non-empty slot list, e.g. `[0]` in a store that links slot 0 | ` FROM` and ` WHERE` as separate clauses, as in `src/slack_vector_bot/db.py:168-170`, returning the joined rows | not executed; high | LegacyDb.FetchQueryGluesClauses | LegacyDb.MessageStore.FetchMetaByFaissIndices |
| src/slack_handlers.py:69-78 | the summary is posted whenever there is a candidate, so a ranked slot list with no hit gives `summarize_results(question, [])`, which is `""` | `MAX_RETURN=0` with any question that has a candidate: the lookup of `[]` returns `[]` before the malformed query is reached. Once the query of the row above is fixed, also an index holding one vector that no `vector_map` row links, e.g. because the process stopped between the index save at `src/db.py:106` and the link commit at `src/db.py:112` | the not-found reply when there are no hits, as in `src/slack_vector_bot/slack_handlers.py:95-99` | not executed; medium | LegacyHandlers.ZeroMaxReturnGivesEmptyReply | LegacyHandlers.Answer |
