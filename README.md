# Social_Theory question-answering core, modelled in Dafny

This repository runs a Discord bot that answers questions about a fixed reading list. It works in two steps:

1. An MMR ("maximal marginal relevance") vector search finds candidate passages.
2. The passages are hydrated, reranked, and passed to a local language model as context.

The bot keeps the last five answers in a small cache. A "show sources" reaction on an answer then shows the passages that answer was built from.

This project models the three deterministic pieces that sit between the external services, and proves properties of them:

- **Payload hydration** (`Retrieval`, from `enrich_with_payload`). Every search hit carries only an `_id` and a `_collection_name`. The hydrator collects the string forms of the non-`None` ids in input order and fetches their payloads in one batch. It then rebuilds each hit:
  - The text is the payload's `"document"` field, or the hit's own text when the field is missing.
  - The metadata is the payload without `"document"`, with the hit's `_id` and `_collection_name` written over it.

  When no hit has an id, the input comes back unchanged. The loop is the method `EnrichWithPayload`, proved equal to the function `Enriched`. The properties are proved about `Enriched`: order and length preserved, every field of the output, the no-id and missing-payload cases, and idempotence.
- **Rerank mapping, context join and the two-step graph** (`Generate`, from `retrieve`, `generate` and the `StateGraph` sequence). The search, the point store, the Cohere reranker and the Ollama model are opaque values of `Services`.
  - `RetrieveStep` maps the reranker's result indices back onto the hydrated list.
  - `GenerateStep` joins the context texts with `"\n\n"`, fills the prompt template and applies the model.
  - `Invoke` starts from the question alone, merges the output of `retrieve`, then the output of `generate`.
- **The bounded response cache** (`DiscordBot.DictQueue`). It is a class over a `seq` of `(message id, response)` pairs, newest first:
  - `Put` pushes a pair to the front and drops the back pair when the list exceeds `maxlen`.
  - `Get` is a front-to-back scan that returns the first match.

  The properties are proved about the functions `Pushed`, `Lookup` and `Replay`. The main result is that the cache always holds exactly the last `maxlen` writes, newest first.

  Two uses of the cache in the bot are also modelled:
  - `AskChima` stores a completed run under the answer message's id once Discord has accepted the message. It stores nothing when the run fails or the send raises.
  - `ShowSources` recovers a stored run's context, or reports "too old".

Modules: `Wrappers` (Option, Result), `Documents` (the document record and Python's `str` on metadata values), `Config` (the two retrieval constants), `Retrieval`, `Generate`, `DiscordBot`.

Modelling choices:

- **`maxlen` is an `int`.** Like the source, the model accepts a `maxlen` below one; such a cache keeps nothing.
- **The cache's `{}` on a miss is `None`.** The only values the bot stores are completed runs. These always hold a question, so the source's `if not data` holds exactly on a miss.
- **`client.retrieve` is a map lookup.** It is modelled as restricting a map from `str(point.id)` to payload to the requested ids. This assumes the store reports a point's id in the form it was requested in.
- **Ids are looked up as `str(_id)`, even for a hit without an id.** Such a hit looks up `str(None)`, that is `"None"`, as the source does.
- **A non-string text field is an error.** A payload `"document"` value that is not a string cannot become `page_content`. The model returns `PageContentNotText` where the document constructor would raise.
- **An out-of-range rerank index is an error.** The model returns `RerankIndexOutOfRange` where Python raises `IndexError`.
- **Text is never `None`.** `page_content` is always a string here, so the source's `d.page_content or ""` is `d.page_content`.

## Model

| member | source | states |
|---|---|---|
| Documents.Stringify | src/retrieval.py:94 | Python's `str` of a value: `"None"` for none, `"True"`/`"False"`, a string as it is, and for an integer its decimal numeral without leading zeros (read back as a number it is the integer's magnitude), after a `-` when negative |
| Documents.NatToDecimalValue | src/retrieval.py:94 | the digits produced for a non-negative integer, read back most significant first, are that integer |
| Retrieval.RequestedIds | src/retrieval.py:94 | at most one id per hit; empty exactly when no hit has a non-`None` `_id`; every such hit's `str(_id)` is requested and every requested id is one of them |
| Retrieval.RequestedIdsAppend | src/retrieval.py:94 | the ids of a concatenation are the ids of each part in order, so the ids follow input order |
| Retrieval.RequestedIdsOnlyReadIds | src/retrieval.py:94 | the requested ids depend only on the hits' `_id` values |
| Retrieval.FetchById | src/retrieval.py:98-104 | the fetched payloads are exactly those of the stored points whose id was requested, each under its id |
| Retrieval.PayloadFor | src/retrieval.py:108 | a hit gets the payload fetched under `str(_id)`, or an empty payload when none was fetched; a hit without an id is looked up under `"None"` |
| Retrieval.RebuiltMetadata | src/retrieval.py:110-116 | the rebuilt metadata has the payload's keys minus `"document"` plus `_id` and `_collection_name`; those two are the hit's own values, and every other payload key keeps its value |
| Retrieval.HydrateOne | src/retrieval.py:108-117 | rebuilding fails exactly when the payload's `"document"` is not a string; the text is the payload's `"document"` if present, else the hit's text; the metadata keys are the payload's minus `"document"` plus `_id` and `_collection_name`; those two equal the hit's values; every other payload key keeps its value |
| Retrieval.HydrateAll | src/retrieval.py:107-117 | the loop succeeds iff every hit can be rebuilt; then output `i` is hit `i` rebuilt and lengths agree; on failure the error is that of the first hit that cannot be rebuilt |
| Retrieval.HydrateAllFailurePropagates | src/retrieval.py:107-117 | once a prefix of the hits fails, the whole loop fails with the same error (the loop's early exit) |
| Retrieval.EnrichWithPayload | src/retrieval.py:84-119 | the loop computes exactly `Enriched(store, docs)` |
| Retrieval.Enriched | src/retrieval.py:94-119 | with no non-`None` `_id`, the input list comes back unchanged; a success keeps the number of documents; a failure needs a hit with an id and names a hit whose fetched `"document"` is not a string |
| Retrieval.PointwiseRewrite | src/retrieval.py:98-119 | otherwise the output has the input's length and output `i` is input `i` rebuilt against the payloads fetched for the requested ids |
| Retrieval.MissingPayloadKeepsHit | src/retrieval.py:108-116 | a hit whose id was not fetched keeps its text, and its metadata is only `_id` and `_collection_name` |
| Retrieval.HydrateOneIdempotent | src/retrieval.py:108-117 | rebuilding a rebuilt hit against the same payloads gives it back, with the same `_id` |
| Retrieval.HydrateAllIdempotent | src/retrieval.py:107-117 | rebuilding a rebuilt list against the same payloads gives it back |
| Retrieval.EnrichedIdempotent | src/retrieval.py:94-119 | hydrating an already hydrated list against the same store yields the same result |
| Generate.Merge | src/generate.py:103-104 | merging a step's output keeps the question; each key the step sets replaces the state's value, and each key it leaves unset keeps it |
| Generate.RerankTexts | src/generate.py:78 | the reranker gets one text per hydrated document, text `i` being document `i`'s `page_content` |
| Generate.SelectByIndex | src/generate.py:83 | with all indices in range, the context has one document per index, element `k` is `docs[indices[k]]`, and every element is one of `docs` |
| Generate.RetrieveStep | src/generate.py:63-84 | a successful `retrieve` sets `context` and never `answer` |
| Generate.GenerateStep | src/generate.py:87-99 | `generate` sets `answer` and never `context` |
| Generate.RetrieveContextFollowsRerank | src/generate.py:71-84 | on success, hydration succeeded, every rerank index is in range, and the context is the hydrated documents at the rerank indices in rerank order |
| Generate.RetrieveStepFailure | src/generate.py:71-83 | `retrieve` fails exactly when hydration fails or the reranker returns an index outside the hydrated list |
| Generate.SelectByIndexExample | src/generate.py:83 | indices `[2, 0]` over `[d0, d1, d2]` give `[d2, d0]` |
| Generate.ContextWithinFinalK | src/generate.py:79-83 | if the reranker returns at most `top_n` results, the context has at most `RERANK_FINAL_K` = 5 documents |
| Generate.ContextWithinMmrK | src/generate.py:71-83 | if the search returns at most `k` hits and the reranker returns distinct indices, the context has at most `RETRIEVAL_MMR_K` = 15 documents |
| Generate.Join | src/generate.py:91 | no parts join to `""`, a lone part to itself, and otherwise the result starts with the first part and ends with the last |
| Generate.ContextText | src/generate.py:91 | the context block is empty for no context, a lone passage's text as it is, and otherwise starts with the first passage's text and ends with the last one's |
| Generate.JoinAppend | src/generate.py:91 | joining two non-empty lists is one join, `"\n\n"`, then the other: the texts appear in context order |
| Generate.JoinLength | src/generate.py:91 | the joined text is the texts' total length plus two characters per gap |
| Generate.Prompt | src/generate.py:33-45 | the filled prompt is the template head, the context block, `"\n\nQuestion:\n"`, the question and the template tail, each at its fixed offset |
| Generate.Invoke | src/generate.py:103-105 | a run fails exactly when `retrieve` fails, with its error; a completed run keeps the question and holds both a context and an answer |
| Generate.InvokeSequence | src/generate.py:103-105 | a run fails with `retrieve`'s error, or ends with the question unchanged, `retrieve`'s context, and the model's reply to the prompt built from that context |
| Generate.EndToEndExample | src/generate.py:63-105 | three hydrated candidates reranked as `[1, 0, 2]` give the context `[d1, d0, d2]` and the answer to the prompt over their joined texts |
| Generate.ContextOfThree | src/generate.py:91 | three passages give their texts with a `"\n\n"` between each |
| DiscordBot.Lookup | src/discord_bot.py:21-25 | no result exactly when no pair has the key; otherwise the result is the response of the front-most pair with the key |
| DiscordBot.LookupFirstMatch | src/discord_bot.py:22-24 | a pair with the key that no earlier pair shares decides the lookup |
| DiscordBot.Pushed | src/discord_bot.py:27-31 | a write puts the new pair first whenever anything is left (always when `maxlen` is at least 1), every old pair one place further back; it grows the list by one below `maxlen` and keeps its length otherwise |
| DiscordBot.DictQueue.constructor | src/discord_bot.py:17-19 | a new cache is empty and has the given `maxlen`, by default 5 |
| DiscordBot.DictQueue.Get | src/discord_bot.py:21-25 | the scan returns the front-most match's response, or none when no pair has the key; it changes nothing |
| DiscordBot.DictQueue.Put | src/discord_bot.py:27-31 | the new list is the pair pushed to the front, minus the back pair when over `maxlen`; the capacity bound is kept when it held before |
| DiscordBot.PushedLength | src/discord_bot.py:29-31 | a write keeps the list within capacity and adds one entry until full, whether or not the key is already there |
| DiscordBot.PutThenGet | src/discord_bot.py:21-31 | with `maxlen` at least 1, a read right after a write returns the written value |
| DiscordBot.PushedKeepsOlder | src/discord_bot.py:29-31 | below capacity a write only prepends; at capacity it removes exactly the back (oldest) pair and keeps the others in order |
| DiscordBot.OlderDuplicateKept | src/discord_bot.py:29 | writing an existing key leaves the older pair intact, one place further back |
| DiscordBot.AbsentKeyMisses | src/discord_bot.py:25 | a key no pair holds reads as none, the source's `{}` |
| DiscordBot.ReplayKeepsNewest | src/discord_bot.py:27-31 | after any sequence of writes into an empty cache, the list is exactly the last `Capacity(maxlen)` writes, newest first |
| DiscordBot.SixKeysEvictFirst | src/discord_bot.py:25-34 | six distinct keys written into a `maxlen=5` cache: the first reads as none, the other five return their values |
| DiscordBot.DuplicateKeyScenario | src/discord_bot.py:21-31 | writing `k1, k2, k1`: `k1` reads the later value, `k2` its value, and all three writes hold a slot |
| DiscordBot.NewCache | src/discord_bot.py:34 | the bot's cache starts empty with `maxlen` 5 |
| DiscordBot.ShownAnswer | src/discord_bot.py:58 | the shown answer is the run's `answer`, or `"(no answer)"` when it has none |
| DiscordBot.AnswerMessage | src/discord_bot.py:59 | the answer message is the label `**Answer:** ` followed by the shown answer |
| DiscordBot.AnswerAlwaysPresent | src/discord_bot.py:58 | a completed run always carries an answer, so `"(no answer)"` is never shown |
| DiscordBot.AskChima | src/discord_bot.py:48-65 | on a failed run the error is posted and the cache is unchanged; on a completed run the answer is sent, and only if Discord accepts it is the whole final state stored under the new message's id; a refused send stores nothing |
| DiscordBot.ShowSources | src/discord_bot.py:119-128 | "too old" exactly when no pair has the message id; otherwise the context of the front-most matching state |
| DiscordBot.AskThenShowSources | src/discord_bot.py:59-128 | for any cache with `maxlen` at least 1, right after an answer is posted, the reaction on it shows the context the answer was built from and the cache holds the run pushed under the new message id; when no answer was posted there is nothing to react to and the cache is unchanged |

## Left out

- The MMR search, the embedding model and the vector store (src/retrieval.py:14-81) run inside the vector-store library. The search is an opaque function of the question and `k`. Its diversity formula is not modelled.
- The Cohere rerank scoring, the Ollama model and the chat-template message wrapping (src/generate.py:15-49, 75-81, 92-98) are foreign calls. The reranker is an opaque function returning result indices, and the model is an opaque function of the filled prompt text. The rerank model name and the temperature and context-window settings are not modelled.
- Exceptions raised by the external services (an unreachable store, reranker or model) are not modelled. Only the two errors the core's own code can raise are modelled: a non-string payload text and an out-of-range rerank index.
- The point store is assumed to report ids in the form they were requested in. Qdrant's normalisation of UUID spellings is not modelled.
- Payload and metadata values are limited to `None`, booleans, integers and strings. Lists, floats and nested records are not modelled.
- DiscordBot.AskChima: the text of the backend-error message is not modelled, only which error occurred. Sending is a parameter: it gives the id Discord assigns to the posted message, or none when the send raises. Which sends Discord refuses (an answer over its 2000-character limit, a network failure) is not modelled. A failure of the reaction calls is not modelled either, because the source ignores it.
- The last part of the bot is presentation and messaging over the Discord API, so it is not modelled:
  - the help and book-list commands;
  - the recycle reaction that deletes a message;
  - the 380- and 2000-character truncation of the sources reply;
  - the fallback for `title`/`author` metadata in the sources reply (src/discord_bot.py:68-156).
- Concurrency around the shared cache is not modelled. The source has no locking, and the model is sequential.
- DictQueue subclasses `dict` but never uses the inherited dictionary. Only the overridden indexing operations are modelled.
- Start-up configuration checks (the missing API key and bot token) and environment loading are not modelled (src/config.py, src/generate.py:16-19, src/discord_bot.py:159-165). Only the constants `RETRIEVAL_MMR_K = 15` and `RERANK_FINAL_K = 5` are used.
- The latency benchmark (benchmarks/latency_rag.py) is not part of this model. It measures wall-clock time and averages floats.
