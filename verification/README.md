# Key-rotating retrieval core of the ARCA compliance assistant, in Dafny

This project models the self-contained core of a retrieval-augmented
regulatory-compliance assistant. The hosted services it talks to (the Chroma
Cloud vector database and the Gemini embedding and generation APIs) are
represented as oracle functions. The model covers:

- **Two API-key pools.**
  - `GeminiManager.GeminiKeyManager` is the class in `src/gemini_manager.py`.
    It holds a filtered key list and a current index, and rotates round-robin.
    `embed_content_with_retry` retries only after a rate-limit error. That is an
    error whose lower-cased text mentions `429`, `quota` or `rate limit`. It
    does not rotate after the last permitted attempt.
  - `AgentsKeys.GeminiPool` models the module globals of `src/agents.py`
    (`GEMINI_KEYS`, `CURRENT_KEY_INDEX`) together with the key the Gemini client
    library is configured with. `safe_gemini_call` matches a wider,
    case-sensitive set of fragments. It rotates after every retryable failure,
    including the last one.
  - Each retry loop is a method proved equal to a recursive specification
    function (`Embed`, `SafeCall`). The lemmas about that function give the
    call trace, the bounds on calls and rotations, the full-cycle property
    and the error classification.
- **The vector-store adapter** of `src/vector_db_search.py`.
  - `add_document` builds aligned ids, metadata and documents for the chunks the
    splitter produced. Each id is prefixed by the tenant.
  - `search` queries the tenant and falls back to the shared `"default"`
    corpus at most once. A lemma proves tenant isolation for any store that
    honours the filter.
- **Report normalisation** in `src/agents.py`:
  - the researcher's pair-to-record map;
  - `analyze_one`'s fallback to a LOW result on any failure;
  - the auditor's order-preserving map, with its defaults and the 500-character
    excerpt;
  - the report builder, whose risk count is the length of its risk list.
- **The regulation identifier** of `src/utils.py`. It is the SHA-256 hex digest
  (FIPS 180-4) of the UTF-8 bytes of `(date_of_law or "") + "|" + text`.
  - UTF-8 encoding is written out, together with a strict decoder that accepts
    only well-formed UTF-8 (section 3 of RFC 3629). The decoder reads back
    exactly what the encoder writes, and nothing else, so the encoding is
    injective and each string has exactly one UTF-8 form.
  - SHA-256 is a function parameter.
  - Together: when neither date contains `|`, distinct (date, text) pairs give
    distinct bytes to hash.

Behaviour of the code that the model makes explicit, each point proved by the
lemma named:

- The key pools are not deduplicated: a key set in two variables appears twice
  (src/gemini_manager.py:26, src/agents.py:22-23; `EnvKeys.DuplicateKeysKept`).
- Only the key manager matches case-insensitively (src/gemini_manager.py:69).
  The pool of `src/agents.py` matches case-sensitively, and it also retries on
  403, `exceeded`, `API key`, 500 and 503 (src/agents.py:60-66;
  `AgentsKeys.UpperCaseQuotaPropagatesHere`, `AgentsKeys.ForbiddenRetriedOnlyHere`).
- The key manager rotates after every rate-limit error except the one on the
  last permitted attempt (src/gemini_manager.py:75-81). Take two keys,
  `max_retries = 4`, and three rate-limit errors before an answer: it rotates
  three times, wrapping round the pool, and succeeds on the fourth attempt
  (`GeminiManager.ThreeRateLimitsThenSuccess`).
- The response schema lists HIGH, MEDIUM and LOW (src/agents.py:94), but
  nothing in the code checks the severity it reads back
  (src/agents.py:140; `Agents.SeverityNotChecked`).
- The report holds exactly the auditor's records (src/agents.py:156-157). Of
  the free-text fields, only the regulation excerpt is cut, to its first 500
  characters (src/agents.py:143).

## Model

| member | source | states |
|---|---|---|
| `EnvKeys.CollectKeys` | src/gemini_manager.py:26 | the pool has at most one key per listed variable and never an empty key |
| `GeminiManager.ManagerKeys` | src/gemini_manager.py:14-26 | the key manager reads at most eight keys |
| `GeminiManager.Budget` | src/gemini_manager.py:56-57 | without `max_retries` the attempt budget is the pool size |
| `AgentsKeys.AgentKeys` | src/agents.py:19-23 | the agents' pool holds at most twenty keys |
| `EnvKeys.CollectKeysMembership` | src/gemini_manager.py:14-26 | a key is in the pool iff some listed variable is set to a non-empty value equal to it |
| `EnvKeys.CollectKeysAllPresent` | src/gemini_manager.py:26 | when every listed variable is set, the pool holds each value at its own position, in declaration order |
| `EnvKeys.DuplicateKeysKept` | src/gemini_manager.py:26 | two variables holding the same key both contribute it: no deduplication |
| `EnvKeys.CollectKeysAppend` | src/agents.py:20-23 | collecting slot by slot and appending gives the same pool as collecting over all slots |
| `GeminiManager.GeminiKeyManager.Create` | src/gemini_manager.py:28-31 | construction fails exactly when no key is present; otherwise the pool is the filtered list and the index starts at 0 |
| `GeminiManager.GeminiKeyManager.constructor` | src/gemini_manager.py:12-32 | with a key present, the pool is the filtered env list, the index is 0 and the client uses the first key |
| `GeminiManager.GeminiKeyManager.RotateKey` | src/gemini_manager.py:42-46 | index becomes `(old + 1) % len`, stays in range, the key list is unchanged and the client uses the new key |
| `GeminiManager.GeminiKeyManager.GetCurrentKey` | src/gemini_manager.py:48-50 | returns the key at the current index, which is the configured, non-empty key |
| `GeminiManager.GeminiKeyManager.EmbedContentWithRetry` | src/gemini_manager.py:52-86 | result and final index are those of `Embed` on the old pool, index and oracle; the key list is unchanged |
| `GeminiManager.Embed` | src/gemini_manager.py:56-86 | the final index stays in the pool; "after all retries" is raised iff the budget is not positive; at most `max_retries` calls (the pool size by default) |
| `GeminiManager.EmbedFrom` | src/gemini_manager.py:59-86 | the index the retry loop leaves is always within the pool |
| `GeminiManager.EmbedTrace` | src/gemini_manager.py:59-84 | every call before the last hit a rate limit on the key reached by that many rotations; the last answer decides the result; rotations = calls - 1 |
| `GeminiManager.PositiveBudgetBounds` | src/gemini_manager.py:56-86 | with a positive budget (by default the pool size) the "after all retries" error is unreachable and rotations are at most budget - 1 |
| `GeminiManager.NoBudgetNoCall` | src/gemini_manager.py:59-86 | with `max_retries <= 0` no call is made and the "after all retries" error is raised |
| `GeminiManager.NonRateLimitNoRotation` | src/gemini_manager.py:82-84 | a first error that is not a rate limit is re-raised unchanged after one call, with no rotation |
| `GeminiManager.DefaultBudgetTriesEachKeyOnce` | src/gemini_manager.py:56-81 | with the default budget and rate limits on every key, each key is tried exactly once and "All N API keys hit rate limits" is raised after N - 1 rotations |
| `GeminiManager.ThreeRateLimitsThenSuccess` | src/gemini_manager.py:59-78 | two keys, four attempts, three rate limits then an answer: three rotations, success on the second key |
| `GeminiManager.IsRateLimitError` | src/gemini_manager.py:69-72 | a message mentioning 429, quota or rate limit, verbatim or in capitals, is a rate limit |
| `Text.ContainsLower` | src/gemini_manager.py:69-72 | lower-casing keeps every occurrence of a fragment, lower-cased |
| `GeminiManager.RateLimitIgnoresCase` | src/gemini_manager.py:69-72 | rate-limit classification does not depend on letter case |
| `Rotation.FullCycle` | src/gemini_manager.py:44 | rotating once per key from an index in range returns to that index |
| `Rotation.VisitsEachOnce` | src/gemini_manager.py:44 | the first N rotation positions from an index in range are pairwise distinct |
| `Rotation.AdvanceMod` | src/agents.py:40 | k rotations from any index land on `(index + k) % len` |
| `Rotation.FullCycleFromAny` | src/agents.py:40 | a full cycle from any index, even one left out of range by a reload, lands on `index % len` |
| `AgentsKeys.GeminiPool.constructor` | src/agents.py:11-12 | at import time the pool is empty, the index is 0 and the client is not configured |
| `AgentsKeys.GeminiPool.LoadGeminiKeys` | src/agents.py:15-28 | the pool is rebuilt from slots 1..20 in order; ValueError iff it is empty; success configures the first key; the index is not reset |
| `AgentsKeys.AgentKeyNamesDistinct` | src/agents.py:20-21 | the twenty slots read twenty different variables |
| `AgentsKeys.GeminiPool.RotateKey` | src/agents.py:36-43 | index becomes `(old + 1) % len`, that key is configured and returned; an empty pool raises ZeroDivisionError and changes nothing |
| `AgentsKeys.GeminiPool.SafeGeminiCall` | src/agents.py:46-70 | result, final index and configured key are those of `SafeCall` on the old state and the oracle; the pool is unchanged; with keys loaded, every key the call can send is a pool key |
| `AgentsKeys.PoolKeysInUse` | src/agents.py:40-42 | once the client is configured with a pool key, each request of a call (the configured key first, then each rotated-to key) carries a pool key |
| `AgentsKeys.IsQuotaError` | src/agents.py:60 | a message is a quota error iff one of "quota", "429", "403", "exceeded", "API key" occurs in it, case-sensitively |
| `AgentsKeys.IsServerError` | src/agents.py:64 | a message is a server error iff "500" or "503" occurs in it |
| `AgentsKeys.IsRetryable` | src/agents.py:60-66 | a message is retried iff one of the seven fragments of both groups occurs in it |
| `AgentsKeys.SafeCallFrom` | src/agents.py:52-70 | from attempt `a`, between 1 and `len - a` requests while attempts remain and none after; at most one rotation per request; after a rotation the configured key is the key at the final index |
| `AgentsKeys.SafeCall` | src/agents.py:46-70 | at most `len(GEMINI_KEYS)` requests, at most one rotation per request, and the configured key matches the final index once a rotation happened |
| `AgentsKeys.SafeCallTrace` | src/agents.py:52-68 | each rotation follows a retryable failure on the key then in use; an answer or a non-retryable error ends the call; otherwise one rotation per key |
| `AgentsKeys.SafeCallLands` | src/agents.py:52-68 | after a call the pool index and the configured key are those reached by its rotations |
| `AgentsKeys.SafeCallEnd` | src/agents.py:52-70 | an answer or a non-retryable error on the last request ends the call after one request more than it rotated; the "all keys failed" error comes exactly when every key was tried and rotated past |
| `AgentsKeys.SafeCallRetries` | src/agents.py:52-66 | every rotation follows a retryable failure of the request sent with the key then in use |
| `AgentsKeys.SafeCallRotates` | src/agents.py:57-66 | a quota or server error moves the call to the next attempt with the next key, and the outcome is that of the rest of the loop |
| `AgentsKeys.EmptyPoolNoCall` | src/agents.py:52-70 | with no keys no request is made and RuntimeError is raised |
| `AgentsKeys.AllRetryableFullCycle` | src/agents.py:52-70 | if every attempt fails retryably: RuntimeError after exactly `len` rotations, the index back at its start modulo `len` |
| `AgentsKeys.OtherErrorPropagates` | src/agents.py:68 | a first error outside both groups propagates unchanged after one request, with no rotation |
| `AgentsKeys.ForbiddenRetriedOnlyHere` | src/agents.py:60-62 | a 403 is retried by this pool but re-raised by the key manager |
| `AgentsKeys.UpperCaseQuotaPropagatesHere` | src/agents.py:57-60 | "QUOTA" is retried by the case-insensitive key manager but propagates here |
| `Text.ContainsIff` | src/agents.py:60 | Python's `needle in s` holds iff the needle occurs at some position of `s` |
| `Text.Lower` | src/gemini_manager.py:69 | `str.lower` keeps the length and lower-cases each ASCII capital, leaving every other character |
| `Text.LowerIdempotent` | src/gemini_manager.py:69 | lower-casing twice is lower-casing once, and leaves no ASCII capital |
| `Text.Take` | src/agents.py:143 | `s[:n]` is a prefix of `s` of length `min(len s, n)` |
| `Agents.PolicyRecords` | src/agents.py:80-82 | one record per search result |
| `Agents.PolicyRecordsRoundTrip` | src/agents.py:82 | records and (id, excerpt) pairs convert into each other both ways: nothing lost or reordered |
| `Agents.AnalysisOf` | src/agents.py:123-131 | the parsed answer on success; on a failed call or a failed parse, the LOW record with "API error: " and the error text |
| `Agents.FailureIsLow` | src/agents.py:127-131 | any failure yields severity LOW and a justification starting "API error: " |
| `Agents.AnalyzeOne` | src/agents.py:89-131 | one `safe_gemini_call` through the shared pool then the parse; the pool moves as `SafeCall` says |
| `Agents.RiskRecord` | src/agents.py:138-144 | id and excerpt copied; severity defaults to LOW, summary to "No justification provided"; the rule excerpt is the rule text's first 500 characters, or all of it when shorter |
| `Agents.SeverityNotChecked` | src/agents.py:140 | a severity outside HIGH/MEDIUM/LOW passes through unchanged |
| `Agents.FailedAnalysisRecord` | src/agents.py:127-141 | a failed analysis gives a LOW record whose summary carries the error |
| `Agents.AuditRecords` | src/agents.py:133-145 | one record per input item, in input order, each built from that item's analysis |
| `Agents.AuditRun` | src/agents.py:133-145 | the append loop builds exactly `AuditRecords` |
| `Agents.BuildReport` | src/agents.py:152-163 | `total_risks_flagged == len(risks)`, risks passed through, id from `regulation_id_for`, fixed recommendation |
| `Agents.ReportCountsEveryPolicy` | src/agents.py:156-157 | a report over the auditor's output flags exactly one risk per researched policy, in order |
| `Agents.ReportIdStable` | src/agents.py:154 | the report id depends only on the regulation text and date, not on the risks or the processing day |
| `Utils.ChunkingConstantsConsistent` | src/utils.py:5-6 | `0 < CHUNK_OVERLAP < CHUNK_SIZE` |
| `Utils.RegulationBase` | src/utils.py:11 | the base string is the date (or nothing), one bar, then the text |
| `Utils.BaseSplitsBack` | src/utils.py:11 | with no bar in the date, splitting the base string at its first bar gives back date and text |
| `Utils.MissingDateIsEmptyDate` | src/utils.py:11 | `None` and `""` as date give the same identifier |
| `Utils.BarInDateCollides` | src/utils.py:11 | `("a\|b", "c")` and `("a", "b\|c")` share an identifier |
| `Utils.DecodeEncode` | src/utils.py:12 | the strict UTF-8 reader reads the encoding of a string back as that string |
| `Utils.DecodeUnique` | src/utils.py:12 | any byte string that the strict reader reads as `s` is the encoding of `s`: the UTF-8 form is unique |
| `Utils.EncodeCharOfDecode` | src/utils.py:12 | each character the strict reader accepts was written in its one UTF-8 form, 1 to 4 bytes |
| `Utils.DecodeSplit` | src/utils.py:12 | a non-empty byte string the strict reader accepts begins with the UTF-8 form of the first character it reads, and the reader accepts the rest as the remaining characters |
| `Utils.EncodeInjective` | src/utils.py:12 | distinct strings have distinct UTF-8 encodings |
| `Utils.Utf8Encode` | src/utils.py:12 | one to four bytes per character; ASCII text is encoded as its own code points, one byte each; with `DecodeEncode` and `DecodeUnique` these are the only well-formed UTF-8 bytes for the string |
| `Utils.RegulationIdFor` | src/utils.py:9-12 | the identifier is the digest of a byte string that the strict UTF-8 reader reads as the date (or nothing), a bar and the text; by `DecodeUnique` that byte string is exactly the UTF-8 encoding of the base string |
| `Utils.DistinctInputsDistinctDigestInput` | src/utils.py:11-12 | with no bar in either date, distinct (date, text) pairs give distinct hash inputs |
| `Utils.RegulationIdIsHexDigest` | src/utils.py:12 | if the digest function yields 64 lower-case hex characters, so does `regulation_id_for` |
| `VectorStore.ChunkId` | src/vector_db_search.py:73 | an id starts with the tenant and a dash, followed by the uuid |
| `VectorStore.PrepareBatch` | src/vector_db_search.py:72-74 | ids, metadata and documents are aligned with the chunks; every id is tenant-prefixed; every metadata is {source, user_id} |
| `VectorStore.BatchIdsDistinct` | src/vector_db_search.py:73 | distinct uuids give distinct ids |
| `VectorStore.VectorDB.constructor` | src/vector_db_search.py:58-59 | the adapter sees the collection's existing entries |
| `VectorStore.VectorDB.AddDocument` | src/vector_db_search.py:71-80 | the collection gains one entry per chunk, in order, tagged with tenant and file |
| `VectorStore.AddedEntriesTagged` | src/vector_db_search.py:72-79 | each stored chunk carries its text, `{source: filename, user_id}` and a tenant-prefixed id |
| `VectorStore.Zip` | src/vector_db_search.py:108 | pairs ids with documents position by position, up to the shorter list |
| `VectorStore.HitsOf` | src/vector_db_search.py:104-108 | no document gives `[]`; otherwise `min(len ids, len docs)` pairs, each id with the document at the same position |
| `VectorStore.Search` | src/vector_db_search.py:84-108 | first query filters on the tenant with `top_k`; a second, on "default", iff the first found no document and the tenant is not "default"; never a third |
| `VectorStore.DefaultTenantNoFallback` | src/vector_db_search.py:95 | searching as "default" issues exactly one query |
| `VectorStore.TenantHitsNoFallback` | src/vector_db_search.py:93-95 | when the tenant's query finds documents, the result is exactly that query's pairs, with no fallback |
| `VectorStore.HitsBounded` | src/vector_db_search.py:104-108 | no document gives `[]`; otherwise `min(len ids, len docs)` pairs, at most `top_k` when the store honours `n_results` |
| `VectorStore.SearchTenantIsolation` | src/vector_db_search.py:87-108 | with a store honouring the filter, every hit is a stored chunk of the tenant, or of "default" only when the tenant's query found nothing |

## Left out

- The Chroma Cloud client, collection creation and the `_collection` and
  `_db_instance` singletons are not modelled (src/vector_db_search.py:15-54,
  110-114). The collection is seen only as a query oracle and as the list of
  entries the adapter adds.
- Failures of `collection.add` and `collection.query` are not modelled. That
  includes a store that rejects an empty batch or a non-positive `n_results`.
- `genai.configure` is modelled only as the `configuredKey` field. The Gemini
  `embed_content` and `generate_content` calls are oracles from the request
  (attempt, key, content) to an outcome.
- The `time.sleep(1)` between attempts and every `print` diagnostic are not
  modelled: neither has an observable effect on results.
- The `get_key_manager` lazy singleton is not modelled.
- `RecursiveCharacterTextSplitter.split_text` is third-party code. It is a
  parameter that receives the configured chunk size and overlap, and no
  boundary or overlap property is claimed for it.
- `uuid.uuid4()` is a parameter that gives the uuid for each chunk position.
- SHA-256 is a parameter; only the shape of its hex digest is stated, as a
  hypothesis.
- `today_iso` reads the clock; the report builder takes the date as a parameter.
- `Utils.RegulationIdFor`: `base.encode()` is strict UTF-8 and raises
  UnicodeEncodeError on a string that holds a lone surrogate (for example
  `"\ud800"`, which a JSON request body can carry). A Dafny `char` is a
  Unicode scalar value and cannot hold a surrogate, so in the model the
  identifier always exists; that error path is not modelled.
- `VectorStore.Search`: the default `top_k = 5` of src/vector_db_search.py:84 is
  not modelled; the caller always supplies `top_k`.
- `Text.Lower`: Python's `str.lower` is modelled for the ASCII letters A-Z only.
- `GeminiManager.IsRateLimitError`: Python's `str.lower` is modelled for ASCII
  letters only.
- `Agents.AnalysisOf`: the answer `json.loads` produces is modelled as a JSON
  object with string values. An answer that parses to some other JSON value,
  which would make `analysis.get` raise in `ComplianceAuditor.run`, is not
  modelled.
- `Agents.AuditRun`: the analyses come from an oracle indexed by item position.
  The key-pool state carried from one `analyze_one` call to the next is
  modelled per call by `Agents.AnalyzeOne`, not threaded through the loop.
- `Agents.PolicyRecords`: it takes the search results as input. The search
  call at src/agents.py:81 omits the `user_id` that src/vector_db_search.py:84
  requires, so as written it raises TypeError; that call is not modelled.
- `run_arca_pipeline` (src/agents.py:169-176) and the HTTP layer are not
  modelled. Their call sites disagree with the definitions (main.py:89 passes
  three arguments to a two-argument function).
- The seeding and diagnostic scripts are not modelled. They are file-system
  and network I/O.
- Concurrent requests racing on `CURRENT_KEY_INDEX` are not modelled: every
  operation here is sequential.
- The prompt text and what the language model decides are not modelled. The
  prompt is kept only as its two inputs.
