# AGI prompt system: a Dafny model of its core

The system improves a generated system prompt by alternating two language
model roles. The *architect* writes a prompt from the requirements and then
refines it from feedback. The *evaluator* scores a prompt out of 1000 and
returns per-category feedback and suggestions. `PromptOrchestrator.generate_prompt`
runs that loop until the score reaches `MIN_ACCEPTABLE_SCORE` or the iteration
budget is spent, and caches the result in Redis for a day. Around it sit:

- a namespaced Redis cache with five counters (`CacheManager`);
- the text parser that turns the evaluator's reply into a score, feedback and
  suggestions (`BaseAgent.parse_evaluation`), and the clamp of that score;
- the architect's version counter and the feedback text it shows the model;
- `TaskManager`, which reports and revokes queued tasks;
- the `Accept-Language` negotiation and the security-header overlay of the
  HTTP middleware;
- the settings validator and the range constraints of the API records.

One module per source file (`cache.dfy` models `cache.py`, and so on).
Three helper modules carry what Python provides: `Wrappers` (`Option`, and
`Reply` for a returned value or a raised exception), `Text` (`split`,
`strip`, `lower`, `join`, `int()`, `float()` on decimal literals, `str()`
of an integer) and `Json` (the values the cache stores and a byte codec for
them). Code that updates state in place is a class with `modifies` clauses:
`CacheManager`, `TaskManager`, `PromptArchitect`, `PromptOrchestrator`, the
response headers. Each of its methods is proved against a specification
function. The orchestrator loop is proved equal to the recursive function
`Trace`. The parser loop is proved equal to `Parse`. The `Accept-Language`
loop and sort are proved equal to `Negotiate`. The properties are lemmas
about those functions.

Outside inputs are parameters:
- the language model is a function from messages and temperature to reply text;
- each store command takes a `fault` flag that makes it raise `RedisError`;
- the clock is an instant `now`;
- the generated task id is a parameter, and so is Python's `hash` of the
  requirements.

In these places the code behaves in ways a reader, or the repository's own tests, may not expect; the model follows the code:

- A stored value that does not decode is answered as `None` and counted as
  a hit (`cache.py:99-121`). It is not answered as the caller's default and
  not counted as an error.
- `get_task_status` asks Celery's result backend directly (`tasks.py:42-74`). It
  does not read a cached `task:<id>` snapshot first.
- A missing or zero `max_iterations` falls back to the configured
  `MAX_ITERATIONS` (`prompt_orchestrator.py:63`). It does not mean
  "no cap".
- `delete` counts in `deletes` whether or not a key was removed
  (`cache.py:174`), although `tests/test_cache.py:186` expects 0 after
  deleting an absent key.
- `"8/10"` is not an integer, so that feedback score reads as 0
  (`base_agent.py:85`), although `tests/test_base_agent.py:82-95` expects 8.
- The content security policy allows `'unsafe-inline'`
  (`middleware.py:149-150`), although `tests/test_main.py:38-40` expects
  it to be absent.
- `models.py` uses `Any` (lines 53 and 78) without importing it
  (line 2), so importing the module raises `NameError`. The `Models`
  module describes the record classes as they are evidently meant to
  behave.

## Model

| member | source | states |
|---|---|---|
| `PromptOrchestrator.PromptOrchestrator.GeneratePrompt` | prompt_orchestrator.py:44-154 | A truthy cached value under `prompt_gen:<hash>` is returned unchanged: the architect and the evaluator are not called (both ghost call logs stay as they were), and there is no progress event and no write. Otherwise, with a budget of 0 or less, the initial prompt is generated (one architect call), nothing is evaluated, and the method raises (unbound `score`). Otherwise the result is the `Trace` of the run from the initial prompt. The evaluator is asked about exactly the records' prompts, in order, so once per iteration, and the architect is called `len(iterations)` times. The architect's version advances once per refinement, so `len(iterations) - 1` times. The callback log gains exactly that run's events. The result is written once, under the same key, with ttl 86400, and a store error there is swallowed. |
| `PromptOrchestrator.PromptOrchestrator.Iterate` | prompt_orchestrator.py:73-139 | The loop's records are exactly `Trace(..., 0, initial, version)`. The final prompt and score are those of the last record. The version advances by `len(records) - 1`, and the architect is called that many times. Two progress events are logged per record. The evaluator log gains exactly the records' prompts. |
| `PromptOrchestrator.PromptOrchestrator.Step` | prompt_orchestrator.py:78-139 | One turn of the loop: an `EVALUATING` event, one evaluation (the prompt is appended to the evaluator log), one record, an `EVALUATED` event, the target check and then the budget check. A refinement happens only when neither check stops the loop. The record is the first element of the remaining trace. |
| `PromptOrchestrator.PromptOrchestrator.RefineStep` | prompt_orchestrator.py:133-139 | A refinement advances the architect's version by one and answers the architect's refinement of the prompt and evaluation just produced, with the original requirements. |
| `PromptOrchestrator.PromptOrchestrator.Finish` | prompt_orchestrator.py:141-154 | The run's records, the result dict built from them, and the single cache write of that dict under the result key for a day. |
| `PromptOrchestrator.PromptOrchestrator.SaveResult` | prompt_orchestrator.py:141-152 | The result dict carries the last record's prompt and score and the run's records. It is written with ttl 86400. Only `sets` or `errors` changes. |
| `PromptOrchestrator.PromptOrchestrator.EvaluatePromptCached` | prompt_orchestrator.py:31-42 | The memoised evaluation. A non-`None` cached value under the prompt's key is answered without evaluating: the evaluator log is unchanged, and the `get` counts a hit (or an error). Otherwise the prompt is evaluated once and the answer written for 86400 seconds. The counters then show the `get`'s miss or error and the `set`'s write or error; a store failure leaves the store as it was. |
| `PromptOrchestrator.PromptOrchestrator.GetTaskStatus` | prompt_orchestrator.py:171-181 | Delegates to `TaskManager.get_task_status`. The response has `result` iff it is ready and successful, and `error` iff it is ready, not successful and failed. |
| `PromptOrchestrator.PromptOrchestrator.constructor` | prompt_orchestrator.py:16-29 | The orchestrator evaluates with `evaluate_prompt` (so every score lies in [0,1000]) and refines with its architect. The callback log starts empty. |
| `PromptOrchestrator.Budget` | prompt_orchestrator.py:63 | A missing or zero `max_iterations` falls back to the configured `MAX_ITERATIONS`. Any other value is kept, negative ones included. |
| `PromptOrchestrator.TaskIdOf` | prompt_orchestrator.py:64 | A missing or empty task id is replaced by the generated one. |
| `PromptOrchestrator.ResultKeyInjective` | prompt_orchestrator.py:67 | Different requirement hashes give different `prompt_gen:` keys. |
| `PromptOrchestrator.Trace` | prompt_orchestrator.py:77-139 | The run as a function: it always holds at least one record, starts at the prompt it is given and numbers from `done + 1`. |
| `PromptOrchestrator.TraceShape` | prompt_orchestrator.py:77-108 | With budget N at most N records are produced, and `iterations[i].iteration == i + 1`. Each record holds the prompt evaluated, that prompt's evaluation and its score, and the score lies in [0,1000]. |
| `PromptOrchestrator.TraceStops` | prompt_orchestrator.py:124-139 | Every record but the last scored below the target. Each such record is followed by the refinement of its own prompt and evaluation, at the next architect version. The last record meets the target or exhausts the budget. |
| `PromptOrchestrator.TargetMetAtOnce` | prompt_orchestrator.py:125-127 | A first score at or above the target gives exactly one iteration, whatever the budget. |
| `PromptOrchestrator.RecordsValidate` | prompt_orchestrator.py:101-107 | Every record passes the `PromptIteration` range checks of the API models. |
| `PromptOrchestrator.Events` | prompt_orchestrator.py:81-120 | A run with a callback produces exactly two events per iteration. |
| `PromptOrchestrator.EventsAt` | prompt_orchestrator.py:81-120 | Event `2k` is `EVALUATING` with no score. Event `2k+1` is `EVALUATED` with the score and, as `details`, the appended record itself. |
| `PromptOrchestrator.FinalRecord` | prompt_orchestrator.py:124-149 | `final_prompt` and `final_score` come from the last iteration, whose number is the iteration count. Every earlier iteration scored below the target. The last one met the target or was the budget-th. The target was reached at some iteration iff the final score reaches it. |
| `PromptOrchestrator.Prompts` | prompt_orchestrator.py:96-97 | One prompt per record. |
| `PromptOrchestrator.PromptsAt` | prompt_orchestrator.py:96-97 | The `k`-th prompt sent to the evaluator is the `k`-th record's prompt. |
| `PromptOrchestrator.EvaluationValue` | prompt_orchestrator.py:31-42 | The evaluation dict is JSON-representable, so caching it never raises. |
| `PromptOrchestrator.GenerationValue` | prompt_orchestrator.py:141-152 | The result dict is JSON-representable, so the final `cache.set` never raises. Its `iterations` entry is the run's records. |
| `PromptOrchestrator.SavePayload` | prompt_orchestrator.py:191-201 | The `save_results` payload exists iff the output has `iterations` (otherwise `KeyError`). Its keys are exactly `results`, `config`, `timestamp`, `cache_hits` and `cache_misses`. `results` is a copy of those iterations. `config` holds the model, the minimum acceptable score and the configured `MAX_ITERATIONS` (`None` when unset). `timestamp` is the call's time stamp, and both counters are 0. |
| `PromptOrchestrator.PayloadCopiesIterations` | prompt_orchestrator.py:191-197 | For a generated result, the payload's `results` are exactly that run's records. |
| `PromptOrchestrator.NextRunIsCacheHit` | prompt_orchestrator.py:66-71 | A result written by one run is found, as written and truthy, by the next run with the same key within the day. That run then takes the fast path. |
| `Cache.PrefixOf` | cache.py:37 | The namespace is the configured prefix plus `:`, or `agi_prompt:` when none is configured. |
| `Cache.Namespaced` | cache.py:64-73 | A store key is the prefix followed by the caller's key, and both can be read back from it. |
| `Cache.NamespacedInjective` | cache.py:64-73 | Distinct keys stay distinct once namespaced. |
| `Cache.CacheManager.constructor` | cache.py:30-44 | The prefix is fixed at construction, the default ttl is `CACHE_TTL` (or 86400 if unset), and all five counters start at 0. |
| `Cache.CacheManager.Get` | cache.py:107-127 | Present key: `hits + 1`, and the decoded value is returned (`None` for bytes that do not decode). Absent key: `misses + 1`, and the default is returned. Store error: `errors + 1`, and the default is returned. The store never changes. |
| `Cache.CacheManager.Set` | cache.py:129-161 | A value JSON cannot represent raises `ValueError` before any write or counter change. A ttl > 0 writes an expiring entry and a ttl ≤ 0 writes one without expiry; a missing ttl uses the default. Success adds 1 to `sets` and answers true. A store error adds 1 to `errors`, answers false and leaves the store alone. |
| `Cache.CacheManager.Delete` | cache.py:163-179 | The answer is true iff the key existed. The key is gone afterwards. `deletes + 1` either way. A store error adds 1 to `errors` and answers false. |
| `Cache.CacheManager.Clear` | cache.py:181-208 | Every live key matching prefix+pattern is removed, and the count is added to `deletes` and returned. With no match it returns 0 and no counter changes. If `KEYS` fails, or the `DEL` of some batch fails, it adds 1 to `errors` and answers 0. In that case the earlier batches stay deleted. |
| `Cache.CacheManager.DeleteBatches` | cache.py:195-204 | The batch loop deletes 1000 keys at a time in order, and counts every key it removes. It stops at the first failing batch. |
| `Cache.CacheManager.KeysReply` | cache.py:191 | `KEYS` answers each matching live key exactly once. |
| `Cache.CacheManager.GetStats` | cache.py:210-216 | The answer is the five counters as they stand. |
| `Cache.CacheManager.ResetStats` | cache.py:218-226 | All five counters go back to 0, and the store is untouched. |
| `Cache.CacheManager.GetTtl` | cache.py:228-243 | The store's TTL when ≥ 0. `None` for a key without expiry, a missing key, or a store error; only the error is counted. |
| `Cache.CacheManager.Exists` | cache.py:245-259 | The answer is whether the key is live. A store error adds 1 to `errors` and answers false. |
| `Cache.CacheManager.CacheResult` | cache.py:279-304 | If `unless` holds, the function is called with no cache access. Otherwise a non-`None` cached value is answered without calling the function. Otherwise the result is computed, stored with the given ttl and returned. A non-representable result makes the wrapper raise. |
| `Cache.MemoisedResult` | cache.py:296-304 | What the wrapper wrote is what a later call reads, until it expires. |
| `Cache.GetAfterSet` | cache.py:145-155 | A written key reads back its bytes until its expiry; a non-positive ttl means no expiry. Other keys are unaffected. |
| `Cache.GoneAfterExpiry` | cache.py:145-150 | An expiring write is gone once its ttl has passed. |
| `Cache.TtlAfterSet` | cache.py:145-155 | Right after a write, `TTL` reports the ttl given, or -1 for a write without expiry. |
| `Cache.DeleteRemoves` | cache.py:199-201 | `DEL` removes exactly the keys it names. It counts at most one per key named, and 0 iff none of them existed. |
| `Cache.DeleteCountsLiveKeys` | cache.py:199-203 | Deleting distinct live keys counts every one of them. |
| `Cache.BatchesPartition` | cache.py:196-201 | The batches are non-empty and hold at most 1000 keys each; all but the last hold exactly 1000. In order they are the key list, and there are ⌈n/1000⌉ of them. |
| `Cache.BatchAt` | cache.py:199-200 | Batch `b` is the slice `keys[1000b : 1000b + 1000]`. |
| `Json.Serialize` | cache.py:75-88 | Serialisation succeeds iff the value is JSON-representable. Otherwise it raises `ValueError`. |
| `Json.RoundTrip` | cache.py:75-105 | `_deserialize(_serialize(v)) == v` for every representable value. |
| `Json.SerializeInjective` | cache.py:75-88 | Distinct representable values serialise differently. |
| `Json.TrailingBytesAreMalformed` | cache.py:99-105 | Bytes that are not exactly one value decode to `None`. |
| `BaseAgent.ParseEvaluation` | base_agent.py:53-99 | The parser computes `Parse(text)`: the score of the first `SCORE:` line, and the feedback and suggestions the section flag selects. |
| `BaseAgent.FindScore` | base_agent.py:57-64 | The score is read from the first line whose stripped form starts with `SCORE:`. It is 0 when there is no such line. |
| `BaseAgent.FindScoreLine` | base_agent.py:58-59 | Finds the first `SCORE:` line, or reports that there is none. |
| `BaseAgent.ReadScore` | base_agent.py:60-64 | The score is `int` of the stripped text between the first and second `:`. It is 0 when there is no second part or it is not an integer. |
| `BaseAgent.ScanLine` | base_agent.py:68-97 | `FEEDBACK:` opens the section and `SUGGESTIONS:` closes it. A `-` line inside the section may add an entry. A `- ` line outside it adds a suggestion. |
| `BaseAgent.ReadEntry` | base_agent.py:77-94 | Computes a feedback line's entry, as `FeedbackEntry` defines it. |
| `BaseAgent.FeedbackEntry` | base_agent.py:77-94 | A `-` line gives an entry iff it has a `:` and a `-` after it. The category is the stripped text before the `:`, and a non-integer score reads as 0. |
| `BaseAgent.Classify` | base_agent.py:58-97 | Each line is classified by its stripped prefix: `SCORE:`, `FEEDBACK:`, `SUGGESTIONS:`, a `-` line (a `- ` line also gives its stripped text), or plain. |
| `BaseAgent.UpsertLookup` | base_agent.py:86-94 | After `d[c] = e`, `d[c]` is `e` and every other category reads as before. |
| `BaseAgent.EmptyTextGivesDefaults` | base_agent.py:55-99 | An empty reply gives score 0, no feedback and no suggestions. |
| `BaseAgent.TagFreeGivesDefaults` | base_agent.py:55-99 | A reply with no `SCORE:` line, no `FEEDBACK:` line and no `- ` line gives the defaults. |
| `BaseAgent.ScoreFromFirstLine` | base_agent.py:58-64 | The score is the value of the first `SCORE:` line. |
| `BaseAgent.ScoreIgnoresLaterLines` | base_agent.py:58-59 | Lines after a `SCORE:` line cannot change the score, even if they are `SCORE:` lines too. |
| `BaseAgent.ParseScoreLine` | base_agent.py:58-62 | The reply `SCORE: n` scores `n`, for every integer `n`. |
| `BaseAgent.NoScoreLineGivesZero` | base_agent.py:55-64 | With no `SCORE:` line the score is 0. |
| `BaseAgent.FeedbackLastWins` | base_agent.py:86-94 | For each category, the feedback holds the entry of the last line that names it. |
| `BaseAgent.FeedbackFromLines` | base_agent.py:77-94 | Every category in the feedback comes from a well-formed `-` line inside the section, with that line's entry. |
| `BaseAgent.FeedbackAbsent` | base_agent.py:77-94 | A category that no feedback line names is absent from the feedback. |
| `BaseAgent.FeedbackKeysDistinct` | base_agent.py:86-91 | The feedback mapping never holds a category twice. |
| `BaseAgent.MalformedFeedbackLineDropped` | base_agent.py:77-82 | A `-` line inside the section without a `:`, or without a `-` after it, is dropped. It is neither an entry nor a suggestion, and the section stays open. |
| `BaseAgent.SuggestionsFromLines` | base_agent.py:96-97 | Each suggestion is the text of a `- ` line outside the section, and suggestions keep their lines' order. |
| `BaseAgent.SuggestionLine` | base_agent.py:96-97 | Outside the section, a line gives a suggestion iff it starts with `- ` once stripped. The suggestion is the rest of the line, stripped. |
| `BaseAgent.FeedbackLine` | base_agent.py:77-94 | Inside the section, a line gives an entry iff it is a well-formed `-` line. |
| `PromptEvaluator.ClampScore` | prompt_evaluator.py:44 | The result lies in [0,1000]. In-range scores are unchanged, scores above become 1000 and scores below become 0. |
| `PromptEvaluator.ClampMonotone` | prompt_evaluator.py:44 | Clamping keeps the order of scores and is idempotent. |
| `PromptEvaluator.EvaluateReply` | prompt_evaluator.py:41-46 | The score is the parsed score, clamped. Feedback and suggestions are exactly what the parser produced. |
| `PromptEvaluator.EvaluationMessages` | prompt_evaluator.py:24-33 | There is a system message with the template filled with the prompt, then the fixed user request. |
| `PromptEvaluator.EvaluatePrompt` | prompt_evaluator.py:14-46 | The evaluation of the model's reply to those messages. Its score lies in [0,1000]. |
| `PromptEvaluator.EvaluationDependsOnlyOnReply` | prompt_evaluator.py:35-46 | Two prompts whose replies agree get the same evaluation. |
| `PromptEvaluator.EmptyReplyEvaluation` | prompt_evaluator.py:41-44 | An empty reply evaluates to score 0 with no feedback. |
| `PromptEvaluator.ScoreReplyEvaluation` | prompt_evaluator.py:41-44 | The reply `SCORE: n` evaluates to `n` clamped into [0,1000]. |
| `PromptArchitect.PromptArchitect.constructor` | prompt_architect.py:11-14 | `version` is 1 after construction. |
| `PromptArchitect.PromptArchitect.GenerateInitialPrompt` | prompt_architect.py:16-31 | Uses the feedback text `No previous feedback available.` at the current version and leaves the version unchanged. The answer is the reply stripped of surrounding whitespace. |
| `PromptArchitect.PromptArchitect.RefinePrompt` | prompt_architect.py:33-73 | Advances `version` by exactly 1 before rendering. The prompt is rendered at the new version with the rendered feedback and the user message. The answer is the reply, stripped. |
| `PromptArchitect.PromptArchitect.InitialMessages` | prompt_architect.py:18-24 | The first generation sends a single system message, with the no-feedback text. |
| `PromptArchitect.PromptArchitect.RefineMessages` | prompt_architect.py:53-66 | There is a system message with version, feedback text and requirements, then the user message with the score and the current prompt. |
| `PromptArchitect.CategoryLines` | prompt_architect.py:43-46 | One `- {category}: {note} (Score: {score}/200)` line per category, in mapping order. |
| `PromptArchitect.BulletLines` | prompt_architect.py:48-51 | One `- s` line per suggestion, in order. |
| `PromptArchitect.EmptyFeedbackText` | prompt_architect.py:43-51 | No categories and no suggestions give an empty feedback text. |
| `PromptArchitect.SuggestionsBlockIffSuggestions` | prompt_architect.py:48-51 | The "Suggestions for improvement" block is appended iff there are suggestions. |
| `PromptArchitect.CategoryBlockLines` | prompt_architect.py:43-46 | When no category or note holds a newline, the category block splits back into exactly its lines, in order. |
| `PromptArchitect.UserMessageEmbedsPrompt` | prompt_architect.py:64 | The user message announces the score, then ends with the current prompt verbatim. |
| `Tasks.TaskManager.GetTaskStatus` | tasks.py:42-74 | `task_id`, `status`, `ready`, `successful`, `failed` and `info` are always present. `result` is present iff it is ready and successful. `error` (the stringified result) and `traceback` are present iff it is ready, not successful and failed. |
| `Tasks.TaskManager.RevokeTask` | tasks.py:76-93 | A successful revoke is recorded, then key `task:<id>` is deleted, and the answer is true. If the revoke raises, the answer is false and neither the broker nor the cache is touched. |
| `Tasks.TaskManager.constructor` | tasks.py:38-40 | The manager keeps the cache it is given, and no revocation has been sent. |
| `Tasks.Pop` | tasks.py:24 | `pop('task_id', None)` answers the value under the key. The rest keeps every other key and value, without the key. |
| `Tasks.SubmitTask` | tasks.py:22-30 | `task_id` leaves the forwarded kwargs and is passed on its own. The answer is the submitted task's id: the given id when it is truthy, otherwise (missing, `None`, empty) the generated one. |
| `Tasks.PopAbsentKey` | tasks.py:24-27 | Without a `task_id` argument the kwargs are forwarded unchanged. |
| `Middleware.LocalizationMiddleware.ParseAcceptLanguage` | middleware.py:61-97 | The method computes `Negotiate(header, default)`. |
| `Middleware.LocalizationMiddleware.Collect` | middleware.py:74-87 | The parsing loop keeps the entries that parse, in header order. |
| `Middleware.LocalizationMiddleware.Scan` | middleware.py:92-97 | The scan answers the first entry with a supported language. |
| `Middleware.LocalizationMiddleware.constructor` | middleware.py:12-15 | The default language is the one given. |
| `Middleware.NegotiateChoosesBest` | middleware.py:61-97 | The answer is a supported language or the default, and an empty header gives the default. Otherwise the answer is the earliest entry of highest q among supported entries, or the default when there is none. Unsupported entries never block, and a q=0 entry can win. |
| `Middleware.SortThenScan` | middleware.py:89-95 | The stable descending sort followed by the scan picks the earliest highest-q supported entry. |
| `Middleware.BestIndexSpec` | middleware.py:89-97 | The reference choice exists iff some entry is supported. It has the highest q among supported entries, and every earlier supported entry has strictly lower q. |
| `Middleware.SortIsSorted` | middleware.py:90 | The sort puts q values in non-increasing order. |
| `Middleware.SortByQ` | middleware.py:90 | The sort is a permutation of the entries. |
| `Middleware.Insert` | middleware.py:90 | Insertion adds exactly one element. |
| `Middleware.FirstSupported` | middleware.py:92-95 | The scan answers an entry with a supported language. It answers none iff no entry is supported. |
| `Middleware.Entries` | middleware.py:74-87 | At most one entry per comma-separated part. |
| `Middleware.ParseEntry` | middleware.py:75-87 | A parsed entry's language never holds a `-`. |
| `Middleware.LanguageOf` | middleware.py:82-84 | The language is stripped and lowercased, and truncated at the first `-`. |
| `Middleware.PrimarySubtag` | middleware.py:83-84 | The result holds no `-`, and a tag without `-` is unchanged. |
| `Middleware.EntryWithoutQuality` | middleware.py:77-85 | An entry without `;` gets q = 1.0. |
| `Middleware.ExtraParametersDropEntry` | middleware.py:77-87 | An entry with more than one `;` is skipped. |
| `Middleware.RegionDropped` | middleware.py:82-84 | `FR-ca` gives `fr` with q = 1.0: the region is dropped and the language is lowercased. |
| `Middleware.QualityEntry` | middleware.py:77-85 | For any language text without `;`, whole number `w` and digits `f`, the entry `<lang>;q=<w>.<f>` is kept. Its language is that of `<lang>`, and its quality is `w + f / 10^len(f)`: `fr;q=0.8` is `fr` with 8/10. |
| `Middleware.WholeQualityEntry` | middleware.py:77-85 | For any language text without `;` and whole number `w`, `<lang>;q=<w>` is kept with quality `w`: `de;q=1` is `de` with 1.0. |
| `Text.DecimalFraction` | middleware.py:79 | `float()` reads the numeral `<w>.<f>`, where `f` is one or more digits, as `w + f / 10^len(f)`: `0.8` is 8/10 and `2.50` is 2 + 50/100. |
| `Text.DecimalWhole` | middleware.py:79 | `float(str(w)) == w` for every whole number `w`. |
| `Middleware.SpaceBeforeQualityDropsEntry` | middleware.py:77-79 | In `en; q=0.8` the space survives `strip("q=")`, so the value is not a number and the entry is skipped. |
| `Middleware.Overlay` | middleware.py:166-167 | Writing headers never removes one. |
| `Middleware.OverlaySpec` | middleware.py:166-167 | Each written header ends up with its value, overwriting any earlier one. Every other header keeps its presence and its value. |
| `Middleware.SecurityHeaderNamesDistinct` | middleware.py:142-160 | The fixed header names are distinct even ignoring case. |
| `Middleware.SecurityHeadersApplied` | middleware.py:142-169 | After the middleware, every fixed header has its fixed value and no other header changes. |
| `Middleware.PolicyAllowsInline` | middleware.py:147-154 | The content security policy contains `'unsafe-inline'` in `script-src` and `style-src`. |
| `Middleware.SecurityHeadersMiddleware.Dispatch` | middleware.py:162-169 | The response headers become the overlay of the fixed map on the old headers. |
| `Middleware.SecurityHeadersMiddleware.constructor` | middleware.py:140-160 | The middleware holds the fixed seven-header map. |
| `Config.ValidateEnvironment` | config.py:97-103 | Accepts exactly `development`, `testing`, `staging` and `production`, and returns the value unchanged. Any other value raises `ValueError`. |
| `Config.AtMostOneEnvironmentFlag` | config.py:105-118 | At most one of `is_production`, `is_development` and `is_testing` holds. |
| `Config.ValidatedEnvironmentFlags` | config.py:97-118 | A validated environment sets one flag, or it is `staging` and sets none. |
| `Config.DatabaseUrl` | config.py:120-124 | The URL gets `_test` appended iff the environment is `testing`; otherwise it is unchanged. |
| `Config.DefaultsAreProduction` | config.py:14-48 | With the defaults the environment is `production` and passes the validator, and the database URL is not suffixed. |
| `Models.StatusFromValue` | models.py:8-14 | A value names a status member only if that member's value is that string. |
| `Models.StatusValuesExactly` | models.py:8-14 | `TaskStatus` has exactly five values: pending, started, retry, failure and success. |
| `Models.ValidateRequest` | models.py:17-29 | A request is valid iff its temperature is absent or in [0,2]. `max_iterations` is optional. |
| `Models.ValidateEvaluation` | models.py:32-36 | An evaluation is valid iff its score is in [0,1000]. |
| `Models.ValidateIteration` | models.py:39-45 | An iteration is valid iff `iteration ≥ 1`, its score is in [0,1000] and its nested evaluation is valid. |
| `Models.ValidateResponse` | models.py:48-62 | A response is valid iff progress is in [0,1]; `result` and `error` are optional. |
| `Models.ValidateCacheStats` | models.py:84-90 | Cache stats are valid iff hits, misses, size and max_size are ≥ 0 and hit_ratio is in [0,1]. |
| `Models.ValidateMetrics` | models.py:93-105 | Metrics are valid iff duration ≥ 0, iterations ≥ 0, final_score is in [0,1000] and both cache counts are ≥ 0. |

## Left out

- PromptOrchestrator.PromptOrchestrator.GeneratePrompt: each iteration evaluates through the orchestrator's `evaluate` function, not through the memo cache. The loop's cache reads and writes for evaluations, and the counter updates they cause, are not modelled. The decorator `cached` that wraps `_evaluate_prompt_cached` lives in a utility module that is not part of this model. The memoised evaluation is modelled on its own, as `EvaluatePromptCached`, over `cache_result`. The ghost `evaluated` log thus records the calls of `_evaluate_prompt_cached`, one per iteration, not the calls that reach the language model.
- PromptOrchestrator.PromptOrchestrator.GeneratePrompt: with no configured `MAX_ITERATIONS` and no request, the loop is bounded only by the score and need not terminate. The method requires a finite budget. Budgets of 0 or less are modelled (they raise).
- PromptOrchestrator.PromptOrchestrator.GeneratePrompt: the collaborators are total functions. A failing language-model call, which propagates to the caller in the source, is not modelled.
- Timestamps from `datetime.utcnow()` are one `stamp` string per call. All records and `completed_at` share it, and the progress events carry none.
- `uuid4()` is the `generatedId` parameter. Python's per-process `hash` of the requirements is the orchestrator's `hash` function, and nothing is claimed about it across processes.
- The progress callback is the orchestrator's `progress` log of calls, appended synchronously. async/await and concurrent runs are not modelled.
- `submit_generate_prompt` is not modelled because it refers to an undefined task. `clear_cache` is not modelled because it calls a method the cache does not have. `get_cache_stats` is not modelled because it always answers zeros. `save_results` is modelled as its payload only; the file write is left out.
- Language-model calls (`BaseAgent.call_llm`, the OpenAI client) are not modelled. The model is a function from messages and temperature to reply text, and the prompt templates are functions too.
- Redis is modelled by its contents at an instant `now`. `KEYS` glob matching is the manager's `matches` function, and `KEYS` returns its keys in an unspecified order. Connection setup (`_create_redis_client`) is not modelled. Store errors are `fault` flags.
- The cache codec is a tagged byte encoding with the contract of `json.dumps`/`json.loads`. It is defined exactly on representable values and reads back what it wrote. JSON text, floats and non-string dict keys are not modelled. A value JSON cannot represent is `Opaque`.
- `cache_result`'s default key is the md5 digest of the function name and arguments. It is the `defaultKey` parameter.
- `get_task_status` takes the queue's `AsyncResult` as a record. `revoke` is recorded in the manager's `revocations` log. Whether cancellation reaches a running worker is outside the model.
- `LocalizationMiddleware.dispatch` is not modelled: its gettext translation of error details depends on translation catalogues. `RequestLoggingMiddleware` is not modelled because it only logs. The default language, which comes from the translation package, is a constructor parameter.
- Response headers are a map keyed by lower-cased name. Starlette's header list, which may hold several values per name, is not modelled.
- `float()` on q values reads decimal literals only: no exponents, `inf` or `nan`. A q value is the exact rational the literal spells; rounding to a binary64 double is not modelled. So values that round to the same double in the program can be ordered differently by the model: `q=0.1` and `q=0.10000000000000001` tie in the program, but the model ranks the second higher. `lower()`, `strip()` and `int()` are modelled on ASCII letters and digits and on Python's whitespace set. Unicode case mapping and non-ASCII digits are not modelled.
- Models.ValidateRequest, Models.ValidateEvaluation, Models.ValidateIteration, Models.ValidateResponse, Models.ValidateCacheStats, Models.ValidateMetrics: `models.py` cannot be imported as written (`Any` is used at lines 53 and 78 but not imported at line 2, a `NameError`). These validators model the classes as evidently intended, not the import failure.
- Pydantic coercion is not modelled: datetimes are integers and floats are reals. `Dict[str, Any]` and `Dict[str, str]` fields are `map<string, string>`. Of the settings, only the fields the core reads are modelled. The HTTP layer, CORS, metrics, Celery configuration, translation compilation and packaging are not modelled.
