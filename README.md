# FreeQwenApi core, modelled in Dafny

FreeQwenApi is an HTTP proxy. It exposes an OpenAI-style API and forwards each
request to the Qwen chat service through a headless browser. This project
models the proxy's decision logic and proves properties of it. The model
covers three source files.

- **Credential pool** (`src/api/tokenManager.js`).
  - Credentials come from the environment (`QWEN_TOKEN`, `QWEN_TOKENS`) and
    from the persisted `tokens.json`.
  - Every operation re-loads `env + file` and, when it changes something,
    saves only the entries whose source is not the environment.
  - A module-level cursor `pointer` drives round-robin selection.
  - Module `TokenManager` holds the value-level `Store`, whose member
    functions are the operations as pure transitions. Class `TokenPool` is
    the module as an object (`env`, `file`, `pointer`). Each of its methods
    is proved equal to the matching `Store` transition.
  - A store is *clean* when its environment part holds only env-sourced
    records and its file holds none. `TokenPool.Valid` is that invariant,
    and after every save the file part is clean again.
- **Request orchestration** (`src/api/chat.js`).
  - `PagePool`: the bounded LIFO cache of idle tabs, as a value and as a
    class.
  - `TaskPoller`: `pollTaskStatus`, as a counted loop over an oracle of replies.
  - `StreamDecoder`: the line-buffering loop that reads a streamed
    completion. Lines follow a reduced form of "Server-sent events"
    (section 9.2 of the WHATWG HTML Living Standard).
  - `ChatRequest`: the pure pieces of the file. These are message
    validation, model fallback, the configuration-file line filter, payload
    flags, task-id and video-URL extraction, the `testToken` mapping and
    failure classification.
  - `Dispatcher`: one call of `sendMessage` (and `createChatV2`) as a pure
    transition over the module state. The browser, the service and the
    clock are an oracle `World`. Its recursion is a chain of calls, one
    world each; `DispatcherProperties` holds the lemmas about that chain.
  - `ChatSession`: the same steps as methods of a class holding the two
    pools and `authToken`.
- **Routing** (`src/api/routes.js`).
  - `Routes` models the API-key middleware, the `/v1`/`/v2` URL rewrite,
    `parseOpenAIMessages` and `buildCombinedTools`.
  - It also models the 16-code-point stream frames, the non-streaming
    defaults, the `/status` account classification and the 400 rejections
    of `/chat` and `/chat/completions`.

Shared modules:
- `Util`: `Option`, and `trim`/`split`/`startsWith`/`includes` over
  `seq<char>`.
- `JsonValues`: JSON values with JavaScript truthiness and the `a || b`
  chain.

Integers are unbounded. JavaScript numbers appear only as counts and
millisecond times. Counts and the clock stay inside the exact range of a
double. A rate-limit cooldown does not have to: its hour count `num` comes
from the service. `markRateLimited` computes `now + hours·3600·1000`. Past
±8.64·10^15 ms, a JavaScript `Date` is invalid and `toISOString` throws
RangeError before anything is saved. The model keeps that limit
(`TokenManager.MaxDateMillis`) and leaves the store unchanged in that case,
as the empty `catch` around the call in `sendMessage` does
(`TokenManager.HugeCooldownChangesNothing`).

The model follows the code as written, including behaviour that looks
unintended:
- The chat is created before the message is validated
  (`DispatcherProperties.ChatCreatedBeforeValidation`).
- The retried call passes `files` as `parentId` and drops tools, system
  message and chat type (`DispatcherProperties.RetryDropsOptions`).
- The rate-limit path retries unconditionally
  (`DispatcherProperties.RateLimitAlwaysRetries`).
- If the service keeps answering 401 and only environment credentials are
  left, the recursion never ends. `markInvalid` on an environment entry is
  lost when the store is saved (`DispatcherProperties.EnvPoolNeverSettles`).
- The verification branch tests `response.html`, which the in-page code never
  sets, so it is dead (`DispatcherProperties.NoVerification`).

## Model

| member | source | states |
|---|---|---|
| TokenManager.TrimmedNonEmpty | src/api/tokenManager.js:46-49 | the trimmed, non-empty pieces are never more than the pieces of the split |
| TokenManager.TrimmedNonEmptySpec | src/api/tokenManager.js:46-49 | every surviving `QWEN_TOKENS` piece is non-empty and already trimmed |
| TokenManager.TrimmedNonEmptySingle | src/api/tokenManager.js:46-49 | a single piece survives, as its trimmed text, exactly when it is not blank |
| TokenManager.TrimmedNonEmptyAppend | src/api/tokenManager.js:46-49 | the filter keeps order: the survivors of `a + b` are those of `a` followed by those of `b`, so every non-blank piece survives in place |
| TokenManager.ListedEnvTokens | src/api/tokenManager.js:51-61 | one record per surviving piece |
| TokenManager.ListedAt | src/api/tokenManager.js:51-61 | the record at position k carries number from + k and the k-th piece |
| TokenManager.ListedAllEnv | src/api/tokenManager.js:51-61 | every listed record has source `env` |
| TokenManager.EnvSingle | src/api/tokenManager.js:28-42 | `QWEN_TOKEN` contributes at most one record |
| TokenManager.EnvSingleSpec | src/api/tokenManager.js:28-42 | exactly one record, `env_token_1` / "Environment Token" / env / valid / no cooldown, iff the trimmed value is non-empty |
| TokenManager.EnvRecords | src/api/tokenManager.js:44-61 | after an env prefix, the k-th listed record is `ListedEnvToken(k, piece k)`, all env-sourced |
| TokenManager.EnvTokensShape | src/api/tokenManager.js:24-69 | loadTokensFromEnv yields the `QWEN_TOKEN` record first (iff its trim is non-empty), then the k-th surviving piece with id `env_token_(k+1)`, all env-sourced |
| TokenManager.AllEnvAppend | src/api/tokenManager.js:24-69 | the single-variable record and the listed records together are all env-sourced |
| TokenManager.AppendListedTokens | src/api/tokenManager.js:51-61 | the forEach loop appends exactly the listed records, in order, after the prefix |
| TokenManager.ListedSnoc | src/api/tokenManager.js:51-61 | one more piece appends exactly its numbered record |
| TokenManager.ListedShape | src/api/tokenManager.js:51-61 | after a prefix, record k is the record of piece k |
| TokenManager.LoadTokensFromEnv | src/api/tokenManager.js:24-69 | the imperative builder returns the value `EnvTokens(QWEN_TOKEN, QWEN_TOKENS)` |
| TokenManager.EnvIdInjective | src/api/tokenManager.js:53 | `env_token_j == env_token_k` only when j == k |
| TokenManager.EnvIdCollision | src/api/tokenManager.js:28-61 | with both variables set, the first two records share the id `env_token_1` |
| TokenManager.Persisted | src/api/tokenManager.js:104 | the saved list is never longer than the list given |
| TokenManager.PersistedAppend | src/api/tokenManager.js:104 | the save filter distributes over concatenation |
| TokenManager.PersistedAllEnv | src/api/tokenManager.js:104 | an all-env list saves nothing |
| TokenManager.PersistedNoEnv | src/api/tokenManager.js:104 | a list without env entries is saved unchanged |
| TokenManager.PersistedSources | src/api/tokenManager.js:101-106 | every saved entry is non-env and comes from the list given |
| TokenManager.SaveIsClean | src/api/tokenManager.js:101-110 | whatever list is saved, the file afterwards holds no env-sourced record |
| TokenManager.OperationsKeepClean | src/api/tokenManager.js:112-158 | getAvailableToken, removeToken, markInvalid, markRateLimited and markValid all keep a clean store clean |
| TokenManager.SaveOfLoad | src/api/tokenManager.js:93-106 | saving what was loaded keeps exactly the non-env file entries; it is the identity on a clean store, and any save leaves the store clean |
| TokenManager.PersistedUpdate | src/api/tokenManager.js:101-158 | a point update of an env entry is dropped by the save; of a file entry, it becomes the same point update of the file |
| TokenManager.EligibleTokens | src/api/tokenManager.js:115 | the eligible list is no longer than the store |
| TokenManager.EligibleTokensSpec | src/api/tokenManager.js:115 | an entry is in the eligible list iff it is in the store and (not invalid, and no reset or reset <= now) |
| TokenManager.EligibleTokensSingle | src/api/tokenManager.js:115 | one entry is on the eligible list exactly when it is eligible |
| TokenManager.EligibleTokensAppend | src/api/tokenManager.js:115 | the filter keeps the store's order: the eligible entries of `a + b` are those of `a`, then those of `b` |
| TokenManager.AnyEligible | src/api/tokenManager.js:122-126 | `some` is true iff some entry is eligible |
| TokenManager.FindIndex | src/api/tokenManager.js:130 | the first index carrying the id, or -1 iff none does |
| TokenManager.RemoveId | src/api/tokenManager.js:138 | the filtered list is no longer than the input |
| TokenManager.RemoveIdSpec | src/api/tokenManager.js:138 | an entry survives iff it was there and has another id |
| TokenManager.RemoveIdAppend | src/api/tokenManager.js:138 | the remove filter distributes over concatenation |
| TokenManager.Select | src/api/tokenManager.js:116-119 | null iff the eligible list is empty (cursor untouched); otherwise an eligible entry and a cursor below the list length |
| TokenManager.AcquireSpec | src/api/tokenManager.js:112-120 | getAvailableToken returns null iff no loaded entry is eligible; a returned entry is a loaded, eligible one; afterwards pointer < number eligible; env and file untouched |
| TokenManager.HasValidIffAcquire | src/api/tokenManager.js:112-126 | hasValidTokens() is true iff getAvailableToken() would return an entry for the same store and time |
| TokenManager.Picks | src/api/tokenManager.js:117-118 | k consecutive calls return k entries |
| TokenManager.PicksSplit | src/api/tokenManager.js:117-118 | a+b calls are a calls followed by b calls from the cursor they leave |
| TokenManager.PicksForward | src/api/tokenManager.js:117-118 | from cursor q, the next k calls return `valid[q..q+k]` and the cursor wraps to 0 at the end |
| TokenManager.PicksWrap | src/api/tokenManager.js:117-118 | from 0 < q < N, N-1 calls return the tail from q, then the head before q-1 |
| TokenManager.FirstPick | src/api/tokenManager.js:117-118 | the first call takes `valid[pointer % N]` and moves the cursor on by one, with wrap-around |
| TokenManager.PicksFromStart | src/api/tokenManager.js:117-118 | from cursor 0, N-1 calls return all but the last entry in order |
| TokenManager.RotationPicks | src/api/tokenManager.js:117-118 | N calls return the rotation of the eligible list that starts at `pointer % N` |
| TokenManager.RotationMultiset | src/api/tokenManager.js:117-118 | a rotation of the eligible list holds the same entries |
| TokenManager.ModStep | src/api/tokenManager.js:118 | `(pointer + 1) % N` is the next position after `pointer % N`, wrapping to 0 at the end |
| TokenManager.RotationFairness | src/api/tokenManager.js:112-120 | with a stable eligible list of size N, N consecutive calls return every entry exactly once (multiset equality) |
| TokenManager.AcquireRoundsPicks | src/api/tokenManager.js:112-120 | k successive `Store.Acquire` calls at one time return the round-robin picks over the eligible list, and change only the cursor |
| TokenManager.AcquireRounds | src/api/tokenManager.js:112-120 | k successive calls give k results |
| TokenManager.AcquireRoundsFair | src/api/tokenManager.js:112-120 | N successive `Store.Acquire` calls on a store with N eligible entries return every one of them exactly once |
| TokenManager.MarkInvalidEffect | src/api/tokenManager.js:143-147 | unknown id: store unchanged; first match is an env entry: store unchanged; a file entry: only its `invalid` set; cursor never moves |
| TokenManager.MarkRateLimitedEffect | src/api/tokenManager.js:128-135 | the same three cases, setting only `resetAt = now + hours·3600·1000`; a reset time outside the range of a `Date` throws and leaves the store unchanged |
| TokenManager.HugeCooldownChangesNothing | src/api/tokenManager.js:131 | a cooldown of 10^10 hours ends beyond the range of a `Date`, so the mark changes nothing |
| TokenManager.MarkValidEffect | src/api/tokenManager.js:149-158 | the same cases; a hit clears `invalid` and `resetAt` and replaces the secret only for a non-empty new one |
| TokenManager.RemoveEffect | src/api/tokenManager.js:137-139 | the file loses exactly the entries with that id, the rest in order; env entries are read again and survive |
| TokenManager.RemoveIdSources | src/api/tokenManager.js:138 | removing from an all-env list leaves an all-env list |
| TokenManager.RemoveIdSourcesNoEnv | src/api/tokenManager.js:138 | removing from a list without env entries leaves one without |
| TokenManager.RateLimitExpiry | src/api/tokenManager.js:128-135 | a rate-limited entry is ineligible now and eligible again once the reset time is reached (if not invalid) |
| TokenManager.EligibleCountDrops | src/api/tokenManager.js:115 | replacing one eligible entry by an ineligible one removes exactly one entry from the eligible list |
| TokenManager.MarkInvalidShrinks | src/api/tokenManager.js:143-147 | marking invalid an eligible file entry (first with its id) shrinks the eligible list by one |
| TokenManager.MarkInvalidEnvIsLost | src/api/tokenManager.js:143-147 | marking an env entry invalid leaves the store exactly as it was |
| TokenManager.TokenPool.constructor | src/api/tokenManager.js:13 | the pool starts with the environment records, the given file and pointer 0, and is clean when the file holds no env-sourced record |
| TokenManager.TokenPool.LoadTokens | src/api/tokenManager.js:93-99 | loadTokens returns env entries then file entries |
| TokenManager.TokenPool.SaveTokens | src/api/tokenManager.js:101-110 | the file becomes the non-env entries of the list; nothing else changes; a clean pool stays clean |
| TokenManager.TokenPool.GetAvailableToken | src/api/tokenManager.js:112-120 | the result and the new cursor are those of `Store.Acquire`; a clean pool stays clean |
| TokenManager.TokenPool.HasValidTokens | src/api/tokenManager.js:122-126 | the answer is `Store.HasValid` of the current state |
| TokenManager.TokenPool.MarkRateLimited | src/api/tokenManager.js:128-135 | the new state is `Store.MarkRateLimited` of the old one; a clean pool stays clean |
| TokenManager.TokenPool.RemoveToken | src/api/tokenManager.js:137-139 | the new state is `Store.Remove` of the old one; a clean pool stays clean |
| TokenManager.TokenPool.MarkInvalid | src/api/tokenManager.js:143-147 | the new state is `Store.MarkInvalid` of the old one; a clean pool stays clean |
| TokenManager.TokenPool.MarkValid | src/api/tokenManager.js:149-158 | the new state is `Store.MarkValid` of the old one; a clean pool stays clean |
| PagePool.BoundPreserved | src/api/chat.js:41-87 | every pool operation keeps at most 3 idle pages |
| PagePool.GetSpec | src/api/chat.js:45-67 | getPage pops the most recently released page when there is one; it opens a page only when the stack is empty; only a new page reads the stored credential, and only when none is held |
| PagePool.ReleaseThenGet | src/api/chat.js:45-75 | LIFO: a page released below capacity is the next one handed out, and the pool is back where it was |
| PagePool.ReleaseAtCapacity | src/api/chat.js:69-75 | a release at capacity closes the page and leaves the stack alone |
| PagePool.PagesKept | src/api/chat.js:69-86 | release and clear only move pages between the stack and the closed list; clear empties the stack |
| PagePool.PagePool.constructor | src/api/chat.js:41-43 | the pool starts empty |
| PagePool.PagePool.GetPage | src/api/chat.js:45-67 | the page, new state and credential are `PoolState.Get`'s; the bound is kept |
| PagePool.PagePool.ReleasePage | src/api/chat.js:69-75 | the new state is `PoolState.Release`'s; the bound is kept |
| PagePool.PagePool.Clear | src/api/chat.js:77-86 | every idle page is closed in order and the stack is emptied |
| PagePool.PagePool.Discard | src/api/chat.js:844-854 | a page still held when sendMessage throws is closed, not returned |
| TaskPoller.TaskStatus | src/api/chat.js:135 | `task_status \|\| status \|\| 'unknown'` is always truthy |
| TaskPoller.PollTaskStatus | src/api/chat.js:98-178 | the loop's result and query count are those of the recursive specification `Poll` |
| TaskPoller.PollFromBound | src/api/chat.js:101-170 | never more than maxAttempts queries; a timeout comes only after the last one |
| TaskPoller.PollFromTimeout | src/api/chat.js:101-177 | the result is a timeout iff no attempt saw a terminal status |
| TaskPoller.PollFromFirst | src/api/chat.js:101-157 | the first terminal attempt decides the result and is the last query made |
| TaskPoller.PollSpec | src/api/chat.js:98-178 | at most maxAttempts queries; timeout iff no reply was terminal; a timeout after exactly maxAttempts queries |
| TaskPoller.PollDecidedBy | src/api/chat.js:101-157 | if the first terminal reply is at attempt k, it is the result, after k+1 queries |
| TaskPoller.TerminalShapes | src/api/chat.js:134-157 | `completed` comes only from status completed/success with the task data; `failed` only from failed/error, with a truthy `error \|\| message \|\| 'Task failed'` |
| TaskPoller.PollFailedHasError | src/api/chat.js:149-157 | whatever polling fails with carries a truthy error |
| TaskPoller.ThreeProcessingTimesOut | src/api/chat.js:98-178 | three "processing" replies with a limit of 3 give a timeout after 3 queries |
| StreamDecoder.Finish | src/api/chat.js:575-598 | the id is the last response id, or `chatcmpl-<stamp>` when none was seen; usage is never falsy; the content is the accumulated text |
| StreamDecoder.ProcessLines | src/api/chat.js:540-572 | the `for` loop over lines equals the fold `ApplyLines` |
| StreamDecoder.DecodeStream | src/api/chat.js:524-598 | the `while` loop with its buffer equals the specification `Decode` |
| StreamDecoder.ApplyLinesAppend | src/api/chat.js:540-572 | processing a + b is processing a, then b |
| StreamDecoder.FeedBuffer | src/api/chat.js:536-538 | the carried-over buffer holds no '\n' and is the unfinished tail of buffer + chunk |
| StreamDecoder.ApplyLinesBuffer | src/api/chat.js:540-572 | the line loop leaves the buffer alone |
| StreamDecoder.FeedAsLines | src/api/chat.js:536-572 | a read processes exactly the complete lines of buffer + chunk, then keeps the rest |
| StreamDecoder.FeedAppend | src/api/chat.js:532-572 | two reads in a row have the same effect as one read of both texts |
| StreamDecoder.FeedTwice | src/api/chat.js:536-572 | two reads process the first read's lines, then the lines the second completes |
| StreamDecoder.FeedJoined | src/api/chat.js:536-572 | one read of both texts processes the same lines and keeps the same rest |
| StreamDecoder.ApplyLinesBufferIrrelevant | src/api/chat.js:540-572 | the starting buffer shows only in the buffer |
| StreamDecoder.ChunkingIndependent | src/api/chat.js:532-573 | splitting a read in two changes nothing if the first part does not finish |
| StreamDecoder.FinishedStops | src/api/chat.js:532-573 | after a finishing read nothing more is read |
| StreamDecoder.FinishedSticks | src/api/chat.js:560-562 | once set, `finished` stays set through the rest of the lines |
| StreamDecoder.FinishedSticksFeed | src/api/chat.js:532-573 | a read after finishing keeps `finished` |
| StreamDecoder.ApplyLineText | src/api/chat.js:555-559 | one line appends exactly its delta content |
| StreamDecoder.TextIsConcatenation | src/api/chat.js:540-572 | the text is the in-order concatenation of the lines' `choices[0].delta.content` |
| StreamDecoder.TextsSnoc | src/api/chat.js:540-572 | the texts of a batch of lines are those of all but the last line, then the last line's |
| StreamDecoder.ApplyLineFields | src/api/chat.js:546-568 | a line sets the id only for a truthy `response.created`, and the usage only for a truthy `usage` |
| StreamDecoder.LastCreatedWins | src/api/chat.js:550-552 | the id kept is the `response_id` of the last chunk announcing `response.created` |
| StreamDecoder.NoCreatedKeepsId | src/api/chat.js:550-552 | without such a chunk the id stays as it was |
| StreamDecoder.LastUsageWins | src/api/chat.js:566-568 | the usage kept is the last truthy `usage` record |
| StreamDecoder.UnparsedLinesIgnored | src/api/chat.js:541-571 | non-`data: ` lines and lines whose payload fails to parse (the `[DONE]` sentinel among them) change nothing |
| StreamDecoder.SkippedLine | src/api/chat.js:541-571 | an unparsable line between others leaves the rest intact |
| StreamDecoder.PayloadOf | src/api/chat.js:541-544 | `data: P`, with P non-blank at both ends, yields payload P |
| StreamDecoder.FeedOneLine | src/api/chat.js:536-572 | reading one complete line from an empty buffer is processing that line |
| StreamDecoder.LineA | src/api/chat.js:546-563 | example line A appends "Hel" |
| StreamDecoder.LineB | src/api/chat.js:546-563 | example line B appends "lo" and finishes |
| StreamDecoder.ApplyContentChunk | src/api/chat.js:555-563 | a content-only chunk appends its text and finishes iff its status says so |
| StreamDecoder.ContentChunkFields | src/api/chat.js:555-563 | a content chunk has no `response.created` and no usage, its delta carries the text, and its status is `finished` iff it finishes |
| StreamDecoder.ReadA | src/api/chat.js:536-563 | reading "data: A\n" from an empty buffer appends "Hel" |
| StreamDecoder.ReadB | src/api/chat.js:536-563 | reading "data: B\n" from an empty buffer appends "lo" and finishes |
| StreamDecoder.TwoReads | src/api/chat.js:532-573 | when the second of two reads finishes, later chunks are not read |
| StreamDecoder.HelloExample | src/api/chat.js:524-598 | "Hel" then a finishing "lo" decodes to "Hello", whatever follows |
| StreamDecoder.TrailingLineDropped | src/api/chat.js:532-573 | a last line without '\n' is never parsed |
| StreamDecoder.TwoReadsJoined | src/api/chat.js:532-573 | a finishing first read stops the stream; the same texts in one read are both processed |
| StreamDecoder.FinishedSplitDiffers | src/api/chat.js:532-573 | text after the finishing line is dropped when it arrives in a later read, but kept when it is in the same read |
| ChatRequest.CheckPartsSpec | src/api/chat.js:321-331 | `every` accepts iff every part is text/image/file with a string field of that name; the first bad part decides between throwing (null) and failing |
| ChatRequest.ValidateMessageSpec | src/api/chat.js:314-341 | null is rejected as empty; strings are accepted; arrays are accepted iff every part is well formed; every other value is unsupported |
| ChatRequest.ResolveModelSpec | src/api/chat.js:343-350 | the model is kept iff it is non-blank and listed, else it becomes `qwen-max-latest`; resolving twice changes nothing |
| ChatRequest.KeepLines | src/api/chat.js:227-229 | the filter keeps at most as many lines as it is given |
| ChatRequest.KeepLinesSpec | src/api/chat.js:226-229 | a name is kept iff some line trims to it and it is neither empty nor a `#` comment; kept names are trimmed |
| ChatRequest.KeepLinesSingle | src/api/chat.js:226-229 | one line is kept, trimmed, exactly when it is neither blank nor a comment |
| ChatRequest.KeepLinesAppend | src/api/chat.js:226-229 | the filter keeps the file's order: the lines kept from `a + b` are those of `a`, then those of `b` |
| ChatRequest.AvailableModels | src/api/chat.js:219-240 | a missing or unreadable models file gives `['qwen-max-latest']` |
| ChatRequest.AuthKeys | src/api/chat.js:242-265 | a missing or unreadable keys file gives no keys |
| ChatRequest.PayloadFlags | src/api/chat.js:407-479 | thinking on and stream off only for t2v; video extras only for t2v; tools only for a non-empty array, with choice defaulting to "auto"; size only for t2i/t2v; system message only when truthy |
| ChatRequest.ExtractTaskId | src/api/chat.js:634-655 | the task id is truthy or null |
| ChatRequest.TaskIdSpec | src/api/chat.js:637-655 | first match wins: the highest-priority truthy candidate among wanx, id, task_id, response_id, data.message_id |
| ChatRequest.TaskIdMissing | src/api/chat.js:637-657 | no task id iff no candidate is truthy |
| ChatRequest.VideoUrl | src/api/chat.js:698-717 | the video URL is truthy or null |
| ChatRequest.VideoUrlSpec | src/api/chat.js:701-717 | first match wins: content, a string result, result.url, result.video_url |
| ChatRequest.VideoUrlMissing | src/api/chat.js:701-717 | the address is null exactly when none of the four candidates is truthy |
| ChatRequest.VideoContent | src/api/chat.js:698-729 | the content is the URL iff one was found, else the JSON of `result \|\| data` |
| ChatRequest.TestTokenSpec | src/api/chat.js:966-1008 | OK iff ok or 400; UNAUTHORIZED iff 401/403; RATELIMIT iff 429; ERROR otherwise, including no browser or an exception |
| ChatRequest.ClassifySpec | src/api/chat.js:787-839 | verification first, then 401 / Unauthorized / Token has expired, then RateLimited, else the error and details verbatim (with their defaults) |
| ChatRequest.RateLimitHours | src/api/chat.js:824-834 | the cooldown, when there is one, is never 0 hours |
| ChatRequest.RateLimitHoursSpec | src/api/chat.js:824-834 | `Number(num) \|\| 24`: a positive integer count is kept, a missing or zero count gives 24; no mark at all when the body fails to parse |
| JsonValues.Get | src/api/chat.js:135 | reading a property of a non-object gives null |
| JsonValues.First | src/api/routes.js:98 | `x[0]` of a non-empty array is its first element |
| JsonValues.FirstTruthySpec | src/api/routes.js:137-142 | an `a \|\| b` chain is truthy iff some candidate is; its value is then one of them, else the last |
| JsonValues.FirstTruthyDefault | src/api/chat.js:135 | a chain ending in a truthy default is truthy |
| JsonValues.FirstTruthyIsFirst | src/api/chat.js:154 | the value is the truthy candidate with the smallest index |
| Util.LeadingBlanks | src/api/tokenManager.js:48 | the blank prefix is no longer than the string |
| Util.KeptLength | src/api/tokenManager.js:48 | the kept length is at most the string's |
| Util.LeadingBlanksSpec | src/api/tokenManager.js:48 | `trim` removes exactly the maximal blank prefix |
| Util.KeptLengthSpec | src/api/tokenManager.js:48 | `trim` removes exactly the maximal blank suffix |
| Util.Trim | src/api/tokenManager.js:48 | trimming never lengthens |
| Util.TrimShape | src/api/tokenManager.js:48 | neither end of a trimmed string is blank; it is empty iff the input was all blanks |
| Util.TrimIdempotent | src/api/tokenManager.js:48 | trimming twice is trimming once |
| Util.Split | src/api/tokenManager.js:47 | `split` yields at least one piece |
| Util.SplitPieces | src/api/chat.js:537 | no piece holds the separator |
| Util.SplitJoin | src/api/chat.js:537 | joining the pieces with the separator gives the input back |
| Util.SplitNoSeparator | src/api/tokenManager.js:47 | text without a separator is a single piece |
| Util.SplitLine | src/api/chat.js:537 | one line ended by '\n' splits into the line and "" |
| Util.SplitPrepend | src/api/chat.js:536-537 | a separator-free prefix lengthens the first piece |
| Util.SplitAppend | src/api/chat.js:536-538 | splitting t + c: the complete pieces of t, then the split of t's open tail + c |
| Util.SplitAppendAtSeparator | src/api/chat.js:536-538 | the append law for split holds for text starting with the separator when it holds for the rest |
| Util.SplitAppendSinglePiece | src/api/chat.js:536-538 | the same for text whose rest has no separator |
| Util.SplitAppendManyPieces | src/api/chat.js:536-538 | the same for text whose rest has separators |
| Util.Pending | src/api/chat.js:538 | the piece `pop()` leaves holds no separator |
| Util.CompleteNoSeparator | src/api/chat.js:537-538 | text without '\n' completes no line and stays pending |
| Util.CompleteAppend | src/api/chat.js:536-538 | text that arrives in two parts completes the same lines and leaves the same pending rest as text that arrives at once |
| Util.NatToString | src/api/tokenManager.js:53 | a non-empty string of decimal digits, one digit iff n < 10 |
| Util.NatToStringRoundTrip | src/api/tokenManager.js:53 | reading the digits back gives the number |
| Dispatcher.CreateResult | src/api/chat.js:936-952 | a chat-creation error always carries a non-empty message |
| Dispatcher.Respond | src/api/chat.js:495-611 | a refused reply never carries `html` |
| DispatcherProperties.ChatCreatedBeforeValidation | src/api/chat.js:303-341 | an invalid message without chat id is rejected only after a chat was created: the reply carries the new id, and the credential cursor has moved |
| DispatcherProperties.CreateChatSpec | src/api/chat.js:870-949 | a chat is created iff the browser is up, a credential is at hand, a page is at hand, `evaluate` does not throw and the reply carries `success`; then a credential is held |
| DispatcherProperties.CreateChatThrows | src/api/chat.js:892-961 | a fresh page that fails to open leaves the pool as it was; an `evaluate` that throws closes the page instead of releasing it; both give the thrown error |
| DispatcherProperties.AdmitThrows | src/api/chat.js:382-388 | in sendMessage a fresh page that fails to open ends the call with the error and nothing held; a reload that throws ends it with the page closed |
| DispatcherProperties.OddSystemMessageThrows | src/api/chat.js:456-459 | a truthy system message that is not a string throws a TypeError before the request, and the page is closed |
| DispatcherProperties.RetryKeepsProceeding | src/api/chat.js:815 | the retried request still has its chat id and a valid message |
| DispatcherProperties.RetryDropsOptions | src/api/chat.js:815 | the retry sends `files` as parent id; no files, tools, tool choice, system message or size; chat type t2t and streaming |
| DispatcherProperties.NoVerification | src/api/chat.js:787-799 | no chain of calls ever ends in the verification outcome |
| DispatcherProperties.AttemptNoVerification | src/api/chat.js:787-799 | no single call ends in it |
| DispatcherProperties.ExecuteNoVerification | src/api/chat.js:787-799 | nor does the part after chat creation |
| DispatcherProperties.SendNoVerification | src/api/chat.js:787-799 | nor does the request and its reply handling |
| DispatcherProperties.NothingInEmpty | src/api/chat.js:787-788 | the empty `html` of a refused reply contains no non-empty text, so `includes('Verification')` is false |
| DispatcherProperties.VideoFailureHasReason | src/api/chat.js:749-760 | a failed video reports the task's truthy error; a timeout reports the polling timeout; the fallback text is never used |
| DispatcherProperties.UnauthorizedDecision | src/api/chat.js:801-822 | after a 401 the used credential is marked invalid and authToken cleared; the call retries iff a credential is still eligible, else the pages are cleared and the process exits |
| DispatcherProperties.RateLimitAlwaysRetries | src/api/chat.js:824-837 | a rate limit always retries, marking the credential for `Number(num) \|\| 24` hours when the body parses; a cooldown that ends outside the range of a `Date` marks nothing |
| DispatcherProperties.AttemptReaches401 | src/api/chat.js:354-815 | a call whose system message can be logged (absent or a string), whose page opens and does not fail to reload, and that the service answers with 401, reaches the failure branch with the page back in the pool |
| DispatcherProperties.EnvAttemptRetries | src/api/chat.js:801-816 | with environment credentials only, a 401 call retries and leaves env and file as they were |
| DispatcherProperties.EnvPoolNeverSettles | src/api/chat.js:801-816 | with environment credentials only and 401 answers, no number of calls ever settles |
| DispatcherProperties.FileAttemptStep | src/api/chat.js:801-821 | with file credentials only, a 401 call exits or retries with one eligible credential fewer |
| DispatcherProperties.MarkUsedFileToken | src/api/chat.js:807-810 | marking the credential just handed out shrinks the eligible list by one |
| DispatcherProperties.MarkKeepsFileOnly | src/api/chat.js:807-810 | marking a file credential keeps the store file-only with distinct ids |
| DispatcherProperties.FilePoolExits | src/api/chat.js:801-821 | with file credentials only, 401 answers and a fixed clock, the chain ends in process.exit(1) within one call more than there are eligible credentials |
| ChatSession.Session.constructor | src/api/chat.js:24 | a session starts without a credential |
| ChatSession.Session.CreateChatV2 | src/api/chat.js:870-964 | result and new state are `CreateChat`'s |
| ChatSession.Session.HandleFailureStep | src/api/chat.js:778-839 | step and new state are `HandleFailure`'s |
| ChatSession.Session.TaskStep | src/api/chat.js:630-762 | step and new state are `TaskPath`'s |
| ChatSession.Session.SendStep | src/api/chat.js:401-840 | step and new state are `Send`'s |
| ChatSession.Session.AdmitStep | src/api/chat.js:313-400 | admission and new state are `Admit`'s |
| ChatSession.Session.ExecuteStep | src/api/chat.js:313-840 | step and new state are `Execute`'s |
| ChatSession.Session.AttemptStep | src/api/chat.js:297-855 | step and new state are `Attempt`'s, one call of sendMessage |
| ChatSession.Session.SendMessage | src/api/chat.js:297-855 | the loop over retries ends with the outcome and state of the recursive specification `Run` |
| Routes.AuthorizeSpec | src/api/routes.js:35-51 | with no keys everything passes; otherwise a request passes iff it has `Bearer ` and a listed key after trimming; a bad header and a bad key get distinct non-empty 401 errors |
| Routes.ListedKeyPasses | src/api/routes.js:35-51 | every key read from the keys file passes as `Bearer <blanks><key>` |
| Routes.TrimBlankPrefix | src/api/routes.js:35-51 | blanks in front of a trimmed key are removed by the header's trim |
| Routes.LeadingBlanksOver | src/api/routes.js:35-51 | trim removes exactly the blank prefix in front of a key that starts with a non-blank |
| Routes.KeptLengthOver | src/api/routes.js:35-51 | trim removes nothing at the end of a key that ends with a non-blank |
| Routes.VersionAtShift | src/api/routes.js:55 | a version segment at i of the tail is one at i + 1 of the URL |
| Routes.StripFirst | src/api/routes.js:55 | the first replace keeps a leading non-slash character, and keeps a leading slash or empty URL as such |
| Routes.StripLeavesNoVersion | src/api/routes.js:55 | no `/v1` or `/v2` segment survives the first replace |
| Routes.StripFront | src/api/routes.js:55 | a version segment at the front of the output was already at the front of the input |
| Routes.CollapseFirst | src/api/routes.js:55 | collapsing keeps emptiness and the first character |
| Routes.CollapseLeavesNoDoubleSlash | src/api/routes.js:55 | after the second replace no two slashes are adjacent |
| Routes.CollapseKeepsNoVersion | src/api/routes.js:55 | collapsing slashes cannot create a version segment |
| Routes.CollapseFront | src/api/routes.js:55 | a version segment at the front of the collapsed output was at the front of the input |
| Routes.RewriteSpec | src/api/routes.js:54-57 | the rewritten URL has no version segment and no `//` |
| Routes.RewriteOnlyDeletes | src/api/routes.js:54-57 | the rewritten URL is a subsequence of the original: the rewrite only deletes characters |
| Routes.StripIsSubsequence | src/api/routes.js:55 | the version-segment replace only deletes characters |
| Routes.CollapseIsSubsequence | src/api/routes.js:55 | the slash-collapsing replace only deletes characters |
| Routes.SubsequenceTrans | src/api/routes.js:54-57 | a subsequence of a subsequence is a subsequence, so the two replaces compose |
| Routes.SubsequenceOfSuffix | src/api/routes.js:55 | dropping a version segment at the front keeps what follows a subsequence of the whole |
| Routes.StripNothing | src/api/routes.js:55 | a URL without version segments is left alone |
| Routes.CollapseNothing | src/api/routes.js:55 | a URL without `//` is left alone |
| Routes.RewriteIdempotent | src/api/routes.js:55 | rewriting twice is rewriting once |
| Routes.RewriteExamples | src/api/routes.js:55 | `/v1/chat` reaches `/chat` |
| Routes.FirstWithRole | src/api/routes.js:62 | the index `find` stops at: none iff no message has the role, else one that has it |
| Routes.LastWithRole | src/api/routes.js:64 | the index `filter(...).pop()` takes: none iff no message has the role |
| Routes.ParseOpenAIMessages | src/api/routes.js:61-67 | reading `role` throws iff the list holds a null |
| Routes.ParseOpenAIMessagesSpec | src/api/routes.js:61-67 | the prompt is the content of the last user message and the system message the content of the first system message |
| Routes.NoUserMessage | src/api/routes.js:64-65 | without a user message the prompt is null |
| Routes.CombinedToolsSpec | src/api/routes.js:69-72 | given tools win as they are; otherwise each function becomes `{type:'function', function}` in order; neither gives null; only a non-array `functions` throws |
| Routes.ChunksSpec | src/api/routes.js:99-109 | the chunks concatenate to the content; there are ⌈n/16⌉, each 1..16 code points, all but the last exactly 16 |
| Routes.ContentFrames | src/api/routes.js:102-109 | one content frame per chunk, in order |
| Routes.WriteChunks | src/api/routes.js:100-109 | the `for` loop in steps of 16 writes exactly the content frames of the chunks |
| Routes.HandleStreamingResponse | src/api/routes.js:76-129 | the frames written are the specification `StreamFrames` |
| Routes.QuietFrames | src/api/routes.js:83-127 | frames without content carry no text |
| Routes.StreamedChunks | src/api/routes.js:102-109 | the content frames of the chunks carry the chunks' concatenation |
| Routes.StreamFramesEnds | src/api/routes.js:83-127 | the stream opens with the role frame and closes with `[DONE]`, after the stop frame or, after a throw, after the failure frame |
| Routes.StreamThrewIsQuiet | src/api/routes.js:119-127 | a thrown or null result streams no content |
| Routes.StreamErrorText | src/api/routes.js:92-97 | an error result streams exactly `Error: <error>` |
| Routes.ReplyFramesText | src/api/routes.js:98-117 | the frames of a reply carry its text whole and in order |
| Routes.StreamedTextAppend | src/api/routes.js:98-117 | the text read from frames a then b is that of a followed by that of b |
| Routes.ReplyFramesSizes | src/api/routes.js:98-109 | each content frame of a reply holds 1 to 16 code points |
| Routes.StreamReplyText | src/api/routes.js:89-117 | a non-error result streams its message content whole, in frames of at most 16 code points, or nothing without a message |
| Routes.NonStreamingSpec | src/api/routes.js:131-146 | a 500 `server_error` iff the result is null or has an error, carrying that error; otherwise id/model/choices/usage are kept when present and defaulted only when missing, never absent |
| Routes.AnswerBodyFields | src/api/chat.js:773-777 | the answer sendMessage returns has no error, the decoder's id and usage, and the response id as the next parent id |
| Routes.AnswerStreamsDecodedText | src/api/routes.js:98-109 | a streamed answer delivers exactly the decoded text |
| Routes.AnswerReplies | src/api/routes.js:131-146 | a non-streamed answer with a truthy id and usage is a 200 with that id, usage and text |
| Routes.AnswerRepliesDecoded | src/api/routes.js:131-146 | a non-streamed answer is a 200 whose id, usage and text are the decoder's, whatever the stream held |
| Routes.CheckOne | src/api/routes.js:216-229 | one probe's account entry and store change are `CheckAccount`'s |
| Routes.AccountStatuses | src/api/routes.js:212-230 | the probes over the listed tokens give the accounts and store of `CheckAccounts` |
| Routes.CheckAccountsSpec | src/api/routes.js:215-230 | one account per credential, in order, with its id; a pending reset is WAIT without a probe; otherwise OK, WAIT, INVALID or ERROR from the probe |
| Routes.HealthyPoolUntouched | src/api/routes.js:225 | healthy credentials that answer OK leave the store unchanged |
| Routes.CheckAccountMarks | src/api/routes.js:224-228 | OK calls markValid only for an invalid or waiting entry; RATELIMIT marks 24 hours from now; UNAUTHORIZED marks a valid entry invalid and leaves an invalid one alone; ERROR changes nothing |
| Routes.ChatRouteSpec | src/api/routes.js:150-175 | /chat refuses with 400 iff neither the last user message nor `message` gives a truthy prompt; the forwarded prompt prefers the user message |
| Routes.CompletionsRouteSpec | src/api/routes.js:265-291 | /chat/completions refuses with 400 iff `messages` is not a non-empty array, or its last user message has no truthy content; it forwards that content, the first system message and the merged tools |
| Routes.CompletionsWithoutUser | src/api/routes.js:275-279 | a request with no user message gets the 400 |

## Left out

- I/O: file reads and writes, logging, `fetch`, `page.evaluate`, `newPage`, `goto`, `reload` and `page.close`. What they return is an oracle (`World`, `Probe`, `parse`). Their throws that decide an outcome are modelled as fields of `World`: a fresh page that fails to open (`openThrew`), a reload that throws (`reloadThrew`), createChatV2's `evaluate` throwing (`createThrew`) and sendMessage's `evaluate` throwing (`EvalThrew`). Closing a page is a move between page lists.
- Dispatcher.CreateChat and Dispatcher.Admit: when `goto` throws after `newPage` made a tab, that tab is neither pooled nor closed, and the model leaves the pool value as it was. A throw from `page.close` in a `finally` is caught and only logged, so it is not modelled.
- Delays and timers (`delay`, `setTimeout`, `STREAMING_CHUNK_DELAY`): they change only timing.
- Concurrency: races on `authToken` and `pointer` between requests, and the parallel `Promise.all` in /status. The model is sequential, and /status probes one account after the other.
- `Date.now`, `crypto.randomUUID` and timestamps: `now` and `stamp` are parameters, and the message ids are not modelled.
- `JSON.parse`: an abstract function `string -> Option<Json>`. `JSON.stringify` of a result is a marker (`VideoText.Serialized`); its text is not modelled.
- `process.exit(1)` and the browser shutdown: the terminal outcome `ProcessExit`.
- `checkVerification` before the request: it never throws, and its prompt to the user is console I/O. Its answer matters only through the reload that follows it, and that reload can throw (`World.reloadThrew`).
- `global.simulateRateLimit` (src/api/chat.js:613-627): a test hook.
- The second token check before the request (src/api/chat.js:391-399): it cannot be reached, because the earlier check already returned when no credential was held.
- `getMappedModel` (modelMapping.js is not part of this model): a parameter of the route functions.
- Routes.MappedModel: config.js is not part of this model. Its `DEFAULT_MODEL` is taken to be `qwen-max-latest` (`ChatRequest.DefaultModel`), the fallback that sendMessage uses at src/api/chat.js:343-349.
- The `Authorization.txt` template that getAuthKeysFromFile writes when the file is missing: a file write. The key list is still empty.
- ChatSession.Session.SendMessage: the source recurses without a bound. The model bounds the chain by the list of worlds and returns `Exhausted` when the list runs out.
- TaskPoller.PollTaskStatus: the replies are a function of the attempt number. A `null` status body is treated as a thrown error.
- JsonValues.ToNumber: models `Number(...)` only for integers, booleans, `null`, decimal-digit strings and arrays of at most one element. Fractional, signed, hexadecimal and exponent forms are `NaN`. Floats are out of scope, so the cooldown is a whole number of hours. `"Infinity"` is also read as `NaN`, so a `num` of `"Infinity"` gives a 24-hour cooldown. The source instead computes an infinite reset time, its `toISOString` throws, and nothing is marked.
- Error texts that V8 produces (`TypeError: Cannot read properties of null ...`, the JSON syntax error) are fixed strings, not V8's exact wording.
- `TextDecoder`: chunks arrive already decoded as text.
- Frame envelopes (`id`, `object`, `created`, `model`): the frames keep only their delta and finish reason.
- The `/status` response body beyond `accounts` (authenticated flag and message): browser state only.
- Properties that JSON serialisation drops when a value is `undefined`, and `undefined` versus `null`: both are `JNull`.
- A `model` argument that is not a string: the model takes `model` as a string.
- Model-list caching (`availableModels`, `authKeys`): the lists are parameters, read once.
- Objects with numeric keys such as `"0"`: arrays and objects are kept apart.
- Routes and the dispatcher meet only through the answer a call returns (`Routes.AnswerBody`). No lemma runs a route through a whole chain of calls.
- TokenManager.Token: `resetAt` is epoch milliseconds, not the ISO string the source writes. The source's string is always truthy. Treating a stored `0` as unset (`Routes.HasReset`) stands only for a hand-edited numeric `0` in tokens.json.
- Routes.CheckOne: the probe marks a rate-limited account for 24 hours from `now`. With a real clock that reset time is never near the limit of a `Date`. For a `now` beyond it, the model leaves the store unchanged where the source would throw out of `/status`.
- `listTokens`, `getAllModels`, `/models`, `/chats`, the file-upload routes, `extractAuthToken` with `forceRefresh`, and `getPage`'s context check: outside the modelled core, or plumbing with no decision.
