# LearnBot coach handler: admission and request shaping

LearnBot's `api/coach.js` is a serverless HTTP handler. It takes a study prompt, checks it against a kill switch and two quotas, and forwards it to a completion API. It then returns the model's JSON answer. This project models the decision-making parts of that handler in Dafny:

- **Admission.** These are the process-wide counters the handler mutates:
  - a global daily counter `{count, resetDate}`;
  - a map from user key to request timestamps.

  The fixed sequence of early-return checks runs in this order: kill switch, missing field, day rollover, global budget, then the per-user rolling one-hour window. The pruned history is written back even when the request is refused.
- **Request shaping.** The user-key fallback, prompt truncation to 2000 characters, template lookup by mode, the per-mode output ceiling, and the mapping of the upstream HTTP status to a client status.
- **Reply cleaning.** The text segments are joined, every "```json" and "```" marker is deleted, and the result is trimmed.

Modules:
- `Shaping` (`shaping.dfy`): the pure helpers of the handler.
- `Cleaning` (`cleaning.dfy`): reply cleaning.
- `Errors` (`errors.dfy`): the fixed status and message of each failure.
- `Limits` (`limits.dfy`): admission as a pure transition on a `Counters` value, with lemmas about single steps and whole runs.
- `Coach` (`coach.dfy`): the handler as a whole. The class `RateLimiter` holds the module-level state as fields. Its methods `Admit` and `Handle` update those fields in place. Each method is proved equal to the pure specification: `Limits.Admission` for `Admit` and `Coach.Respond` for `Handle`.

The clock and the environment are parameters:
- `Clock.today` is the UTC date string and `Clock.nowMs` is `Date.now()`.
- `Config` holds the daily budget, the hourly limit and the kill switch.

The completion service is a function parameter from (prompt text, max tokens) to its reply. `JSON.parse` is a predicate parameter `parses` on the cleaned text. A body field or header that is absent is modelled as the empty string, which is falsy in JavaScript just as `undefined` is.

## Model

| member | source | states |
|---|---|---|
| `Shaping.UserKey` | api/coach.js:37 | The key is the user id when non-empty, else the forwarding header when non-empty, else "anon". It is never empty. |
| `Shaping.SafePrompt` | api/coach.js:49 | The prompt passed on is a prefix of the prompt, of length min(length, 2000). |
| `Shaping.SafePromptIdempotent` | api/coach.js:49 | Truncating twice is the same as truncating once. A prompt of at most 2000 characters is passed on unchanged. |
| `Shaping.ParseMode` | api/coach.js:51-59 | The template lookup succeeds exactly for quiz, flashcards, summary and explain. It gives back the mode of that name. |
| `Shaping.ParseModeName` | api/coach.js:51-56 | Each of the four modes is found again under its own name. |
| `Shaping.LookupAsWritten` | api/coach.js:51-59 | The lookup as written, a property read on an object literal. It is truthy exactly for the four modes and for the names every object inherits from Object.prototype. |
| `Shaping.InheritedNamePassesGuard` | api/coach.js:58-59 | The mode "toString" is not one of the four modes, yet it passes the `!systemPrompt` guard. |
| `Shaping.Instructions` | api/coach.js:52-55 | No contract: the fixed instruction text of each mode, abbreviated (see Left out), ending where the truncated prompt is spliced in. Its one property used elsewhere is stated by `Shaping.InstructionsDistinct`. |
| `Shaping.Template` | api/coach.js:52-55 | The upstream message starts with exactly the mode's instructions and ends with exactly the truncated prompt, with nothing between them. |
| `Shaping.InstructionsDistinct` | api/coach.js:52-55 | The four per-mode instruction texts differ from each other. |
| `Shaping.TemplateDeterminesMode` | api/coach.js:52-55 | Two different modes never produce the same upstream message for the same prompt: the prompt is a common suffix, so this follows from the instruction texts being distinct. |
| `Shaping.MaxTokens` | api/coach.js:61 | The ceiling is 1500 exactly for quiz and flashcards, and 800 for every other mode. |
| `Shaping.ClassifyUpstream` | api/coach.js:78-83 | A 2xx status lets the reply through. A non-ok 429 becomes "busy". Every other non-ok status becomes a generic service error. |
| `Errors.Status` | api/coach.js:16-106 | The error taxonomy's statuses: 429 exactly for the three rate-limit kinds, 400 exactly for a missing field and an invalid mode, 500 exactly for upstream, parse and internal failures, 405 exactly for a method other than POST and OPTIONS (line 16), 503 exactly for the kill switch. |
| `Errors.Message` | api/coach.js:16-106 | No contract: the ten fixed client-facing messages, one per error kind, with the source's exact wording including the em dash and emoji. |
| `Errors.MessagesDistinct` | api/coach.js:16-106 | No two error kinds share a message, so each failure is recognisable by its message alone. |
| `Cleaning.Join` | api/coach.js:86 | No contract: the concatenation of the reply's text segments in order, the `join('')`; its partner is `Cleaning.JoinAppend`. |
| `Cleaning.ReplyText` | api/coach.js:86 | No contract: the joined segments, or "" when the reply has no content list (the optional chaining with an empty-string fallback). |
| `Cleaning.JoinAppend` | api/coach.js:86 | Joining the segments of two lists gives the concatenation of the two joins. |
| `Cleaning.StripFences` | api/coach.js:87 | The global marker deletion never lengthens the text. |
| `Cleaning.StripPlain` | api/coach.js:87 | Text without a backtick is left unchanged by the deletion. |
| `Cleaning.StripPlainPrefix` | api/coach.js:87 | The deletion passes a backtick-free prefix through and goes on with the rest. |
| `Cleaning.StripWrapped` | api/coach.js:87 | A backtick-free payload wrapped as "```json" payload "```" comes out as the payload alone. |
| `Cleaning.StripLeavesNoFence` | api/coach.js:87 | After one left-to-right pass no "```" is left anywhere in the text. |
| `Cleaning.TrimStart` | api/coach.js:87 | The result is a suffix of the input. Everything removed is white space, and the result does not start with white space. |
| `Cleaning.TrimEnd` | api/coach.js:87 | The result is a prefix of the input. Everything removed is white space, and the result does not end with white space. |
| `Cleaning.Trim` | api/coach.js:87 | The trimmed text neither starts nor ends with white space. It is empty exactly when the input is all white space. |
| `Cleaning.TrimPadded` | api/coach.js:87 | Trimming white space + payload + white space gives exactly the payload. |
| `Cleaning.Clean` | api/coach.js:86-87 | The cleaned text is no longer than the joined reply text and has no white space at either end. |
| `Cleaning.CleanFencedReply` | api/coach.js:86-87 | A single segment "```json" + padding + payload + padding + "```" cleans to the payload. |
| `Cleaning.CleanExample` | api/coach.js:86-87 | The reply text "```json\n{"a":1}\n```" cleans to `{"a":1}`. |
| `Limits.HistoryOf` | api/coach.js:39 | No contract: a user's stored timestamps, or the empty history for a key never seen. |
| `Limits.Recent` | api/coach.js:40 | Pruning never lengthens a history. It keeps only timestamps later than now minus one hour, each taken from the history. |
| `Limits.RecentAppend` | api/coach.js:40 | Pruning distributes over concatenation, so kept timestamps stay in their original order. |
| `Limits.RecentAllFresh` | api/coach.js:40 | A history lying wholly inside the window is kept whole. |
| `Limits.RecentKeepsFresh` | api/coach.js:40 | Every timestamp inside the window survives pruning. |
| `Limits.RecentLater` | api/coach.js:40 | Pruning at one time and then at a later time is the same as pruning at the later time. |
| `Limits.ExpiredOldestShrinks` | api/coach.js:40 | When the oldest entry is an hour old or more, pruning frees at least one slot. |
| `Limits.Rollover` | api/coach.js:27-31 | On a new date the count is zeroed and the date stored. On the same date nothing changes. Histories are never touched. |
| `Limits.Pruned` | api/coach.js:39-41 | After the user check the key is present and holds its old history pruned to the window. Every other key is unchanged. |
| `Limits.Admission` | api/coach.js:19-46 | The verdict in both directions: Paused exactly under the kill switch; FieldMissing exactly for an empty prompt or mode; GlobalQuota exactly when the rolled-over count reaches the budget; UserQuota exactly when, under the budget, the pruned history is at the hourly limit; Admitted exactly when under both. Kill switch and missing field leave the state untouched, global quota only rolls over, user quota writes back the pruned history, acceptance appends `now` to it, adds 1 to the count and leaves other keys unchanged (details below). |
| `Limits.FullWindowRefused` | api/coach.js:39-44 | A user whose whole history is inside the window and at the hourly limit is refused 429. The stored history stays as it was. |
| `Limits.ExpiredOldestAdmitted` | api/coach.js:39-46 | Once the oldest of at most `limit` stored requests is an hour old, the user is admitted again, provided the day's budget allows. |
| `Limits.NewDayLiftsGlobalQuota` | api/coach.js:27-34 | On a new date with a positive budget the global quota does not refuse, and the count afterwards is at most 1. |
| `Limits.AdmissionKeepsLimits` | api/coach.js:26-46 | One admission keeps both invariants: count ≤ budget, and every history ≤ the hourly limit. |
| `Limits.RunKeepsLimits` | api/coach.js:26-46 | Any sequence of requests keeps both invariants. |
| `Limits.FreshProcessWithinLimits` | api/coach.js:1-3 | From the initial empty state every run of requests stays within both limits. |
| `Limits.SameDayCountNeverDecreases` | api/coach.js:27-46 | While requests carry the stored date, the count never goes down and the date never changes. |
| `Coach.Rejection` | api/coach.js:19-44 | The kill switch is reported as ServicePaused (503), a missing field as MissingField (400), the global quota as GlobalQuotaExceeded (429) and the user quota as UserQuotaExceeded (429), each with its own message. |
| `Coach.Finish` | api/coach.js:78-106 | A throw answers 500, upstream 429 answers 429 and any other non-2xx answers 500. The answer is 200 exactly when the reply is 2xx and its cleaned text parses, and the body is that text (details below). |
| `Coach.Generate` | api/coach.js:49-76 | With the corrected lookup (see "## Findings"), a mode other than the four answers 400 "Invalid mode". Otherwise the completion service is called once, with the template over the truncated prompt and the mode's ceiling. |
| `Coach.Respond` | api/coach.js:10-107 | OPTIONS answers 200 and other non-POST methods answer 405, both without state change. A POST leaves the state as admission does and is answered per verdict: 503 paused, 400 missing field, 429 global quota, 429 user quota; admitted with an unknown mode 400 "Invalid mode"; admitted with a known mode, exactly the answer `Finish` gives to the one upstream reply for the templated, truncated prompt and the mode's ceiling. It is 200 exactly when admitted, the mode is known, that reply is 2xx and its cleaned text parses (details below). |
| `Coach.UnknownModeNeverCallsUpstream` | api/coach.js:51-59 | For the corrected handler (see "## Findings"), an unknown mode's answer does not depend on the completion service, and a POST is answered 400, 429 or 503. |
| `Coach.InvalidModeStillCharged` | api/coach.js:45-59 | An admitted request with an unknown mode is answered 400, but it has already been counted and recorded in the user's history. |
| `Coach.FencedReplyAnswered` | api/coach.js:85-103 | A 200 reply "```json\n{"a":1}\n```" is answered 200 with `{"a":1}`. |
| `Coach.RateLimiter.constructor` | api/coach.js:2-3 | The process starts with count 0, an empty reset date and no histories. |
| `Coach.RateLimiter.Admit` | api/coach.js:19-46 | It updates the counters in place. Its verdict and new state are exactly `Limits.Admission` of the old state. It keeps both limit invariants. |
| `Coach.RateLimiter.Handle` | api/coach.js:10-107 | Its answer and new state are exactly `Coach.Respond` of the old state. |

### Admission outcomes (`Limits.Admission`)

- The kill switch answers `Paused` and leaves the state untouched.
- A missing field answers `FieldMissing` and leaves the state untouched.
- Otherwise the stored date becomes today, and on the same date the count does not decrease.
- `GlobalQuota` happens exactly when the rolled-over count is at or over the budget. Its new state is just the rollover.
- `UserQuota` writes back the pruned history for the key. It happens only when the pruned history is at the limit.
- Acceptance (`Admitted`):
  - appends `now` to the pruned history;
  - adds exactly 1 to the count;
  - keeps the count within the budget;
  - leaves every other key unchanged.

### Reply handling (`Coach.Finish`)

- A thrown fetch answers 500 "Internal server error".
- Upstream 429 answers 429 "busy".
- Any other non-2xx status answers 500 "AI service error".
- The answer is 200 exactly when the reply is 2xx and its cleaned text parses. The body is then that cleaned text.
- Otherwise the answer is 500 "Failed to parse AI response".

### Whole handler (`Coach.Respond`)

- OPTIONS answers 200, and any other method but POST answers 405. Neither changes the state.
- A POST leaves the state as `Admission` leaves it.
- A refused POST is answered with the error of its verdict: 503, 400 "Missing prompt or mode", or one of the two distinct 429 messages.
- An admitted POST with an unknown mode is answered 400 "Invalid mode"; with a known mode it is answered exactly as `Finish` answers the single upstream reply.
- When the kill switch is set, a POST answers 503 with nothing changed.
- A 200 means all of these hold:
  - the request was admitted;
  - the mode is one of the four;
  - the reply to the templated prompt was 2xx;
  - the cleaned text parsed and is the body.

## Left out

- The network request to the completion API is not modelled: its URL, headers, model identifier and JSON body construction (api/coach.js:64-76). Its reply is an input to the handler. The handler passes it exactly the template text and the token ceiling.
- JSON.parse (api/coach.js:97) is the predicate parameter `parses`. The parsed value is represented by the cleaned text that parsed.
- Cost logging and every console.log / console.error line (api/coach.js:80, 89-93, 99, 105) are left out. They only produce log output, using floating-point arithmetic.
- The CORS `setHeader` calls (api/coach.js:11-13) are left out because they do not affect any decision.
- Environment parsing (api/coach.js:6-8) is left out. The budget, hourly limit and kill switch are `Config` values. `parseInt(...) || default` is not modelled, so in the source a configured value of 0 falls back to the default.
- `new Date().toISOString()` and `Date.now()` (api/coach.js:27, 38) are the `Clock` parameter.
- The template wording (api/coach.js:52-55) is abbreviated to short per-mode instruction texts. The model keeps the structure: fixed instructions per mode, followed by the truncated prompt.
- Shaping.SafePrompt and Cleaning.Trim work on Unicode scalar values. JavaScript's `substring` and `trim` work on UTF-16 code units, so the two can differ on characters outside the Basic Multilingual Plane.
- Non-string `prompt`, `mode`, `userId` or header values are left out. For example, a numeric prompt makes `substring` throw outside the `try`.
- Coach.RateLimiter.Admit updates the map entry with a new sequence value. The source pushes onto the array it has just stored, an aliasing update with the same observable contents.
- Per-instance volatility of the counters and cross-instance behaviour are not modelled; they sit outside a single process. Interleaving of concurrent requests at the `await` is also left out. This is harmless: all counter updates happen before the first `await`, so each admission is atomic.
- Coach.Generate (and with it Coach.Respond, Coach.RateLimiter.Handle and Coach.UnknownModeNeverCallsUpstream) uses the corrected four-mode lookup `Shaping.ParseMode`, not the lookup as written. For a mode that names an inherited Object.prototype member (for example "toString") the source does not answer 400 but goes on to the completion call, where `JSON.stringify` drops the function-valued message content; the model answers 400 "Invalid mode". The as-written lookup is `Shaping.LookupAsWritten`, and the discrepancy is recorded under "## Findings".
- A POST without a JSON body makes the destructuring of `req.body` on api/coach.js:23 throw outside the `try`, so the platform answers it. The model has no absent body: absent fields are "", and such a request is answered 400 "Missing prompt or mode".
- Shaping.Instructions abbreviates the template wording; the only property of the wording the proofs use is that the four texts are distinct (`Shaping.InstructionsDistinct`), which the source's texts also are.
- Coach.FencedReplyAnswered takes `parses` as an assumption about the JSON parser, since the parser is not modelled.

## Findings

| source | as written | input that shows it | evidently intended | confidence | as-written member | corrected member |
|---|---|---|---|---|---|---|
| api/coach.js:58-59 | `prompts[mode]` reads a property of a plain object literal and checks only truthiness. Names inherited from Object.prototype (`toString`, `constructor`, `valueOf`, `__proto__`, ...) yield a function or object, which is truthy. | mode = "toString": the guard does not fire. The request goes on to the completion call, where `JSON.stringify` drops the function-valued message content (for "__proto__" the content is `{}`), instead of being answered 400 "Invalid mode". | Only quiz, flashcards, summary and explain are accepted. Any other mode is answered 400 before any upstream call. | high (not executed) | `Shaping.InheritedNamePassesGuard` | `Shaping.ParseMode` |
