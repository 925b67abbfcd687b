# creative-disciple core, modelled in Dafny

creative-disciple is a Book of Mormon study companion (a Next.js application).
This project models its core:

- the client-side **rate limiter** for AI requests (`src/lib/rateLimit.ts`);
- the **progress stores** kept in the browser's local storage: completed chapters
  per book (`src/lib/chapters.ts`), the daily reading streak (`src/lib/streaks.ts`)
  and the achievement badges (`src/lib/badges.ts`), over the load/save wrapper of
  `src/lib/storage.ts`;
- the two **AI wrappers**, Gemini (`src/lib/gemini.ts`) and OpenAI (`src/lib/openai.ts`);
- the four **API routes** under `src/app/api/gemini/`: `chat`, `insights`, `prompts`
  and `reading-plan`, including the reading plan the last one builds locally when the
  model's reply holds no JSON object.

Everything is a pure function over immutable data:

- Local storage is a `Slot` per key. A slot is `Unavailable` on the server, where loading
  gives the default and saving does nothing.
- The clock is a parameter: `now` in epoch milliseconds, or `today` as a day number.
- Each SDK is a function parameter: `generate`, `send` and `complete`.
- `JSON.parse` is a function parameter `parse`.
- The lazily created SDK client is a `ClientCache` that every wrapper call takes and returns.
- A route returns its `Response` together with the client cache it leaves behind.

The only loops in the source are the OpenAI message conversion and the local reading plan.
Both are Dafny methods that follow the source's loops, and each is proved equal to a
functional reference definition (`OpenAI.Kept`, `FallbackPlan.FallbackReadings`).

Modules, one per file:

- `Common`: options, results, storage slots and the client cache.
- `Text`: `includes` and integer rendering.
- `Json`: truthiness, template rendering and the `/\{[\s\S]*\}/` match.
- `RateLimit`, `Chapters`, `Streaks` and `Badges`.
- `Gemini` and `OpenAI`.
- `RouteCommon`: the key guard, the error classifier and reply parsing.
- `Chat`, `Insights`, `Prompts` and `ReadingPlan`: the four routes.
- `FallbackPlan`: the locally built reading plan.

The header comment of the OpenAI wrapper (src/lib/openai.ts:1) calls it a "fallback when Gemini
hits rate limits", but no code makes that fallback. The model follows what the code does:

- There is no retry, backoff or fallback between providers. Every route makes exactly one
  Gemini call, and nothing calls the OpenAI wrapper. `OpenAI` is still modelled in full.
- The chat, insights and prompts routes admit a request when either key is set, but they only
  ever use the Gemini key. With only the OpenAI key set, such a request answers 500, not 503.
- The Gemini wrapper replaces every failure with one fixed message, the missing-key error
  included. None of those messages contains the words the routes' catch blocks look for. As a
  result, a backend failure always answers 500, and the 503 "configuration error" and 429
  "temporarily unavailable" branches are reachable only through a malformed request body or a
  `JSON.parse` error message (the `LimitOrConfigErrorNeedsBadBody` and
  `LimitOrConfigErrorNeedsBadInput` lemmas of the routes).
- The reading-plan route has no key guard. Its catch block answers 500 for every error, and it
  never reads the OpenAI key.
- The rate limiter is never consulted by the routes. It is a client-side utility.
- The "completeBook" badge is never unlocked by anything.

## Model

| member | source | states |
|---|---|---|
| Common.LoadAfterSave | src/lib/storage.ts:3-23 | In a browser, the next load returns what was saved. On the server, saving stores nothing and every load gives the default. |
| Common.GetClient | src/lib/gemini.ts:7-16 | An existing client is reused unchanged. Otherwise creation fails exactly when the key is unset; a failure returns the missing-key message and caches nothing, and a success caches the client it returns. |
| Common.ClientCreatedAtMostOnce | src/lib/openai.ts:7-17 | Once a client exists, later calls return that same client whatever key is configured by then. |
| Text.NatToStringRoundTrip | src/lib/rateLimit.ts:62 | Reading a number's decimal rendering back as digits gives the number again, so rendering loses nothing. |
| Text.IntToStringInjective | src/app/api/gemini/reading-plan/route.ts:22 | Two different integers never render as the same text. |
| Text.SignShown | src/app/api/gemini/reading-plan/route.ts:78 | A rendered integer starts with a minus sign exactly when it is negative. |
| Text.AbsentCharNotContained | src/app/api/gemini/chat/route.ts:61 | A string that lacks one character of a word cannot contain that word. |
| Json.FirstIndexOf | src/app/api/gemini/insights/route.ts:42 | The index found holds the character and no earlier index does; when nothing is found, the character does not occur. |
| Json.LastIndexOf | src/app/api/gemini/insights/route.ts:42 | The index found holds the character and no later index does; when nothing is found, the character does not occur. |
| Json.BraceSpan | src/app/api/gemini/insights/route.ts:42 | The greedy match exists exactly when some `{` precedes some `}`. It then runs from the first `{` to the last `}`. |
| Json.LeftmostLongestUnique | src/app/api/gemini/prompts/route.ts:41 | A text has at most one leftmost-longest brace span. |
| Json.BraceSpanOfObjectText | src/app/api/gemini/reading-plan/route.ts:47 | An object surrounded by text without braces is matched whole. |
| RateLimit.GetRateLimitState | src/lib/rateLimit.ts:16-44 | The stored state is used while its window is open. Otherwise a fresh window is opened at `now`: on the server, when nothing is stored, or when the window has expired. The effective window never closes before `now`. |
| RateLimit.WaitSeconds | src/lib/rateLimit.ts:73 | A positive wait is rounded up to whole seconds, and the result is at least one second. |
| RateLimit.CanMakeRequest | src/lib/rateLimit.ts:52-78 | A request is admitted exactly when the count is under 18 and at least six seconds have passed since the last request. The cap is checked first and its wait runs to the window's reset; a spacing refusal waits out the rest of the six seconds. Waits are never negative. |
| RateLimit.RecordRequest | src/lib/rateLimit.ts:80-85 | In a browser, the stored state becomes the effective window with one more request, stamped `now`. On the server nothing is stored. |
| RateLimit.GetRemainingRequests | src/lib/rateLimit.ts:87-90 | The remaining count is never negative and never above the daily limit. |
| RateLimit.GetTimeUntilReset | src/lib/rateLimit.ts:92-95 | The time left until the effective window resets, never negative. |
| RateLimit.RolloverIsObservational | src/lib/rateLimit.ts:29-36 | The check discards the rolled-over window instead of saving it. Checking or recording against the rolled-over state gives the same result as against the stored one, so discarding it is harmless. |
| RateLimit.ExpiredWindowActsFresh | src/lib/rateLimit.ts:29-35 | An expired window is treated like an empty store, and recording in it restarts the count at one. |
| RateLimit.FreshStateAllowed | src/lib/rateLimit.ts:39-43 | A fresh window admits the request. |
| RateLimit.ServerNeverStores | src/lib/rateLimit.ts:17-23 | On the server the state is always fresh and nothing is ever saved. The display then shows 18 remaining requests and a full day until reset. |
| RateLimit.RecordThenCheck | src/lib/rateLimit.ts:67-75 | A check made less than six seconds after a recorded request is refused for the rest of the six seconds. From six seconds on it is admitted, while under the cap. |
| RateLimit.RecordAllWithinWindow | src/lib/rateLimit.ts:80-85 | Within an open window, each recorded request adds one to the count, and the last request's time is the one kept. |
| RateLimit.DailyCapAfterEighteen | src/lib/rateLimit.ts:57-64 | Once eighteen requests are recorded within a day of the first, every check is refused for the daily cap until the first request's window closes. |
| RateLimit.RecordLowersRemaining | src/lib/rateLimit.ts:80-90 | Recording a request lowers the remaining count by exactly one while under the cap, and leaves zero at the cap. On the server the count stays at the full limit. |
| RateLimit.RemainingZeroIffCapped | src/lib/rateLimit.ts:87-90 | The displayed remaining count is zero exactly when the check refuses for the daily cap. |
| RateLimit.DailyLimitReasonCitesLimit | src/lib/rateLimit.ts:62 | The daily-cap refusal text names the cap, 18. |
| Chapters.GetTotalChapters | src/lib/chapters.ts:6-26 | The fifteen books hold 239 chapters in all. |
| Chapters.TotalIs239 | src/lib/chapters.ts:24-26 | The chapter counts of the book table add up to 239. |
| Chapters.BooksNonEmpty | src/lib/chapters.ts:6-22 | The table has fifteen books, each with at least one chapter. |
| Chapters.Insert | src/lib/chapters.ts:42-43 | Inserting into a sorted list keeps it sorted, and keeps it free of duplicates when the new value is new. The result holds the old elements plus the new one, as a multiset. |
| Chapters.SortAscending | src/lib/chapters.ts:43 | The result is an ascending permutation of its input. |
| Chapters.RemoveAll | src/lib/chapters.ts:40 | The result holds exactly the elements other than the value. Removing from a sorted, duplicate-free list keeps it so, and takes out one element when the value was present. |
| Chapters.UntouchedBookNotCompleted | src/lib/chapters.ts:49-55 | No chapter of a book without an entry is completed. |
| Chapters.ToggleList | src/lib/chapters.ts:39-44 | The chapter's membership flips and every other chapter's is unchanged. A sorted, duplicate-free list stays so. |
| Chapters.ToggleIn | src/lib/chapters.ts:35-44 | The book gains an entry. Exactly one completion flag flips, that chapter's. Other books' lists are untouched, and the store invariant (each list sorted and duplicate-free) is kept. |
| Chapters.ToggleChapter | src/lib/chapters.ts:32-47 | In a browser, the saved record is the loaded one with the chapter toggled. On the server nothing changes. |
| Chapters.SortAscendingSorted | src/lib/chapters.ts:43 | Sorting a list that is already ascending leaves it unchanged. |
| Chapters.SortAppend | src/lib/chapters.ts:42-43 | Pushing onto a sorted list and then sorting is the same as inserting in order. |
| Chapters.RemoveInserted | src/lib/chapters.ts:39-43 | Removing a chapter just inserted gives back the list as it was. |
| Chapters.InsertRemoved | src/lib/chapters.ts:39-43 | Inserting back a chapter just removed from a sorted, duplicate-free list gives back that list. |
| Chapters.ToggleListTwice | src/lib/chapters.ts:39-44 | Toggling the same chapter twice restores a book's sorted, duplicate-free list. |
| Chapters.ToggleTwiceRestores | src/lib/chapters.ts:32-47 | On a well-formed record, toggling the same chapter twice restores every completion flag. It restores the record itself when the book already had an entry. |
| Chapters.CountWithout | src/lib/chapters.ts:28-30 | The completed count can be split at any book, into that book's list length plus the count of the rest. |
| Chapters.CountUpdate | src/lib/chapters.ts:28-30 | Replacing one book's list changes the completed count by the difference in length. |
| Chapters.ToggleChangesCountByOne | src/lib/chapters.ts:28-47 | A toggle raises the completed count by one when the chapter was unread, and lowers it by one when it was read. |
| Chapters.ProgressOf | src/lib/chapters.ts:60 | The percentage is the whole number nearest to 100 times the count over 239. |
| Chapters.ProgressBounds | src/lib/chapters.ts:57-61 | With no more completed chapters than the table holds, the percentage is between 0 and 100: 0 for none and 100 for all. |
| Chapters.ProgressMonotone | src/lib/chapters.ts:57-61 | More completed chapters never show a lower percentage. |
| Chapters.GetProgress | src/lib/chapters.ts:57-61 | With no more completed chapters than the table holds, progress is a percentage from 0 to 100. |
| Streaks.UpdateStreak | src/lib/streaks.ts:6-35 | Already recorded today: the same streak, and nothing is written. Last reading day yesterday: the streak grows by one. Otherwise a new streak of one starts. Whenever the date changes, the new streak is saved under today's date. |
| Streaks.GetCurrentStreak | src/lib/streaks.ts:37-55 | The stored streak counts while the last reading day is today or yesterday; otherwise the streak is 0. |
| Streaks.UpdateStreakWritesToday | src/lib/streaks.ts:24-35 | After an update the returned streak is at least one, and in a browser the stored record is dated today with that streak. Validity of the stored record is kept. |
| Streaks.UpdateStreakIdempotent | src/lib/streaks.ts:15-17 | A second update on the same day returns the same streak and writes nothing. |
| Streaks.ConsecutiveDaysExtend | src/lib/streaks.ts:24-29 | Reading on `n` consecutive days after a streak of `s` ending the day before yields a streak of `s + n`. |
| Streaks.ConsecutiveDaysFromEmpty | src/lib/streaks.ts:6-35 | Starting from an empty store, `n` consecutive reading days yield a streak of `n`. |
| Streaks.MissedDayResets | src/lib/streaks.ts:27-29 | After a missed day, the next update restarts at one and the displayed streak is 0. |
| Streaks.CurrentStreakAfterUpdate | src/lib/streaks.ts:49-54 | The displayed streak equals the update's result on that day and the next, and is 0 from the second day after. |
| Badges.Unlock | src/lib/badges.ts:16-19 | Each threshold badge is held exactly when it was already held or its threshold is met: a 7-day streak, or 30, 50 or 100 chapters. The book badge is left alone. No badge is ever withdrawn. |
| Badges.GetBadges | src/lib/badges.ts:25-33 | The stored badges, or none when nothing is stored or on the server. |
| Badges.UpdateBadges | src/lib/badges.ts:6-23 | Each threshold badge is held exactly when it was stored or its threshold is met: a streak of 7, or 30, 50 or 100 chapters. The result holds every stored badge and leaves the book badge as stored. In a browser it is what is saved; on the server it is unlocked from no badges. |
| Badges.UnlockKeepsNested | src/lib/badges.ts:16-19 | The chapter badges stay nested: a hundred implies fifty, and fifty implies thirty. |
| Badges.UnlockMerges | src/lib/badges.ts:16-19 | Two unlocks in a row equal one unlock using the larger of each achievement. |
| Badges.UpdateBadgesIdempotent | src/lib/badges.ts:6-23 | Repeating an update with the same achievements changes nothing. |
| Badges.UpdateAllNeverCompletesBook | src/lib/badges.ts:16-21 | From no badges, any run of updates keeps the chapter badges nested and never awards the book badge. |
| Badges.UpdateAllMonotone | src/lib/badges.ts:6-23 | Across any run of updates, badges only accumulate, in the browser and, trivially, on the server. |
| Gemini.GenerateContent | src/lib/gemini.ts:22-32 | The reply is returned exactly when a client exists and the backend answers. Every other outcome, the missing key included, fails with the one fixed content-failure message. |
| Gemini.GeminiRole | src/lib/gemini.ts:43 | A message is a user turn exactly when its role is "user"; any other role is a model turn. |
| Gemini.History | src/lib/gemini.ts:42-45 | The history is every message but the last, in order, with the same text. An entry is a user entry exactly when its message's role is "user". |
| Gemini.TurnOf | src/lib/gemini.ts:42-55 | A non-empty conversation sends its last message's text after a history of all the others. |
| Gemini.GenerateChat | src/lib/gemini.ts:34-61 | The reply to the last message is returned exactly when a client exists, the conversation is non-empty and the backend answers. Every other outcome fails with the fixed chat-failure message. |
| Gemini.SystemPromptIgnored | src/lib/gemini.ts:34-52 | The system prompt has no effect on a chat turn. |
| Gemini.TurnCarriesConversation | src/lib/gemini.ts:42-55 | Together, the history and the sent message carry every message's text in order. |
| Gemini.MissingKeyNeverCallsBackend | src/lib/gemini.ts:7-32 | Without a key, neither call's result depends on the backend, and no client is created. |
| OpenAI.Respond | src/lib/openai.ts:38-46 | A completion yields its first choice's content when that is non-empty. An empty or missing reply fails with "Empty response from OpenAI". An SDK error is rethrown unchanged. |
| OpenAI.ContentRequest | src/lib/openai.ts:24-33 | A one-shot request is two messages: the fixed system instruction, then the prompt as the user's message. |
| OpenAI.GenerateContentWithOpenAI | src/lib/openai.ts:19-47 | Without a client the missing-key error is returned unchanged; otherwise the result is the completion's outcome. |
| OpenAI.ConvertRole | src/lib/openai.ts:69-79 | "user" becomes the user role, "assistant" and "model" become the assistant role, and every other role is dropped. |
| OpenAI.SystemPrefix | src/lib/openai.ts:60-65 | The system message is present exactly when the system prompt is non-empty, and it carries that prompt. |
| OpenAI.KeptAppend | src/lib/openai.ts:68-80 | Converting a conversation piecewise gives the same messages as converting it whole. |
| OpenAI.ConvertMessages | src/lib/openai.ts:57-80 | The conversion loop produces the optional system message followed by each convertible message in order. |
| OpenAI.KeptComesFromConversation | src/lib/openai.ts:68-80 | Every converted message comes from some message of the conversation with the same text. None is a system message, so a "system" message in the conversation is dropped. |
| OpenAI.KeptInPlace | src/lib/openai.ts:68-80 | Among mixed roles, a message whose role converts is kept between what is kept before and after it; any other message is dropped and the rest is unchanged. |
| OpenAI.KeptAllKnown | src/lib/openai.ts:68-80 | When every role converts, nothing is dropped and each message keeps its place and text. |
| OpenAI.ChatRequestShape | src/lib/openai.ts:57-80 | The chat request starts with a system message exactly when the system prompt is non-empty. |
| OpenAI.GenerateChatWithOpenAI | src/lib/openai.ts:49-98 | Without a client the missing-key error is returned unchanged; otherwise the result is the completion's outcome for the converted conversation. |
| RouteCommon.NotConfiguredResponse | src/app/api/gemini/chat/route.ts:18-24 | A request that arrives while no key is set answers 503 with an error body. |
| RouteCommon.Classify | src/app/api/gemini/chat/route.ts:58-74 | A message naming the Gemini key or an API key is a configuration error. Failing that, one mentioning a quota, a rate limit or 429 is a rate limit. Anything else is internal. |
| RouteCommon.ErrorResponse | src/app/api/gemini/insights/route.ts:55-78 | Configuration errors answer 503, rate limits 429 and everything else 500, each with its fixed text; the 500 carries the route's own failure text. |
| RouteCommon.WrapperFailuresAreInternal | src/lib/gemini.ts:28-31 | Both of the Gemini wrapper's failure messages classify as internal, so they can reach neither the 503 branch nor the 429 branch. |
| RouteCommon.NoKeyOrLimitWords | src/app/api/gemini/prompts/route.ts:52-75 | A message without the letters G, P, q, m and 4 is classified as internal. |
| RouteCommon.MissingKeyWouldBeConfiguration | src/lib/gemini.ts:11 | Were the Gemini missing-key error to reach a catch block unwrapped, it would classify as a configuration error. |
| RouteCommon.ParseReply | src/app/api/gemini/insights/route.ts:42-46 | A reply yields no object exactly when it has no brace span. Otherwise the parser's value or error comes from the leftmost-longest span. |
| RouteCommon.ParseReplyOfObject | src/app/api/gemini/prompts/route.ts:41-45 | A reply made of one object between brace-free text hands exactly that object to the parser. |
| Chat.ContextTurns | src/app/api/gemini/chat/route.ts:37-49 | The context adds a user turn followed by an assistant turn. |
| Chat.ChatPost | src/app/api/gemini/chat/route.ts:15-81 | With no key set: 503, and the client cache is left as it was. A malformed body is classified by its error message. A missing, non-array or empty message list: 400 with "Messages array is required". Otherwise the conversation is sent. The answer is 200 exactly when the chat call succeeds, and it then carries the reply. A failed call is classified by its message. The cache is the one the call leaves. Any status is 200, 400, 429, 500 or 503, and a 503 carries one of the two configuration texts. |
| Chat.LimitOrConfigErrorNeedsBadBody | src/app/api/gemini/chat/route.ts:54-74 | A 429, or a 503 while a key is set, can only come from a malformed request body. |
| Chat.ConversationShape | src/app/api/gemini/chat/route.ts:36-51 | A context adds exactly two turns in front and changes nothing else. The message sent is still the user's last one, and the scripted turns reach Gemini as a user turn then a model turn. |
| Chat.BackendFailureIs500 | src/app/api/gemini/chat/route.ts:51-79 | A failed chat call always answers 500 with the route's failure text. |
| Chat.OnlyOpenAIKeyIs500 | src/app/api/gemini/chat/route.ts:18-79 | With only the OpenAI key set, the guard admits the request and the answer is a 500. |
| Chat.ContextNamesChapter | src/app/api/gemini/chat/route.ts:41 | The scripted opening names the book and chapter under study. |
| Insights.Fallback | src/app/api/gemini/insights/route.ts:49-54 | The fallback body is an insight whose text is the raw reply, with the fixed themes. |
| Insights.InsightsPost | src/app/api/gemini/insights/route.ts:4-79 | With no key set: 503, and the client cache is left as it was. A malformed body is classified by its error message. A falsy book, chapter or entry: 400 with "Missing required fields". Otherwise the instruction is sent, and the answer is 200 exactly when generation succeeds and the reply's brace span, if any, parses. A parsed object is returned as is. A reply without a brace span becomes the fallback insight around the reply. A failed generation or a parse error is classified by its message. The cache is the one the call leaves. Any status is 200, 400, 429, 500 or 503. |
| Insights.LimitOrConfigErrorNeedsBadInput | src/app/api/gemini/insights/route.ts:39-72 | A 429, or a 503 while a key is set, can only come from a malformed request body or a brace span that does not parse. |
| Insights.BackendFailureIs500 | src/app/api/gemini/insights/route.ts:39-78 | A failed generation always answers 500 with the route's failure text. |
| Insights.OnlyOpenAIKeyIs500 | src/app/api/gemini/insights/route.ts:7-78 | With only the OpenAI key set, the guard admits the request and the answer is a 500. |
| Insights.PlainReplyBecomesInsight | src/app/api/gemini/insights/route.ts:42-54 | A reply without any brace comes back as the insight text of a 200. |
| Insights.PromptCarriesFields | src/app/api/gemini/insights/route.ts:24-37 | The instruction contains the entry, the book and the chapter as rendered. |
| Prompts.PromptsPost | src/app/api/gemini/prompts/route.ts:4-76 | With no key set: 503, and the client cache is left as it was. A malformed body is classified by its error message. A falsy book or chapter: 400 with "Missing required fields". Otherwise the instruction is sent, and the answer is 200 exactly when generation succeeds and the reply's brace span, if any, parses. A parsed object is returned as is. A reply without a brace span gets the fixed prompt naming the chapter, with the three fixed focus areas. A failed generation or a parse error is classified by its message. The cache is the one the call leaves. Any status is 200, 400, 429, 500 or 503. |
| Prompts.LimitOrConfigErrorNeedsBadInput | src/app/api/gemini/prompts/route.ts:38-72 | A 429, or a 503 while a key is set, can only come from a malformed request body or a brace span that does not parse. |
| Prompts.BackendFailureIs500 | src/app/api/gemini/prompts/route.ts:38-75 | A failed generation always answers 500 with the route's failure text. |
| Prompts.OnlyOpenAIKeyIs500 | src/app/api/gemini/prompts/route.ts:7-75 | With only the OpenAI key set, the guard admits the request and the answer is a 500. |
| Prompts.FallbackNamesChapter | src/app/api/gemini/prompts/route.ts:48-51 | The fallback prompt names the book and the chapter it was asked about. |
| Prompts.PromptCarriesChapter | src/app/api/gemini/prompts/route.ts:24 | The instruction names the book and chapter it asks about. |
| ReadingPlan.CeilDiv | src/app/api/gemini/reading-plan/route.ts:42 | The quotient rounded up, for a divisor of either sign. |
| ReadingPlan.ReadingPlanPost | src/app/api/gemini/reading-plan/route.ts:5-88 | A malformed body answers 500, with the cache left as it was. A missing goal, daily amount or days-per-week answers 400. Otherwise the instruction is sent, and the answer is 200 exactly when generation succeeds and the reply's brace span, if any, parses. A parsed object is returned as is. A reply without a brace span gets the summary with the locally built plan. Every error answers 500 with one fixed text. The cache is the one the call leaves. No other status occurs. |
| ReadingPlan.NoKeyIs500 | src/app/api/gemini/reading-plan/route.ts:44-87 | With no key set at all, the route still calls the model and answers 500, not 503. |
| ReadingPlan.OpenAIKeyIgnored | src/app/api/gemini/reading-plan/route.ts:5-88 | The response does not depend on the OpenAI key. |
| ReadingPlan.PromptDaysCoverBook | src/app/api/gemini/reading-plan/route.ts:42 | The instruction asks for the fewest days that cover all the chapters at the daily amount, capped at thirty. |
| ReadingPlan.LocalPlanAtLeastPromptDays | src/app/api/gemini/reading-plan/route.ts:42-79 | The local plan has at least as many days as the instruction asks for, since a day never spans two books. |
| ReadingPlan.RealTablePlan | src/app/api/gemini/reading-plan/route.ts:16-79 | For the real table, the local plan's first day reads from chapter 1 of 1 Nephi, and the instruction asks for `min(30, ceil(239 / k))` days. |
| ReadingPlan.SummaryNamesAmount | src/app/api/gemini/reading-plan/route.ts:78 | The summary names the daily amount. |
| FallbackPlan.BooksTableValid | src/lib/chapters.ts:6-22 | The real book table is non-empty and every book in it has a chapter. |
| FallbackPlan.GenerateFallbackPlan | src/app/api/gemini/reading-plan/route.ts:54-75 | The nested loops build exactly the reference plan: the books in order at `k` chapters a day within a book, cut at thirty days. |
| FallbackPlan.FallbackSpans | src/app/api/gemini/reading-plan/route.ts:58-79 | The plan never exceeds thirty days, and each day reads a book of the table. |
| FallbackPlan.Reading | src/app/api/gemini/reading-plan/route.ts:60-67 | Day `i + 1` carries one chapter range and the fixed motivation. |
| FallbackPlan.ReadingsAppend | src/app/api/gemini/reading-plan/route.ts:63-69 | Appending a day to the plan appends its rendering, numbered next. |
| FallbackPlan.FallbackReadsInOrder | src/app/api/gemini/reading-plan/route.ts:58-75 | For a positive daily amount the plan starts at chapter 1 of the first book. It never skips or repeats a chapter, never spans two books and never reads more than `k` chapters a day. When the table fits in thirty days, it ends at the last chapter of the last book. |
| FallbackPlan.CoverChained | src/app/api/gemini/reading-plan/route.ts:58-73 | The days of the books from a given index on run contiguously from that book's first chapter to the last book's last chapter. |
| FallbackPlan.BookSpansChained | src/app/api/gemini/reading-plan/route.ts:59-60 | One book's days run contiguously from the starting chapter to the book's last chapter. |
| FallbackPlan.BookSpansCount | src/app/api/gemini/reading-plan/route.ts:59 | A book with `m` chapters left takes `ceil(m / k)` days. |
| FallbackPlan.CoverHoldsAllChapters | src/app/api/gemini/reading-plan/route.ts:58-73 | Days times the daily amount is at least the chapters covered. |
| FallbackPlan.DegeneratePlan | src/app/api/gemini/reading-plan/route.ts:59-72 | A zero or negative daily amount never leaves the first book: the plan has thirty days, each running backwards from `1 + i*k` to `(i+1)*k`. |

## Left out

- I/O is replaced by parameters: local storage by slots, `Date.now()` and the date by `now` and `today`, the SDKs by functions, and `JSON.parse` by an abstract `parse`. `process.env` is the `Env` value.
- A failed write to local storage is left out (a full quota, or storage disabled). `save` catches the error and drops the value (src/lib/storage.ts:18-22); the model assumes every browser write succeeds, so `Common.LoadAfterSave` holds only under that assumption.
- Malformed JSON in local storage is left out. `load` then falls back to the default, except in the rate limiter, where `JSON.parse` would throw; the stored records are assumed to be ones the code wrote.
- Concurrent tabs writing the same key, and the interleaving of `async` calls, are left out.
- Calendar dates are day numbers. The UTC formatting by `toISOString().slice(0, 10)` and the subtraction of 86 400 000 ms are taken to be "the day before".
- Numbers are integers. A fractional or string `chaptersPerDay` is left out: a string would turn `ch += chaptersPerDay` into string concatenation. Progress is computed in exact arithmetic, where `Math.round` of a float agrees with it because a count over 239 can never land on a half.
- Request bodies are reduced to the fields each route destructures. A non-object `context` reads as no context. The elements of the chat `messages` array are assumed to be message objects.
- The generation settings are not modelled: the Gemini model name, `maxOutputTokens`, OpenAI's `temperature`, and the `getGeminiModel` helper beyond client creation. They are recorded only as constants.
- `console.error` logging is left out, along with the unused `currentChapter` counter of the reading-plan loop.
- The badge display data (`BADGE_DEFINITIONS`: names, descriptions, icons) and `src/lib/types.ts` are not part of this model.
- The book table is a parameter `books` of the local plan (`ValidTable(books)`); the route passes `BOOKS`, which `FallbackPlan.BooksTableValid` shows satisfies it. The route is a function that uses the reference plan `FallbackPlan.FallbackReadings`, and `FallbackPlan.GenerateFallbackPlan` proves the source's loops compute that plan.
- The instruction texts are modelled in full. Proofs about them are limited to what they name: the fields, the chapter, the amount.
- Chapters.GetProgress: a ghost function, because the completed count sums over a map; its contract gives only the 0..100 bound. The exact rounding is stated by `Chapters.ProgressOf`.
- RateLimit.GetRemainingRequests: its contract gives only the bounds. `RateLimit.RemainingZeroIffCapped` fixes where it reaches zero, and `RateLimit.RecordLowersRemaining` shows each recorded request uses up one. No clause states the value `18 - count` outright.
