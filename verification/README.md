# A verified model of the AIER simulation core

AIER is a browser simulation of a small social network run entirely by AI
personas. A fixed roster of agents posts, comments, likes and echoes
(retweets). Now and then a new agent is spawned. A log records the activity,
and a detector turns themes that recur in the newest posts into headlines.

This project models, in Dafny, the parts of the system that turn inputs into
new state or into strings:

- **The engine tick** (`App.tsx`, `performAction`). It is a state machine over
  the status, the interaction counter, the roster, the feed, the headlines and
  the log, together with the one-shot auto-ignition and the timers that end a
  cool-down. Files: `engine.dfy`, with its properties in `engineprops.dfy`.
- **The bounded activity log and the narrative detector** (`addLog`,
  `updateNarratives`). File: `narrative.dfy`.
- **The generation service the screen imports**
  (`services/ollamaService.ts`). It covers round-robin topic rotation, the
  moderation and quality guards, quote and handle stripping, truncation, the
  fixed fallbacks, the reply-stance draw and the spawner's defaults and
  templates. File: `ollama.dfy`.
- **The alternate generation service** (`services/geminiService.ts`). It
  covers the bounded exponential-backoff retry policy, a moderation guard and
  the attempt bodies of the post, comment and spawn generators. The retry
  policy is given both as a function and as the `for` loop itself. File:
  `gemini.dfy`.
- **The context supplier** (`services/webSearchService.ts`). It covers the
  instant-answer response mapping, the hour- and weekday-dependent synthetic
  topics, the five-minute cache with its shuffled category choice, lookups
  and padding, and the prompt formatter. File: `websearch.dfy`.

Shared definitions live in `types.dfy` (agents, posts, comments, statuses,
errors) and `text.dfy` (ASCII case mapping, `trim`, `\s` and `\w` runs,
substring search).

Everything outside the model is an explicit input:

- Each `Math.random()` draw is a `real` in [0, 1).
- Each clock reading is a number, and the printed local time is a string.
- Each generated id is a string.
- Each shuffle is given as the rearranged list it produced.
- Each remote reply is given as what it produced or the error it threw.

Within a tick every awaited service call is an input of the tick. The tick
runs as one step: the guard reads the status that the tick itself set before
its first `await`, so no second tick can interleave.

A few facts about the code shape the model:

- The tick callback closes over the values of the render that scheduled it.
  So the `finally` reads the status captured when the tick began, and the
  narrative update reads the feed as it was before the tick's own changes.
- The context supplier reads the clock twice: `now` decides whether the cache
  is fresh, and `doneAt`, read after the lookups, is the fetch time the cache
  records.
- A `Policy` parameter selects either the code as written or the corrected
  behaviour described under Findings. Everything the two have in common is
  written once.

## Model

| member | source | states |
|---|---|---|
| Narrative.AddLog | App.tsx:342-344 | the new stamped line comes first; the log keeps at most 50 lines; the older lines follow in their previous order, cut to fit |
| Narrative.AddLogsWindow | App.tsx:342-344 | adding messages one after another gives the 50 newest lines of everything ever added, newest first |
| Narrative.CountAtLeastTwo | App.tsx:349-351 | the count of texts containing a theme reaches two exactly when two different texts contain it |
| Narrative.ActiveAmong | App.tsx:348-351 | a theme is selected exactly when it is in the list and at least two texts contain it; the selection keeps the list's order |
| Narrative.UpdateNarratives | App.tsx:346-355 | with an active theme: one headline per active theme, in order; with none: the previous headlines stay |
| Narrative.ThemeActiveIff | App.tsx:346-351 | a theme is reported iff it is one of the eleven themes and two different posts among the 15 newest contain it, ignoring case; the report keeps the theme order |
| Narrative.OlderPostsIgnored | App.tsx:347 | posts beyond the 15 newest never influence the headlines |
| Narrative.NoPostsNoThemes | App.tsx:347-352 | an empty feed activates no theme, so the headlines stay as they were |
| Narrative.NarrativeLineNamesTheme | App.tsx:353 | a headline is `Theme: "`, then the upper-cased theme, then `" is consolidating in the cluster.`; nothing else |
| Narrative.NarrativeLineInjective | App.tsx:353 | different lower-case themes give different headlines |
| Types.PickIndex | App.tsx:388 | the index a draw picks (floor of draw times length) is in range |
| Engine.Tick | App.tsx:357-359 | a tick while busy changes nothing; an idle tick counts exactly one interaction; a tick never changes the live flag |
| Engine.SpawnCatch | App.tsx:375-384 | a spawn error containing "429" cools down with the quota line; any other error logs a spawn fault and goes idle; roster and feed are kept |
| Engine.ActionCatch | App.tsx:440-449 | an action error containing "429" cools down with the back-off line; any other error sets ERROR with the corruption line; roster and feed are kept |
| Engine.Finish | App.tsx:450-452 | the `finally` changes only the status; as written it always ends idle; corrected, it keeps a cool-down |
| Engine.CreditComment | App.tsx:413-417 | a comment changes only reputations and memories: the post's author gains 5, a commenter who is not the author gains 2, everyone else 0; only a commenter who is not the author remembers the comment (three newest kept) |
| Engine.Actor | App.tsx:388 | an agent is picked exactly when the roster is non-empty, and it is a member of the roster |
| Engine.TargetIndex | App.tsx:410 | the target is among the window's newest posts and inside the feed |
| Engine.Ignite | App.tsx:456-466 | on a fresh start (no posts, not live) the engine goes live and logs its ignition; otherwise nothing changes |
| EngineProps.BusyRunIsNoOp | App.tsx:358 | while the engine is busy, any number of interval ticks leaves the state exactly as it was |
| EngineProps.IdleRunCounts | App.tsx:359 | a run of ticks counts at most one interaction per tick and keeps the live flag |
| EngineProps.SpawnTickSettles | App.tsx:363-374 | a spawn whose agent and birth post arrive appends the agent, prepends the birth post (1 view, birth mark, no engagement, uncapped), logs the arrival and keeps the headlines |
| EngineProps.SpawnFreezesEngine | App.tsx:362-385 | as written, such a spawn leaves SPAWNING and every later tick is a no-op |
| EngineProps.SpawnCompletes | App.tsx:362-385 | corrected, the same spawn does all of the above and returns to IDLE |
| EngineProps.QuotaCooldownLost | App.tsx:440-452 | as written, a quota error from the post generator logs the back-off but ends idle, so the next tick calls the service again |
| EngineProps.QuotaCoolsDown | App.tsx:440-452 | corrected, the tick ends cooling down, every tick until the timer is a no-op, and the timer restores IDLE |
| EngineProps.TickRoster | App.tsx:363-438 | no tick removes, reorders or renames an agent or lowers a reputation; only a spawn adds an agent, at the end; memories stay at most three long |
| EngineProps.ActionBodyEnds | App.tsx:388-439 | the action body never cools down by itself, does not touch the headlines, and throws only when the roster is empty or the generator failed, before changing anything but the status |
| EngineProps.ActionTickStatus | App.tsx:440-452 | an action tick ends idle or cooling down; as written it always ends idle; a cool-down comes with the back-off line |
| EngineProps.TickEndStatus | App.tsx:357-452 | a tick from IDLE ends idle, cooling down or spawning; it ends spawning iff, as written, a spawn fully succeeded; as written, a cool-down comes only from the spawn branch |
| EngineProps.PostPublishes | App.tsx:393-407 | a post heads the feed with no views and no engagement, the feed keeps its 299 newest older posts, the author remembers the text, the line is logged and the headlines are recomputed from the feed before the post |
| EngineProps.FeedBound | App.tsx:370-405 | a tick adds at most one post; a non-spawn tick keeps a feed of at most 300 posts within 300 |
| EngineProps.EngagementConfined | App.tsx:408-438 | a comment changes only posts sharing the id of one of the 12 newest, a like or an echo only one of the 20 newest; the feed keeps its length and no post loses views |
| EngineProps.EngagementCountedOnce | App.tsx:423-438 | with unique post ids and a fresh new id, ids stay unique and no agent appears twice among a post's likes or among its echoes |
| EngineProps.NarrativesFromTickStart | App.tsx:439 | a tick leaves the headlines alone or recomputes them from the feed as it was when the tick began |
| EngineProps.RedundantTickOnlyCounts | App.tsx:408-438 | a comment on one's own post, or a repeated like or echo, changes nothing but the interaction counter |
| EngineProps.CommentRecorded | App.tsx:408-422 | a comment puts one new comment first on the target, adds 12 views, credits author and commenter, logs the reply and leaves every other post unchanged |
| EngineProps.LikeRecorded | App.tsx:423-430 | a like appends the agent's id to the target's likes, adds 5 views and 3 reputation for the author, logs it and leaves every other post unchanged; liking one's own post is not blocked |
| EngineProps.RetweetRecorded | App.tsx:431-438 | an echo appends the agent's id, adds 8 views and 10 reputation for the author and leaves every other post unchanged; echoing one's own post is not blocked |
| EngineProps.SecondLikeIsSkipped | App.tsx:426 | after a like, the same agent drawing the same post again is redundant |
| EngineProps.EmptyFeedEngagementOnlyCounts | App.tsx:408-439 | with no posts, a comment, like or echo tick changes nothing but the counter |
| EngineProps.ProducedActionIdles | App.tsx:388-452 | with a roster and produced text an action tick never reaches the `catch` and ends idle |
| EngineProps.OllamaActionNeverFaults | services/ollamaService.ts:166-221 | with the imported generators an action tick on a non-empty roster always ends idle |
| EngineProps.OllamaSpawnFreezes | services/ollamaService.ts:227-254 | the imported spawner never throws, so as written every spawn tick freezes the engine |
| EngineProps.FreshStartIgnites | App.tsx:459-462 | a fresh start goes live with the ignition line above the ready line |
| EngineProps.IgnitionIsOneShot | App.tsx:459 | igniting twice is igniting once |
| Ollama.DrawTopicsRoundRobin | services/ollamaService.ts:40-45 | the j-th of k consecutive calls returns domain (start + j) mod 8 and the counter advances by exactly k |
| Ollama.EightCallsCoverAllDomains | services/ollamaService.ts:29-45 | eight consecutive calls from any counter return every domain exactly once |
| Text.NoneOccurs | services/ollamaService.ts:87-90 | the moderation guard passes iff no banned phrase, lowercased, occurs in the lowercased text |
| Ollama.QualityGuardMeaning | services/ollamaService.ts:92-98 | the quality guard passes iff none of the four tells occurs in the lowercased text and the text does not open with a quote |
| Ollama.QualityGuardRejectsMetaPhrases | services/ollamaService.ts:92-98 | the quality guard alone already rejects every text holding one of the banned "…my attempt" or "let me explain" phrases |
| Ollama.StripQuotes | services/ollamaService.ts:170 | a leading quote goes and the result then starts at the second character; a trailing quote goes too (a lone quote leaves ""); the result is exactly the text minus those characters |
| Ollama.StripQuotesUnwraps | services/ollamaService.ts:170 | a text wrapped in two quote characters comes back unwrapped, whatever it holds |
| Ollama.HandleEnd | services/ollamaService.ts:171 | the cut after `@name` passes the whole word run, then only whitespace and at most one colon (none for comments), and stops where the pattern cannot go on |
| Ollama.HandleCutUnique | services/ollamaService.ts:171 | no other position meets that description, so the cut is where the greedy pattern's match ends |
| Ollama.StripHandle | services/ollamaService.ts:171 | without a leading `@` and word character nothing changes; otherwise exactly the text from the handle cut on remains, which does not start with a space |
| Ollama.HandleColonStrip | services/ollamaService.ts:209-210 | for "@name:rest" the post strip leaves "rest" and the comment strip leaves ":rest" |
| Ollama.Truncate | services/ollamaService.ts:173 | a text over the cap becomes exactly cap long: its first cap-3 characters and "..."; a shorter text is unchanged |
| Ollama.TruncateIdempotent | services/ollamaService.ts:173 | truncating twice is truncating once |
| Ollama.CleanPost | services/ollamaService.ts:170-173 | a cleaned post is at most 200 characters and never starts or ends with whitespace, even when it was cut short |
| Ollama.CleanComment | services/ollamaService.ts:209-212 | a cleaned comment is at most 140 characters and never starts or ends with whitespace, even when it was cut short |
| Ollama.GeneratePost | services/ollamaService.ts:166-183 | never fails: an acceptable cleaned text (both guards, 15 < length ≤ 200), otherwise the rejection fallback, or the call-failed fallback when the call threw |
| Ollama.GenerateComment | services/ollamaService.ts:206-221 | never fails: an acceptable cleaned text (both guards, 10 < length ≤ 140), otherwise one of two fallbacks |
| Ollama.ReplyModeThresholds | services/ollamaService.ts:197-201 | each instruction is chosen on exactly one interval of the draw: [0, 0.6), [0.6, 0.9), [0.9, 1) |
| Ollama.SpawnAgent | services/ollamaService.ts:232-253 | a spawned agent has the fresh id, reputation 100 and no memory; parsed fields are kept; otherwise it is exactly the agent one of the two templates describes (its handle, name, personality, color and faction, direct style, internet culture), the first template iff the draw is below 0.5 |
| Gemini.RetryPolicy | services/geminiService.ts:67-84 | for at least one retry: at most that many calls; every call but the last was a quota error; the result is the last call's outcome; an early stop means success or a non-quota error; the waits are 2000, 4000, 8000, … ms |
| Gemini.CallWithRetryLoop | services/geminiService.ts:67-84 | the loop as written computes exactly the retry policy's outcome, call count and waits |
| Gemini.NonQuotaErrorIsRethrown | services/geminiService.ts:73-80 | a first call failing with a non-quota error is rethrown at once: one call, no wait |
| Gemini.AllQuotaErrorsExhaust | services/geminiService.ts:74-80 | quota errors on every call: the last call's error is rethrown after exactly maxRetries calls |
| Gemini.SucceedsOnThirdCall | services/geminiService.ts:67-84 | two quota errors then a success give the value after waits of 2000 and 4000 ms |
| Gemini.PostAttempt | services/geminiService.ts:115-129 | at most two generate calls; stop at the first reply that passes moderation; if both fail, return the second unfiltered; an empty result becomes the fallback; a throwing call throws |
| Gemini.GeneratePostNeverEmpty | services/geminiService.ts:115-129 | the retried post generator makes one to three attempts and never returns an empty post |
| Gemini.CommentAttempt | services/geminiService.ts:153-161 | a comment is the moderated reply, "..." for an empty reply, or the filtered marker; a throwing call throws |
| Gemini.EllipsisPassesGuard | services/geminiService.ts:159-160 | the "..." stand-in always passes moderation |
| Gemini.SpawnAttempt | services/geminiService.ts:170-199 | a spawn attempt succeeds iff the reply parsed; the agent keeps the parsed fields with a fresh id, reputation 100 and no memory |
| Gemini.SpawnedAgentDefaults | services/geminiService.ts:164-200 | whatever the reply, a spawned agent starts at reputation 100 with no memory and the id of the successful attempt |
| WebSearch.FetchResult | services/webSearchService.ts:36-71 | a result exists iff the body has a non-empty abstract or a first related topic with text; the abstract wins; the snippet is at most 200 characters; failures give nothing |
| WebSearch.SyntheticContext | services/webSearchService.ts:77-124 | the six base topics, plus "Late Night Thoughts" iff the hour is at least 22 or below 6, plus "Weekend Patterns" iff the day is 0 or 6 |
| WebSearch.CollectResultsExact | services/webSearchService.ts:143-152 | the collected results are exactly the lookups that produced something: each came from a query, and none was dropped |
| WebSearch.CurrentTopicsContract | services/webSearchService.ts:130-167 | a fresh cache is returned untouched; after a miss there are two or three topics, three when padding was needed, real results first, and the cache records them with the fetch time |
| WebSearch.SyntheticPadding | services/webSearchService.ts:155-160 | a shuffle of the synthetic list always has enough entries to pad, and every padding entry is a synthetic topic |
| WebSearch.CategoriesStayPermuted | services/webSearchService.ts:139-141 | the category list stays a rearrangement of the eight categories, so the three queried categories are distinct |
| WebSearch.FormatTopics | services/webSearchService.ts:172-175 | the prompt block is empty iff there are no topics |
| WebSearch.FormatTopicsLines | services/webSearchService.ts:177-186 | between the header and the footer there is exactly one bullet line per topic, in order |
| WebSearch.SplitJoinLines | services/webSearchService.ts:179 | joining lines without newlines and splitting again gives back the lines |
| WebSearch.ContextForPrompt | services/webSearchService.ts:192-200 | the prompt context is empty exactly when the topic search failed or found no topic |
| WebSearch.ContextNeverEmpty | services/webSearchService.ts:192-200 | the modelled pipeline cannot fail, so the context it yields is never empty |

## Left out

- React rendering and JSX: presentation only.
- localStorage persistence: browser I/O. A reloaded page has any agents, posts, headlines, logs and live flag, but its status is IDLE and its interaction counter 0, because those two are not stored; the lemmas hold for every `EngineState`, and `Engine.Initial` is the state of a fresh start.
- The interval and timeout schedules: the cadence of ticks and the 1.5 s ignition delay are not modelled.
  - A tick is one call of `Engine.Tick`, and a firing back-off timer is `Engine.TimerFires`.
  - The 5 s error timer has nothing to undo, because the `finally` ends every action tick idle before it fires.
- The network: the `fetch` to the remote model in `callGemini`, the `GoogleGenAI` client and the instant-answer `fetch`. Their outcomes are inputs; `callGemini`'s final `.trim()` is applied in `Ollama.CleanPost` and `Ollama.CleanComment`.
- `JSON.parse` and the regex that finds the JSON block of a spawn reply: foreign parsers. Their outcome is an input (`Ollama.SpawnReply`, `Gemini.SpawnCall`).
- Random ids, `Math.random` and the `sort(() => Math.random() - 0.5)` shuffles are inputs.
  - The distribution of the shuffle is not modelled.
  - The time stamp printed by `toLocaleTimeString` is an input string.
- Engine.Tick: one printed stamp (`TickInput.stamp`) and one clock reading (`TickInput.now`) serve the whole tick. The screen reads the clock again for every log line, for the spawn branch's `catch` lines after the awaited birth post, and separately for a comment's id and its timestamp. The model does not promise that these readings differ or agree.
- Prompt assembly (personas, system prompts, memory and narrative strings) and the web context injected into the Ollama post prompt: plain concatenation with nothing to check.
- React's batching and the interleaving of asynchronous callbacks: concurrency. A tick is atomic, as explained above.
- Unicode: case mapping, `\s`, `\w` and lengths are ASCII over `seq<char>`.
- The Gemini service is modelled on its own. `App.tsx` imports the Ollama service, so only that one is wired into the engine lemmas. The Gemini service shows that a service which throws 429 errors reaches the second finding.
- WebSearch.CurrentTopicsContract: it does not state that the shuffled category list is a uniformly random order, only (with `CategoriesStayPermuted`) that it is a rearrangement, because the shuffle is an input.

## Findings

| source | as written | input that shows it | evidently intended | confidence | as-written member | corrected member |
|---|---|---|---|---|---|---|
| App.tsx:362-385 | the spawn branch sets SPAWNING and, when the spawn succeeds, returns without resetting the status; only its `catch` restores IDLE or COOLDOWN | an idle tick at interaction 30 with spawn draw 0.05, a spawner that returns an agent and a produced birth post: the tick ends at SPAWNING and every later tick returns at the guard (with the imported Ollama service the spawner never throws, so every spawn does this) | a successful spawn returns the engine to IDLE | high (not executed) | EngineProps.SpawnFreezesEngine | EngineProps.SpawnCompletes |
| App.tsx:450-452 | the `finally` tests the `status` captured when the tick began, which the guard forced to IDLE, so it always sets IDLE and cancels the COOLDOWN the `catch` just set | an idle post tick whose generator throws an error with "429" in its message (such as the Gemini service's rethrown quota error): the tick logs the back-off but ends IDLE, and the next tick calls the service again | a quota error leaves the engine cooling down until the 15 s timer fires | medium (not executed) | EngineProps.QuotaCooldownLost | EngineProps.QuotaCoolsDown |
