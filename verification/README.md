# voice-journal: a Dafny model of its accounting, statistics, validation and client-state logic

voice-journal is a SvelteKit app over a hosted Postgres datastore and an AI service.
A user records a spoken diary entry, which is transcribed, analysed into one of six
emotions and illustrated. This project models the small amount of self-contained
logic in its request handlers and client stores, and proves properties of it:

- **Streak** (`streak.dfy`, module `Streaks`): the consecutive-day streak.
  - It is a pure function `Streak` over a set of integer day numbers, with `today` as a parameter.
  - The `calculateStreak` loop appears three times, in `src/routes/api/stats/+server.ts:7-55`,
    `src/routes/+page.server.ts:6-61` and `src/routes/api/usage/+server.ts:7-55`. The copies
    differ only in comments, so they are modelled once, as the method `Streaks.CalculateStreak`.
  - `updateStreakCache` in the journal handler has a different control flow, plus a cache write.
    It is modelled as the method `Streaks.UpdateStreakCache`.
  - Both methods are proved to compute `Streak`.
- **Day keys** (`daykey.dfy`): the `YYYY-MM-DD` key every handler builds from a date,
  with a reader that inverts it, so distinct dates give distinct keys. The page handlers'
  `todayKey` and `yesterdayKey` are inputs that the model takes to be the keys of `today` and
  `today - 1`.
- **Usage and streak caches** (`accounts.dfy`, `home_page.dfy`, `usage_api.dfy`).
  - The `used` / `remaining` / `canCreate` view of the daily counter.
  - The two different rules by which the home page and the usage endpoint trust the cached streak.
  - A delete leaves the cache stale, which the home page's rule does not notice (see Findings).
- **Emotion statistics** (`stats.dfy`).
  - The reporting window and the six-bucket histogram.
  - The per-day map, as insertion-ordered association lists.
  - The per-day dominant emotion with its strict-`>` tie-break.
  - The per-day map is proved equal to an independent reference built from first-appearance
    orders and counts.
- **Request handlers** (`journal_api.dfy`, `profile_api.dfy`).
  - Journal save validation and defaults, delete, single and paged reads.
  - The profile read and save.
  - Datastore answers are inputs.
- **Client stores** (`journal_creation.dfy`, `user_store.dfy`).
  - The journal-creation record and its update operations.
  - The user store mirrored into `localStorage`, modelled as a `map<string, string>`.
- **Reminder** (`reminder.dfy`).
  - The next-fire instant, on a millisecond clock with a fixed offset from UTC.
  - The timer delay.
  - The `localStorage` bookkeeping of schedule, cancel and initialise.
- **Pure helpers** (`audio.dfy`, `image_prompt.dfy`): `validateDuration`, and `buildImagePrompt`
  with its `MOOD_STYLES` table. The builder is modelled as written, with the lookup JavaScript
  performs, and with the corrected lookup (see Findings).
- **Shared modules** (`text.dfy`, `emotion.dfy`, `api.dfy`, `constants.dfy`, `clock.dfy`,
  `local_storage.dfy`, `wrappers.dfy`):
  - JavaScript `trim`, `split`, `String(n)` and two-digit padding;
  - the millisecond units of the clock and `localStorage.getItem`;
  - the six-value emotion type;
  - the error envelope;
  - the limits in `src/lib/constants.ts:6-10`.

Clocks, the datastore and the browser are parameters.

- **Clock:** a handler receives today's day number (or today's and yesterday's day keys), or the
  current instant in milliseconds.
- **Datastore:** a datastore call is replaced by the result it returns: a `Result` whose error
  side is the datastore error object.
- **Browser:** whether the code runs in a browser is a boolean.

## Model

| member | source | states |
|---|---|---|
| Streaks.Streak | src/routes/api/stats/+server.ts:33-52 | The streak is positive exactly when today or yesterday has an entry, so it is 0 when neither has one. |
| Streaks.StreakIff | src/routes/api/stats/+server.ts:34-52 | Let the start be today if present, else yesterday. A streak of k > 0 means the k days ending at the start are all present and the day before them is absent. A streak of 0 means neither today nor yesterday is present. Both directions are stated. |
| Streaks.RunLengthIff | src/routes/api/stats/+server.ts:43-52 | The backward walk counts exactly the unbroken run of present days ending at the cursor, in both directions. |
| Streaks.StreakExamples | src/routes/api/stats/+server.ts:36-54 | Only today gives 1. Today, yesterday and the day before give 3. Only yesterday gives 1. Only the day before yesterday gives 0. |
| Streaks.DuplicateDayCountsOnce | src/routes/api/stats/+server.ts:18-24 | Repeating a day in the query result leaves the day set unchanged, so several entries on one day count once. |
| Streaks.CalculateStreak | src/routes/api/stats/+server.ts:7-55 | The loop over a day set (built from the query result) returns `Streak` of the set, and 0 for an empty history. The same holds for the identical copies at src/routes/+page.server.ts:6-61 and src/routes/api/usage/+server.ts:7-55. |
| Streaks.UpdateStreakCache | src/routes/api/journal/+server.ts:6-76 | There is no write for an empty history. Otherwise the written streak equals `Streak`. The written last journal day is the first entry of the query result, so it is one of the entry days, and for a newest-first query it is the newest day. |
| DayKeys.ParseDayKeyOfDayKey | src/routes/api/stats/+server.ts:22 | Reading a day key back gives the year, month and day it was built from. |
| DayKeys.DayKeyInjective | src/routes/+page.server.ts:85 | Two valid dates have the same key iff they are the same date. |
| Text.Pad2Value | src/routes/+page.server.ts:101 | `padStart(2, '0')` of a number below 100 has two digits and reads back as that number. |
| Accounts.DeriveUsage | src/routes/+page.server.ts:88-116 | `used` is the stored count (null read as 0) when the stored date is today's key, and 0 otherwise. `remaining` is `max(0, 3 - used)` and never negative. `canCreate` holds iff `used < 3`. |
| Accounts.UsageConsistent | src/routes/api/usage/+server.ts:86-93 | `canCreate` holds iff `remaining > 0`. A stored date other than today's key resets the view to 0 used, 3 remaining. |
| Accounts.PageStreak | src/routes/+page.server.ts:94-107 | The home page shows the cached `streak_count` (null read as 0) iff the last journal date is today's or yesterday's key. Otherwise it shows a fresh streak. |
| Accounts.UsageStreak | src/routes/api/usage/+server.ts:95-99 | The usage endpoint returns a nonzero cached streak without any staleness check. It recomputes only when the cache is 0 or null. |
| Accounts.CachedStreakStillValid | src/routes/+page.server.ts:103-107 | While the entries are those the cache was computed from: if the newest entry day is today or yesterday, a streak computed on any day from that entry day up to today is still today's streak. A delete breaks this premise (see Findings). |
| Accounts.UsageCacheCanBeStale | src/routes/api/usage/+server.ts:96-99 | Counterexample: a streak of 1 cached on day 0, the day of the only entry, with that day's key as last journal date, is still reported five days later. By then the real streak is 0, and the home page, which no longer trusts that date, shows 0. |
| Accounts.RefreshCache | src/routes/api/journal/+server.ts:57-70 | Corrected half of the stale-cache finding: the cache columns recomputed from the entries left, as the save writes them. The streak of those days, the newest day's key (no date when none is left), and every other column kept. |
| Accounts.RefreshedCacheSound | src/routes/+page.server.ts:103-107 | With the cache recomputed after every change to the entries, the home page's streak on any later day equals the streak of the entries. |
| HomePage.Load | src/routes/+page.server.ts:63-119 | No session redirects to `/login`, and no user row redirects to `/onboarding`. Otherwise the page shows the derived usage, the streak chosen by the cache rule, and the profile's nickname and reminder time. |
| UsageApi.Get | src/routes/api/usage/+server.ts:57-120 | No session gives 401 `UNAUTHORIZED` and a read error gives 500 `USAGE_CHECK_ERROR`. Otherwise the answer is the usage view (reset on a new day; a null row reads as nothing used today) with the usage endpoint's streak. |
| Stats.WindowDays | src/routes/api/stats/+server.ts:69-79 | The window is 7 days for an absent, empty or `'week'` period and 30 days for any other value. |
| Stats.WindowStart | src/routes/api/stats/+server.ts:72-79 | The window starts exactly that many whole days before now. |
| Stats.WeekWindowInsideOthers | src/routes/api/stats/+server.ts:75-79 | Every entry inside the default week window is also inside the window of any other period. |
| Stats.Tally | src/routes/api/stats/+server.ts:95-110 | Each of the six counters starts at 0 and ends at the number of entries with that emotion. The counters sum to the number of entries. |
| Stats.BumpMatches | src/routes/api/stats/+server.ts:119-120 | An entry on a day already seen bumps that day's counter list exactly as the reference counts change. A new emotion is appended with count 1, and a known one is incremented in place. |
| Stats.AddEntryMatches | src/routes/api/stats/+server.ts:112-120 | One loop iteration turns the reference map of a prefix into the reference map of the prefix plus one entry. |
| Stats.GroupIsExpected | src/routes/api/stats/+server.ts:105-121 | The per-day map after the loop is the reference map. It has one bucket per distinct day in first-appearance order, each holding that day's emotions in first-seen order with their counts. |
| Stats.DominantIsFirstMax | src/routes/api/stats/+server.ts:126-134 | On a nonempty list of positive counters, the scan with strict `>` returns a counter with the largest count. Every counter before it is strictly smaller, so ties go to the earliest-inserted emotion. |
| Stats.DailyEmotionsSpec | src/routes/api/stats/+server.ts:123-141 | There is exactly one daily item per distinct day, in first-appearance order. Each item's count is at least 1, so the neutral/0 default is never emitted. That count is the number of that day's entries with the item's emotion, and no emotion has more. Every emotion first seen earlier that day has strictly fewer. |
| Stats.DayOrderAscending | src/routes/api/stats/+server.ts:82-87 | With the query ordered by creation time ascending, the days of the daily series are strictly ascending, and the last one is the newest entry's day. |
| Stats.ExampleTally | src/routes/api/stats/+server.ts:107-110 | Two joy entries on one day and a sadness entry on the next give joy 2, sadness 1 and the rest 0. |
| Stats.ExampleDaily | src/routes/api/stats/+server.ts:123-141 | The same entries give two daily items: joy with 2, then sadness with 1. |
| Stats.Get | src/routes/api/stats/+server.ts:57-166 | No session gives 401, and a failed window query gives 500 `STATS_ERROR`. Otherwise `totalJournals` is the number of entries and equals the histogram total, the histogram counts each emotion's entries, the daily series is the modelled one, and the streak is `Streak`. |
| JournalApi.ValidatePost | src/routes/api/journal/+server.ts:104-125 | A missing or empty transcript, summary, emotion or image URL is rejected with 400 `INVALID_INPUT`, in both directions. Otherwise the fields are copied, and a missing or zero score or duration becomes 0. |
| JournalApi.Post | src/routes/api/journal/+server.ts:79-153 | No session gives 401 and a non-JSON body gives 500; neither inserts anything. An invalid body inserts nothing. An insert is attempted iff the body is valid, and the attempted row is the validated one. An insert error gives 500 `DB_ERROR` with no cache write. A successful insert answers with the row whatever happens to the streak refresh. A cache write happens iff the insert succeeded and the streak query returned entries, and it carries `Streak`. |
| JournalApi.Delete | src/routes/api/journal/+server.ts:156-203 | No session gives 401, and a missing or empty `id` gives 400 `INVALID_INPUT`. Otherwise the delete is filtered by the id and the caller's own user id, and a datastore error gives 500 `DB_ERROR`. It writes no cache column. |
| JournalApi.StaleCacheAfterDelete | src/routes/api/journal/+server.ts:177-195 | Counterexample: the only entry, on day 0, was saved with a streak of 1 and that day's key. Deleting it answers success, and on day 0 the home page still shows 1, while the streak of the entries left is 0. |
| JournalApi.DeleteRefreshing | src/routes/api/journal/+server.ts:156-203 | Corrected delete: the same answer as the delete, the row untouched on failure, and on success the cache columns recomputed from the entries left. |
| JournalApi.DeleteRefreshingSound | src/routes/+page.server.ts:103-107 | After a successful corrected delete, the home page's streak on the day of the delete or any later day is the streak of the entries left. |
| JournalApi.ListRange | src/routes/api/journal/+server.ts:244-252 | The range starts at `offset` (default 0) and spans `limit` rows (default 30), inclusive. |
| JournalApi.RangeRows | src/routes/api/journal/+server.ts:252 | The datastore's inclusive range yields rows `from..to`, as many as exist, in order. |
| JournalApi.ListPageIsWindow | src/routes/api/journal/+server.ts:244-252 | A list request returns rows `offset, offset+1, …`: exactly `limit` of them when that many exist, otherwise the rest. |
| JournalApi.Get | src/routes/api/journal/+server.ts:206-273 | No session gives 401. With an id, the answer is the caller's entry, or 404 `DB_ERROR`. Without one, it is the page of `ListRange`, or 500 `DB_ERROR`. |
| ProfileApi.Get | src/routes/api/profile/+server.ts:6-38 | No session gives 401. Error code `PGRST116` answers success with a null profile, and any other error gives 500 `PROFILE_ERROR`. |
| ProfileApi.Post | src/routes/api/profile/+server.ts:41-90 | No session gives 401, and a missing or whitespace-only nickname gives 400 `INVALID_INPUT`. A row is upserted iff the nickname has a non-whitespace character. The stored nickname is the trimmed input: nonempty, and neither starting nor ending with whitespace. A falsy reminder time is stored as null. An upsert error gives 500 `PROFILE_ERROR`. |
| Text.JoinSplit | src/lib/utils/reminder.ts:40 | `split(':')` loses nothing: joining its fields back with the separator gives the original string. |
| LocalStorage.GetItem | src/lib/utils/reminder.ts:72 | `getItem` gives the stored string for a present key and null for a missing one. |
| Text.TrimEmptyIffBlank | src/routes/api/profile/+server.ts:53 | `trim()` of a string is empty iff every character of it is whitespace. |
| Text.TrimCutsBlank | src/routes/api/profile/+server.ts:65 | `trim()` keeps a contiguous slice of the input and removes only whitespace on either side. |
| JournalCreation.IsProcessingIff | src/lib/stores/journalCreation.svelte.ts:47-52 | `isProcessing` holds iff the status is transcribing, analyzing, generating or saving. |
| JournalCreation.SetStatus | src/lib/stores/journalCreation.svelte.ts:55-57 | The status becomes the given one, and the work and error fields are kept. |
| JournalCreation.SetError | src/lib/stores/journalCreation.svelte.ts:59-63 | The status becomes error, with the step and message recorded. The work fields and saved id are kept, and the store is no longer processing. |
| JournalCreation.SetTranscript | src/lib/stores/journalCreation.svelte.ts:65-68 | Only the transcript and duration change. |
| JournalCreation.SetAnalysis | src/lib/stores/journalCreation.svelte.ts:70-72 | Only the analysis result changes. |
| JournalCreation.SetImage | src/lib/stores/journalCreation.svelte.ts:74-76 | Only the image URL changes. |
| JournalCreation.SetPreview | src/lib/stores/journalCreation.svelte.ts:79-81 | Only the status changes, to preview, which is not processing. |
| JournalCreation.SetCompleted | src/lib/stores/journalCreation.svelte.ts:83-88 | The status becomes completed and the id is recorded. Both error fields are cleared, and the work fields are kept. |
| JournalCreation.SetRecordingBlob | src/lib/stores/journalCreation.svelte.ts:90-92 | Only the last recording changes. |
| JournalCreation.Reset | src/lib/stores/journalCreation.svelte.ts:20-30 | The store returns to exactly the initial record: idle and not processing. |
| JournalCreation.ClearError | src/lib/stores/journalCreation.svelte.ts:100-102 | Only the error message is cleared; the status and the failed step remain. |
| JournalCreation.ErrorThenClear | src/lib/stores/journalCreation.svelte.ts:95-102 | After an error and a clear, the store still names the failed step, is not processing and keeps its work. A reset then forgets everything. |
| JournalCreation.CompletedAfterError | src/lib/stores/journalCreation.svelte.ts:59-88 | Completing after an error clears both error fields, whatever they held. |
| UserStore.Load | src/lib/stores/user.svelte.ts:14-26 | Outside the browser the result is the default user. In the browser the flag is set iff the stored string is exactly `'true'`, a missing nickname reads as empty, and a missing time reads as null. |
| UserStore.Save | src/lib/stores/user.svelte.ts:32-53 | Outside the browser nothing changes. Each field that is not `undefined` is written to memory and storage, and every other field and key keeps its value. A falsy time removes its key. The flag is stored as `'true'`/`'false'`. |
| UserStore.Clear | src/lib/stores/user.svelte.ts:56-66 | Outside the browser nothing changes. Otherwise memory holds the defaults, the three keys are gone and other keys are kept. |
| UserStore.SaveThenLoad | src/lib/stores/user.svelte.ts:17-52 | Saving a full record and loading it back returns the same nickname and flag, and the reminder time when it is truthy (null otherwise). |
| UserStore.SaveKeepsInSync | src/lib/stores/user.svelte.ts:32-66 | If memory and storage agree before a save or a clear, they agree after it. After a clear, loading gives the defaults. |
| Reminder.ParseTimeOfClock | src/lib/utils/reminder.ts:40 | Splitting a zero-padded `HH:MM` on `':'` and reading both fields gives back the hour and minute written. |
| Reminder.LocalMidnight | src/lib/utils/reminder.ts:42-43 | The local midnight of now is at most now and less than a day before it, and lies on a local day boundary. |
| Reminder.NextFire | src/lib/utils/reminder.ts:42-48 | The target is strictly after now and has the requested local time of day. For a valid clock time it is at most one day after now, and at most one day after the current local day's occurrence. |
| Reminder.NextFireIsFirst | src/lib/utils/reminder.ts:45-48 | For a valid clock time, no instant strictly between now and the target has the requested time of day. So the target is the first occurrence after now. |
| Reminder.Delay | src/lib/utils/reminder.ts:50 | The delay is strictly positive, because a time equal to now counts as passed. For a valid clock time it is at most one day. The timer fires at the `NextFire` instant for the parsed hour and minute. |
| Reminder.Cancel | src/lib/utils/reminder.ts:69-77 | Outside the browser nothing happens. A stored non-empty timer id is cleared and its key removed. Without one nothing changes. No other key is removed or added. |
| Reminder.Schedule | src/lib/utils/reminder.ts:36-64 | The previous timer is cancelled first, and the timer waits the `Delay` of the time, which is positive. In the browser, storage ends with the new timer id and `notification_time = time`, and every other key keeps its value. |
| Reminder.RescheduleClearsPrevious | src/lib/utils/reminder.ts:53-63 | Scheduling again, as the timer callback does daily, clears exactly the timer id the previous schedule stored and stores the new one. |
| Reminder.Initialize | src/lib/utils/reminder.ts:97-104 | A schedule happens iff in the browser with a non-empty saved time and permission `'granted'`. The schedule is exactly `scheduleNotification` of the saved time, so it keeps that time and has a positive delay. |
| Audio.ValidateDuration | src/lib/utils/audio.ts:84-92 | A recording is valid iff 3 ≤ seconds ≤ 300, with both bounds inclusive. Below 3 the result carries the "3초 이상" message, above 300 the "5분 이내" message, and a valid result carries none. |
| Emotions.FromNameOfName | src/lib/types.ts:25 | Each of the six emotions is recognised from its own name. |
| ImagePrompt.StylesDistinct | src/lib/prompts/image.ts:5-12 | The six `MOOD_STYLES` phrases are pairwise distinct. |
| ImagePrompt.MoodOfName | src/lib/prompts/image.ts:15 | Each emotion's own name selects that emotion's phrase. |
| ImagePrompt.Mood | src/lib/prompts/image.ts:15 | Corrected lookup: a recognised name selects its own phrase and every other string selects the neutral phrase. The result is always one of the six phrases. |
| ImagePrompt.MoodAsWritten | src/lib/prompts/image.ts:15 | The lookup as JavaScript evaluates it: the six names select their phrase, and a string that is neither an emotion nor an inherited object property falls back to neutral. |
| ImagePrompt.PrototypeNameEscapesFallback | src/lib/prompts/image.ts:15 | For the emotion string `"toString"`, the lookup as written gives the function's source text, which is none of the six phrases. |
| ImagePrompt.MoodAgreesAwayFromPrototype | src/lib/prompts/image.ts:15 | The written and corrected lookups agree on every string that is not an inherited object property. |
| ImagePrompt.TrimTemplate | src/lib/prompts/image.ts:17-29 | Trimming the filled template removes exactly its leading newline and trailing newline-and-tab, whatever the scene and mood hold. |
| ImagePrompt.Fill | src/lib/prompts/image.ts:17-29 | The trimmed prompt is the template body with the scene and mood in their slots. |
| ImagePrompt.PromptStart | src/lib/prompts/image.ts:18 | Every prompt starts with "Studio Ghibli style illustration". |
| ImagePrompt.PromptEnd | src/lib/prompts/image.ts:28-29 | Every prompt ends with "environment and atmosphere.". |
| ImagePrompt.PromptSlots | src/lib/prompts/image.ts:20-22 | The scene appears verbatim after "Scene Description: ", right after the opening paragraph. The mood phrase appears after "Mood & Atmosphere: ", right after the scene paragraph. |
| ImagePrompt.FillLaid | src/lib/prompts/image.ts:17-29 | Every filled template has the prompt layout `Laid`: the lead words first, the tail words last, and the scene and the mood phrase right after their labels in template order. |
| ImagePrompt.BuildImagePromptAsWritten | src/lib/prompts/image.ts:14-29 | `buildImagePrompt` as the source behaves: the prompt has the template layout with the scene in its slot and, in the mood slot, what the written lookup gives for the emotion, inherited property text included. |
| ImagePrompt.BuildImagePromptCorrected | src/lib/prompts/image.ts:14-29 | `buildImagePrompt` with the corrected lookup: the same layout, with one of the six mood phrases in the mood slot. |
| ImagePrompt.PromptMood | src/lib/prompts/image.ts:14-22 | The mood paragraph of `buildImagePrompt` as written holds what the written lookup gives: the emotion's phrase for one of the six names, an inherited property's text for a name `Object.prototype` supplies, and the neutral phrase otherwise. |
| ImagePrompt.PromptMoodCorrected | src/lib/prompts/image.ts:14-22 | The mood paragraph of the corrected builder holds the phrase the corrected lookup selects: the emotion's own phrase, or the neutral phrase for any other string. |
| ImagePrompt.PrototypePromptDiffers | src/lib/prompts/image.ts:14-22 | For the emotion `"toString"`, the prompt built as written differs from every prompt the corrected builder produces for the same scene. |
| ImagePrompt.BuildersAgreeAwayFromPrototype | src/lib/prompts/image.ts:14-22 | For every emotion string that is not an inherited object property, the builder as written and the corrected builder give the same prompt. |

## Left out

- OpenAI calls (`transcribe`, `analyze`, `generate-image`), client construction, cookies, auth callback and hooks are network and library plumbing. Every query result is an input.
- The service worker, the recording functions of `src/lib/utils/audio.ts` and the timecapsule, calendar and settings loaders are outside this model.
- Conversion of `created_at` timestamps to local calendar days, time zones and daylight-saving changes are left out. Days are integers, and day keys are given.
- The reminder clock has a fixed offset, so `setHours` on a local day is midnight plus hours and minutes. Within one `scheduleNotification` call, the two `new Date()` readings are treated as the same instant.
- The notification itself, `Notification.permission`, and `setTimeout`/`clearTimeout` are effects. The permission is a string input, and the timer id is an input.
- The quota increment is not modelled: no handler in the repository writes `daily_usage_count`.
- Emotion values outside the six are excluded by the types. In the statistics loop such a value would index a missing histogram key.
- A `limit` or `offset` that `parseInt` reads as `NaN` is modelled as `None` (the default), not as `NaN` in the range.
- Reminder.ParseTime: requires both fields to be decimal digit strings. `Number` of anything else (`NaN`, signs, spaces) is not modelled.
- Text.IntToString: models `String(n)` only below 10^21 in magnitude, where JavaScript switches to exponent notation.
- ProfileApi.Post: a nickname that is a non-string JSON value makes `trim` throw, answering 500; nicknames are modelled as strings only.
- The `updated_at` clock reading in the profile upsert and the Korean `message` texts of the error envelopes are left out.
- A failed streak query reads as an empty history, because the handlers ignore its error. The query is therefore modelled as the sequence of day numbers only.
- Audio.ValidateDuration: takes a real number of seconds. JavaScript's `NaN` fails both comparisons, so `validateDuration(NaN)` answers valid; the model has no `NaN`.
- JournalApi.OrZeroReal: has no `NaN` input, which `audioDuration || 0` would also map to 0. A JSON request body cannot carry `NaN`.
- Stats.WindowStart: the two `new Date()` readings of src/routes/api/stats/+server.ts:72-73 are treated as one instant, so the window start is exactly whole days before `now`.
- HomePage.Load and Accounts.PageStreak: `todayKey` and `yesterdayKey` are assumed to be the keys of `today` and `today - 1`; the local-calendar conversion that builds them is not modelled.
- JournalApi.ValidatePost: the body's fields are modelled as strings and numbers only. The handler's `!transcript || !summary || !emotion || !imageUrl` accepts any truthy JSON value (`transcript: 5` or `imageUrl: {}` pass and are inserted), and `emotionScore || 0` passes a truthy string through unchanged.
- The tests are not modelled. tests/reminder.spec.ts:108-116 expects a profile POST without a nickname to succeed, which the handler rejects; the model follows the handler.

## Findings

| source | as written | input that shows it | evidently intended | confidence | as-written member | corrected member |
|---|---|---|---|---|---|---|
| src/lib/prompts/image.ts:15 | the mood lookup indexes `MOOD_STYLES`, a plain object literal, with the raw string and falls back to neutral only on a falsy result, so names inherited from `Object.prototype` are found | emotion `"toString"` (also `"constructor"`, `"valueOf"`, `"__proto__"`, …) puts `function toString() { [native code] }` into the mood line | any string that is not one of the six emotion names selects the neutral phrase | not executed | ImagePrompt.MoodAsWritten, ImagePrompt.PrototypeNameEscapesFallback, ImagePrompt.BuildImagePromptAsWritten, ImagePrompt.PrototypePromptDiffers | ImagePrompt.Mood, ImagePrompt.BuildImagePromptCorrected |
| src/routes/api/journal/+server.ts:177-195 | only the save refreshes `streak_count` and `last_journal_date`; the delete changes the entries and leaves both columns alone, and the home page (src/routes/+page.server.ts:103-107) trusts them whenever the date is today's or yesterday's key | the only entry, on day 0, cached as streak 1 with key `1970-01-01`, is deleted; on day 0 the home page shows streak 1, while the streak of the entries left is 0 | the cached streak the home page shows equals the streak of the entries as they are, so a delete refreshes the cache as a save does | not executed | JournalApi.Delete, Accounts.PageStreak, JournalApi.StaleCacheAfterDelete | JournalApi.DeleteRefreshing, Accounts.RefreshCache, Accounts.RefreshedCacheSound, JournalApi.DeleteRefreshingSound |
