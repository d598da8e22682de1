# EDF Tempo for the Stream Deck — a Dafny model

EDF's Tempo tariff gives every day one of three colours: blue, white or red.
This project models the two programs that show those colours on Stream Deck keys.

- **The helper** (`helper/src/tempo_helper.py`) is a small Python HTTP server.
  - It periodically collects today's, tomorrow's and yesterday's colours and the season's day counters.
  - It falls back to EDF's own calendar when the primary API fails.
  - It keeps the result in a `TempoState`.
  - It serves that state on `/tempo`, `/stats` and `/health`.
- **The plugin** (`plugin/src/com.mynewit.edf-tempo.local.v2.sdPlugin/plugin.js`) runs inside the Stream Deck software.
  - It polls the helper, throttled to one fetch per 30 seconds unless forced.
  - It keeps the last snapshot.
  - It tracks the keys that are on screen, with their settings.
  - It draws each key as a coloured square with up to three lines of text.

The model describes every decision these programs make as pure functions over immutable data.

| module | file | what it holds |
|---|---|---|
| `Wrappers`, `Values`, `Colors`, `Text`, `Dates` | `wrappers.dfy`, `values.dfy`, `colors.dfy`, `text.dfy`, `dates.dfy` | Shared vocabulary (see below). |
| `HelperColors` | `helper_colors.dfy` | `normalize_color` and `code_to_color`. |
| `Fallback` | `helper_fallback.dfy` | Dates in and out of text. The by-date reduction of `fetch_edf_fallback`. |
| `HelperState` | `helper_state.dfy` | `TempoState` and `refresh`. |
| `Routes` | `helper_routes.dfy` | `do_GET`, including how `urllib.parse.urlparse` extracts the path. |
| `PluginColors` | `plugin_colors.dfy` | The plugin's `normalizeColor`, compared with the helper's. |
| `PluginCache` | `plugin_cache.dfy` | `lastTempo`, `refreshAll` and `onKeyDown`. |
| `PluginSettings` | `plugin_settings.dfy` | `DEFAULTS`, `mergeSettings`, the `contexts` map and the event handlers. |
| `PluginRender` | `plugin_render.dfy` | `formatDate`, `formatColorName`, `labelFor`, `countdownText`, the line filtering of `makeIcon`, `updateOne`. |

The shared modules hold:
- `Outcome` (a value or a failure message) and `Option`;
- JSON scalars with Python's and JavaScript's truthiness and string conversions;
- the four colours;
- ASCII text helpers: decimal numerals, padding, splitting, joining, strip and upper-case;
- civil dates with next/previous day.

Effects become parameters:
- **Fetches.** Each remote fetch is an `Outcome` argument. The helper has separate arguments for the primary days, the EDF payload, yesterday, the cached file's `today`, and the stats. The plugin has one for the `/tempo` reply and one for the `/stats` reply.
- **Clocks.** These are integer or date arguments:
  - the helper's `time.time()` and `datetime.now().date()`;
  - the plugin's `Date.now()`;
  - the local date and midnight that `updateOne` reads.
- **Plugin state.** The module-level `lastTempo` and `contexts` become the argument and the result of each handler.
- **Fetch log.** `refreshAll` also returns the list of endpoints it fetched, so that "no fetch happened" can be stated.

Behaviours of the code a reader may not expect, all modelled as written:
- **English colour names.** They are compared to the whole string in both programs. `BLUE SKY` is `UNKNOWN` (`HelperColors.BlueSkyIsUnknown`).
- **Extra settings keys.** `mergeSettings` keeps them instead of dropping them (`PluginSettings.MergeSettings`).
- **Failed key press.** A key press whose fetch fails still acknowledges success. `refreshAll` catches fetch errors itself, so the `catch` in `onKeyDown` never sees them. This is listed under Findings.
- **`fetchedAt`.** It is set to `now` on every fetch. It only moves forward when the clock does (`PluginCache.FetchedAtMonotone`).
- **"Used" label.** The French prefix for the used counter is kept exactly as the file spells it: the mis-encoded `PASSÃ‰`.

## Model

| member | source | states |
|---|---|---|
| HelperColors.Classify | helper/src/tempo_helper.py:35-41 | The result is BLUE exactly when the text contains BLEU or is BLUE. It is WHITE exactly when it is not blue and contains BLANC or is WHITE. It is RED exactly when it is neither and contains ROUGE or is RED. It is UNKNOWN otherwise. |
| HelperColors.NormalizeColor | helper/src/tempo_helper.py:31-41 | A falsy value (None, "", 0, False) is UNKNOWN. Any value whose stripped, upper-cased text contains BLEU is BLUE. |
| HelperColors.SuffixesRedundant | helper/src/tempo_helper.py:35-39 | The `_BLEU`, `_BLANC` and `_ROUGE` suffix tests never change the outcome: each is implied by the substring test before it. |
| HelperColors.NormalizeIgnoresCaseAndSpace | helper/src/tempo_helper.py:34 | Normalising a string gives the same colour as normalising its stripped, upper-cased form. |
| HelperColors.BlueWins | helper/src/tempo_helper.py:35-36 | Text that mentions BLEU is blue, whatever other colour names it also contains. |
| HelperColors.EnglishNamesMatchWhole | helper/src/tempo_helper.py:35-41 | `BLUE SKY` is UNKNOWN. ` blue ` is BLUE. `rouge et bleu` is BLUE. `TEMPO_ROUGE` is RED. |
| HelperColors.NamesRoundTrip | helper/src/tempo_helper.py:31-41 | The English and French name of every colour normalises back to that colour. |
| HelperColors.CodeToColor | helper/src/tempo_helper.py:43-48 | The result is BLUE, WHITE or RED exactly when `int(code)` succeeds with 1, 2 or 3 respectively. It is UNKNOWN otherwise. |
| HelperColors.IntOf | helper/src/tempo_helper.py:45 | `int(code)`: `None` and blank text raise, an integer is itself, and text that strips to digits reads as their decimal value. |
| HelperColors.IntOfShow | helper/src/tempo_helper.py:45 | `int(str(i)) == i` for every integer, negative ones included. |
| HelperColors.CodeToColorAgreesWithStr | helper/src/tempo_helper.py:43-48 | An integer code and its decimal text map to the same colour. |
| Fallback.FmtNoLeadingZeros | helper/src/tempo_helper.py:81-82 | The result is three dash-separated numerals, none starting with 0. |
| Fallback.FmtNoLeadingZerosRoundTrip | helper/src/tempo_helper.py:81-82 | Parsing the formatted date gives the date back. |
| Fallback.FmtNoLeadingZerosExample | helper/src/tempo_helper.py:81-82 | 5 March 2024 is written `2024-3-5`. |
| Fallback.IsoFormat | helper/src/tempo_helper.py:102-103 | For years up to 9999 the ISO form is ten characters long. |
| Fallback.IsoFormatRoundTrip | helper/src/tempo_helper.py:102-103 | Parsing the ISO form gives the date back. |
| Fallback.IsoFormatInjective | helper/src/tempo_helper.py:102-103 | Different dates have different ISO keys, so today's and tomorrow's lookups cannot collide. |
| Fallback.Entries | helper/src/tempo_helper.py:95 | The first non-empty list among `content`, `jours` and `data` is used, in that order. When all three are empty the result is `data`'s empty list. |
| Fallback.DateKey | helper/src/tempo_helper.py:101 | The key is the first ten characters of `str(dj)`, or all of it when shorter. |
| Fallback.ItemColor | helper/src/tempo_helper.py:99-101 | An integer code, or a code whose text is all digits, goes through `code_to_color`. Any other text goes through `normalize_color`. A `None` or boolean code fails `isdigit` (its text is `None`, `True` or `False`), so it comes out UNKNOWN. |
| Fallback.NegativeCodeUnknown | helper/src/tempo_helper.py:101 | A negative integer code fails `isdigit`, and `normalize_color` gives UNKNOWN for it. |
| Fallback.ReduceByDate | helper/src/tempo_helper.py:96-101 | The loop's result; what it holds is stated by Fallback.ReduceByDateKeys, Fallback.ReduceByDateLast and Fallback.ReduceByDateAbsent below. |
| Fallback.ReduceByDateKeys | helper/src/tempo_helper.py:96-101 | A date is a key of `by_date` exactly when some entry with a truthy date has that key. |
| Fallback.ReduceByDateLast | helper/src/tempo_helper.py:96-101 | The colour stored for a date is that of the last entry with that key. |
| Fallback.ReduceByDateAbsent | helper/src/tempo_helper.py:96-101 | A date that no entry carries is not in `by_date`. |
| Fallback.FallbackDays | helper/src/tempo_helper.py:84-104 | Today's and tomorrow's colours are those of the last entries dated today and tomorrow. A day that no entry covers is UNKNOWN. |
| HelperState.Days | helper/src/tempo_helper.py:153-161 | The primary source's days when it succeeded, whatever the EDF calendar says; else the EDF fallback's days (Fallback.FallbackDays); else UNKNOWN for both. |
| HelperState.Errors | helper/src/tempo_helper.py:151-183 | The error list is empty exactly when the primary, yesterday and stats fetches succeed. It holds one entry per failed step, in the order the steps run: primary, then EDF (only after a primary failure), then `yesterday failed: …`, then `stats failed: …` last. No entry is empty. |
| HelperState.ErrorText | helper/src/tempo_helper.py:190 | `last_error` is empty exactly when the primary, yesterday and stats fetches succeeded. Otherwise it starts with the primary failure, followed by ` \| edf failed: …` when the fallback failed too. It contains `yesterday failed: …` when yesterday's fetch failed, and ends with `stats failed: …` when the stats fetch failed. |
| HelperState.EarlyErrorsJoined | helper/src/tempo_helper.py:151-161 | The joined `last_error` is empty exactly when nothing failed, starts with the primary failure, and continues with ` \| edf failed: …` when the fallback failed too. |
| HelperState.Refresh | helper/src/tempo_helper.py:150-191 | Days come from the primary API, else from the EDF fallback, else UNKNOWN. Yesterday comes from the API, else from the cached `today`, else UNKNOWN. Stats come from the API, else `{}`. `last_update` is now. The error text is as above. |
| HelperState.TotalFailureForgets | helper/src/tempo_helper.py:150-191 | When every source fails and no cache exists, the state is all UNKNOWN with empty stats. The previous colours are not kept. |
| HelperState.LaterErrorsJoined | helper/src/tempo_helper.py:168-190 | The joined `last_error` contains the yesterday failure message when that fetch failed, and ends with the stats failure message when that fetch failed. |
| Routes.LeftStripC0 | helper/src/tempo_helper.py:207 | `urlparse` first drops leading control characters and spaces. What remains is a suffix of the input that starts with neither, and every dropped character is one of them. |
| Routes.RemoveUnsafe | helper/src/tempo_helper.py:207 | The result contains no tab, CR or LF. |
| Routes.RemoveUnsafeAppend | helper/src/tempo_helper.py:207 | Removing tabs and line breaks distributes over concatenation. |
| Routes.SplitScheme | helper/src/tempo_helper.py:207 | When the text before the first colon is a letter followed by scheme characters, it is split off, lower-cased, as the scheme, and the rest follows the colon. Otherwise the scheme is empty and the URL is left whole. |
| Routes.SchemeSplitOff | helper/src/tempo_helper.py:207 | Whenever the text before the first colon has the shape of a scheme, `urlsplit` splits it off, lower-cased, and the rest is what follows that colon. |
| Routes.SplitNetloc | helper/src/tempo_helper.py:207 | Without a leading `//` there is no network location. With one, the URL is `//` + netloc + rest. The netloc holds none of `/?#`. The rest is empty or starts with one of them. |
| Routes.UrlPath | helper/src/tempo_helper.py:207 | The extracted path never contains `?` or `#`. |
| Routes.Respond | helper/src/tempo_helper.py:208-217 | `/tempo` and `/tempo/` get 200 with the whole state. `/stats` and `/stats/` get 200 with its stats only. `/health` and `/health/` get 200 with `{"ok": true}`. Every other path gets 404 `not found`. |
| Routes.DoGet | helper/src/tempo_helper.py:206-217 | A request target that `urlparse` rejects gets no reply. Otherwise the reply is the one Routes.Respond gives for the parsed path, so its status is 404 exactly when that path is not served. |
| Routes.OriginFormPath | helper/src/tempo_helper.py:207 | For a plain `/…` target without `?` or `#`, the path is the target up to its parameters. It is the whole target when there is no `;`. |
| Routes.QueryIgnored | helper/src/tempo_helper.py:206-217 | Adding a query string to a `/…` target changes neither the path nor the reply. |
| Routes.ServedRoute | helper/src/tempo_helper.py:208-216 | Each of the six served paths, with or without a query, is answered with status 200 and its body. |
| Routes.UnservedRoute | helper/src/tempo_helper.py:217 | Any other simple path, with any query, gets 404 `not found`. |
| Routes.AbsoluteForm | helper/src/tempo_helper.py:207 | For an absolute `scheme://host/path` target, the path is what follows the host. |
| Routes.PluginUrlRoutes | helper/src/tempo_helper.py:206-216 | The absolute URLs the plugin requests (`http://host/tempo`, `http://host/stats`) reach the same handler as their paths. |
| Routes.BeforeFirstRefresh | helper/src/tempo_helper.py:107-114 | Before the first refresh `/tempo` serves the state `TempoState()` starts in: all three days UNKNOWN, stats `{}`, `last_error` empty, `last_update` 0. |
| PluginColors.NormalizeColor | plugin/src/com.mynewit.edf-tempo.local.v2.sdPlugin/plugin.js:71-77 | A falsy value is UNKNOWN. Otherwise the upper-cased text classifies with the same priority as the helper: contains BLEU or is BLUE, then BLANC/WHITE, then ROUGE/RED. |
| PluginColors.AgreesWithHelper | plugin/src/com.mynewit.edf-tempo.local.v2.sdPlugin/plugin.js:71-77 | On strings without surrounding white space, the plugin and the helper give the same colour. |
| PluginColors.AgreesWithHelperOnInts | plugin/src/com.mynewit.edf-tempo.local.v2.sdPlugin/plugin.js:71-77 | On integers the plugin and the helper give the same colour. |
| PluginColors.PaddedBlueDiffers | plugin/src/com.mynewit.edf-tempo.local.v2.sdPlugin/plugin.js:72-73 | ` blue ` is UNKNOWN for the plugin, which does not trim, but BLUE for the helper. |
| PluginColors.NamesRoundTrip | plugin/src/com.mynewit.edf-tempo.local.v2.sdPlugin/plugin.js:71-77 | The English and French name of every colour normalises back to that colour. |
| PluginCache.RefreshAll | plugin/src/com.mynewit.edf-tempo.local.v2.sdPlugin/plugin.js:85-104 | See the RefreshAll rows below this table. |
| PluginCache.ThrottleWindow | plugin/src/com.mynewit.edf-tempo.local.v2.sdPlugin/plugin.js:87 | A non-forced refresh within 30 s of a fetch fetches nothing. |
| PluginCache.FetchAfterInterval | plugin/src/com.mynewit.edf-tempo.local.v2.sdPlugin/plugin.js:87 | A non-forced refresh 30 s or more after a fetch fetches again and records the new time. |
| PluginCache.ForceFetches | plugin/src/com.mynewit.edf-tempo.local.v2.sdPlugin/plugin.js:85-87 | A forced refresh always fetches and records the time. |
| PluginCache.StartupThenPoll | plugin/src/com.mynewit.edf-tempo.local.v2.sdPlugin/plugin.js:197-202 | The forced start-up refresh fetches, and so does the first 60-second poll after it. |
| PluginCache.FirstRefreshFetches | plugin/src/com.mynewit.edf-tempo.local.v2.sdPlugin/plugin.js:5 | The initial `lastTempo` shows every day UNKNOWN, and its `fetchedAt` of 0 lets any refresh, forced or not, fetch once the clock reads 30 s or more. |
| PluginCache.FetchedAtMonotone | plugin/src/com.mynewit.edf-tempo.local.v2.sdPlugin/plugin.js:101 | When the clock has not gone back, `fetchedAt` never decreases and never passes now. |
| PluginCache.SuccessForgetsPrevious | plugin/src/com.mynewit.edf-tempo.local.v2.sdPlugin/plugin.js:89-97 | After a successful forced refresh, nothing of the previous snapshot remains. |
| PluginCache.FailureKeepsPrevious | plugin/src/com.mynewit.edf-tempo.local.v2.sdPlugin/plugin.js:98-101 | A failed fetch changes only the error text and `fetchedAt`, and contacts only `/tempo`. |
| PluginCache.StatsFallback | plugin/src/com.mynewit.edf-tempo.local.v2.sdPlugin/plugin.js:93-96 | The stats end up empty exactly when `/tempo` had none and `/stats` failed or was empty. |
| PluginCache.KeyDownAsWritten | plugin/src/com.mynewit.edf-tempo.local.v2.sdPlugin/plugin.js:66-69 | A key press runs a forced refresh and, as written, always acknowledges success. |
| PluginCache.KeyDown | plugin/src/com.mynewit.edf-tempo.local.v2.sdPlugin/plugin.js:66-69 | A key press runs a forced refresh. It shows an alert exactly when the fetch failed, and the error is then recorded. |
| PluginCache.KeyDownNeverAlerts | plugin/src/com.mynewit.edf-tempo.local.v2.sdPlugin/plugin.js:66-69 | A failed fetch is acknowledged with OK as written, and with an alert once corrected. |
| PluginSettings.MergeSettings | plugin/src/com.mynewit.edf-tempo.local.v2.sdPlugin/plugin.js:41 | The keys are the defaults' plus the given ones. A given value overrides the default. Nothing else changes. |
| PluginSettings.MergeIdempotent | plugin/src/com.mynewit.edf-tempo.local.v2.sdPlugin/plugin.js:41 | Merging an already merged object changes nothing. |
| PluginSettings.MergeNothing | plugin/src/com.mynewit.edf-tempo.local.v2.sdPlugin/plugin.js:41 | Missing or empty settings give exactly `DEFAULTS`. |
| PluginSettings.WillAppear | plugin/src/com.mynewit.edf-tempo.local.v2.sdPlugin/plugin.js:44-49 | The key is registered, or re-registered, with its action and its merged, complete settings. Other keys are untouched. |
| PluginSettings.WillDisappear | plugin/src/com.mynewit.edf-tempo.local.v2.sdPlugin/plugin.js:24 | Only that key is removed. Removing an unknown key changes nothing. |
| PluginSettings.DidReceiveSettings | plugin/src/com.mynewit.edf-tempo.local.v2.sdPlugin/plugin.js:50-55 | A known key gets the merged settings and keeps its action. An unknown key changes nothing. |
| PluginSettings.SendToPlugin | plugin/src/com.mynewit.edf-tempo.local.v2.sdPlugin/plugin.js:56-65 | Settings are replaced only for a known key and only when some were sent. |
| PluginSettings.Dispatch | plugin/src/com.mynewit.edf-tempo.local.v2.sdPlugin/plugin.js:20-30 | `keyDown` and unknown events leave the context map as it is. No event changes or removes a key other than the one it targets, and none adds such a key. |
| PluginSettings.DispatchFrame | plugin/src/com.mynewit.edf-tempo.local.v2.sdPlugin/plugin.js:20-30 | An event leaves every key it does not target exactly as it was. |
| PluginSettings.DispatchKeys | plugin/src/com.mynewit.edf-tempo.local.v2.sdPlugin/plugin.js:20-30 | Only `willAppear` adds keys and only `willDisappear` removes them. |
| PluginSettings.RunWellFormed | plugin/src/com.mynewit.edf-tempo.local.v2.sdPlugin/plugin.js:20-30 | After any sequence of events, every registered key has complete settings. |
| PluginSettings.AppearDisappear | plugin/src/com.mynewit.edf-tempo.local.v2.sdPlugin/plugin.js:23-24 | A new key that appears and then disappears leaves the registry as before. |
| PluginRender.KindOf | plugin/src/com.mynewit.edf-tempo.local.v2.sdPlugin/plugin.js:150 | An action is a stats key exactly when it is one of the three stats UUIDs. A stats key always names a real colour. |
| PluginRender.KindOfActionOf | plugin/src/com.mynewit.edf-tempo.local.v2.sdPlugin/plugin.js:3 | Each of the six declared actions is recognised as its own kind. |
| PluginRender.DefaultsView | plugin/src/com.mynewit.edf-tempo.local.v2.sdPlugin/plugin.js:11 | Defaults: French, `ddmmyy`, label, date and colour text on, timer off. |
| Text.Pad2 | plugin/src/com.mynewit.edf-tempo.local.v2.sdPlugin/plugin.js:106 | At least two characters; Text.Pad2Shape and Text.Pad2Value state the rest. |
| Text.Pad2Shape | plugin/src/com.mynewit.edf-tempo.local.v2.sdPlugin/plugin.js:106 | `padStart(2, "0")` only prepends zeros: the result ends with `String(n)` and is two characters long, or as long as `String(n)` when that is longer. |
| Text.Pad2Value | plugin/src/com.mynewit.edf-tempo.local.v2.sdPlugin/plugin.js:106 | A padded non-negative number is all digits and reads back as itself, in exactly two digits below 100. |
| PluginRender.FormatDate | plugin/src/com.mynewit.edf-tempo.local.v2.sdPlugin/plugin.js:107-110 | At least seven characters; PluginRender.FormatDateDecode states how the day, month and year read back in each format. |
| PluginRender.FormatDateDecode | plugin/src/com.mynewit.edf-tempo.local.v2.sdPlugin/plugin.js:107-110 | A date renders as `NN/NN/NN`. The fields read back as day, month and year mod 100, with day and month swapped for `mmddyy`. |
| PluginRender.FormatDateExample | plugin/src/com.mynewit.edf-tempo.local.v2.sdPlugin/plugin.js:107-110 | 5 March 2024 is `05/03/24`, or `03/05/24` in `mmddyy`. |
| PluginRender.LastTwoDigits | plugin/src/com.mynewit.edf-tempo.local.v2.sdPlugin/plugin.js:108 | The last two characters of a year of two digits or more are digits that read as the year mod 100. |
| PluginRender.FormatColorName | plugin/src/com.mynewit.edf-tempo.local.v2.sdPlugin/plugin.js:111-114 | The name is never empty. It is `N/A` exactly for UNKNOWN. |
| PluginRender.FormatColorNameRoundTrip | plugin/src/com.mynewit.edf-tempo.local.v2.sdPlugin/plugin.js:111-114 | The displayed name of a real colour normalises back to that colour, in either language. |
| PluginRender.LabelFor | plugin/src/com.mynewit.edf-tempo.local.v2.sdPlugin/plugin.js:115-119 | Every day kind has a non-empty label. |
| PluginRender.LabelsDistinct | plugin/src/com.mynewit.edf-tempo.local.v2.sdPlugin/plugin.js:115-119 | The three day kinds have different labels in either language, and no English label is a French one. |
| PluginRender.CountdownText | plugin/src/com.mynewit.edf-tempo.local.v2.sdPlugin/plugin.js:120-127 | Starts with `LEFT ` in English, else `RESTE `; PluginRender.CountdownDecode states that the rest reads back as the whole minutes to go. |
| PluginRender.CountdownDecode | plugin/src/com.mynewit.edf-tempo.local.v2.sdPlugin/plugin.js:120-127 | The countdown is the language's prefix followed by `HH:MM`. HH has two or more digits. MM is below 60. HH×60+MM is the whole minutes remaining, with a past deadline counting as zero. |
| PluginRender.CountdownPast | plugin/src/com.mynewit.edf-tempo.local.v2.sdPlugin/plugin.js:122 | A passed deadline shows `00:00`. |
| PluginRender.CountdownExample | plugin/src/com.mynewit.edf-tempo.local.v2.sdPlugin/plugin.js:120-127 | Fourteen hours before the deadline, in English, shows `LEFT 14:00`. |
| PluginRender.Deadline | plugin/src/com.mynewit.edf-tempo.local.v2.sdPlugin/plugin.js:182-186 | Midnight at the end of today, unless the mode is `endOfTargetDay`. Then it is the end of the day shown: today's midnight for yesterday, two days on for tomorrow. |
| PluginRender.DayLines | plugin/src/com.mynewit.edf-tempo.local.v2.sdPlugin/plugin.js:168-191 | The lines are: label if on, date if on, then the countdown if the timer is on, else the colour's name if colour text is on. The `lines.length<2` guard never suppresses the name. |
| PluginRender.Shown | plugin/src/com.mynewit.edf-tempo.local.v2.sdPlugin/plugin.js:162-163 | A counter shows `?` exactly when it is missing or null (or is literally `?`). |
| PluginRender.StatsLines | plugin/src/com.mynewit.edf-tempo.local.v2.sdPlugin/plugin.js:150-164 | There are exactly three non-empty lines: the colour's name, the remaining count and the used count, read from `<key>_left` and `<key>_used`. |
| PluginRender.ZeroCounterShown | plugin/src/com.mynewit.edf-tempo.local.v2.sdPlugin/plugin.js:162 | A counter of 0 is shown as `0`, not `?`. |
| PluginRender.NonEmpty | plugin/src/com.mynewit.edf-tempo.local.v2.sdPlugin/plugin.js:136 | The filter keeps exactly the non-empty lines. A list with no empty line is unchanged. |
| PluginRender.NonEmptyAppend | plugin/src/com.mynewit.edf-tempo.local.v2.sdPlugin/plugin.js:136 | Filtering distributes over concatenation. |
| PluginRender.SafeLines | plugin/src/com.mynewit.edf-tempo.local.v2.sdPlugin/plugin.js:136 | The drawn lines are the first `min(3, n)` of the `n` non-empty lines. |
| PluginRender.SafeLinesIdempotent | plugin/src/com.mynewit.edf-tempo.local.v2.sdPlugin/plugin.js:136 | Applying the filter twice is the same as once. |
| PluginRender.MakeIcon | plugin/src/com.mynewit.edf-tempo.local.v2.sdPlugin/plugin.js:128-142 | The icon keeps the background and text colour and draws the safe lines. |
| PluginRender.UpdateOne | plugin/src/com.mynewit.edf-tempo.local.v2.sdPlugin/plugin.js:145-194 | The background is the key's colour, which is its tariff for a stats key. The text is inverted exactly for WHITE. The key has at most three non-empty lines. |
| PluginRender.RenderAll | plugin/src/com.mynewit.edf-tempo.local.v2.sdPlugin/plugin.js:199 | Every registered key, and no other, is redrawn from the same snapshot. |
| PluginRender.StatsKeyThreeLines | plugin/src/com.mynewit.edf-tempo.local.v2.sdPlugin/plugin.js:150-165 | A stats key draws its three lines unfiltered. |
| PluginRender.DayKeyLines | plugin/src/com.mynewit.edf-tempo.local.v2.sdPlugin/plugin.js:168-193 | A colour key draws its day lines unfiltered. |
| PluginRender.AllTogglesOff | plugin/src/com.mynewit.edf-tempo.local.v2.sdPlugin/plugin.js:178-191 | With every toggle off, a colour key has no text. |
| PluginRender.TimerWins | plugin/src/com.mynewit.edf-tempo.local.v2.sdPlugin/plugin.js:182-188 | With the timer on, the last line is the countdown, whatever the colour-text toggle says. |
| PluginRender.YesterdayTimerExpired | plugin/src/com.mynewit.edf-tempo.local.v2.sdPlugin/plugin.js:182-187 | Yesterday's key counting to the end of its own day always shows `00:00`. |
| PluginRender.DefaultTodayKey | plugin/src/com.mynewit.edf-tempo.local.v2.sdPlugin/plugin.js:168-193 | A today key with default settings shows `AUJ`, the date as `dd/mm/yy` and the colour's French name. |
| PluginRender.FailureKeepsIcons | plugin/src/com.mynewit.edf-tempo.local.v2.sdPlugin/plugin.js:98-102 | After a failed fetch, every key is redrawn exactly as before. |
| PluginRender.PressShowsBlue | plugin/src/com.mynewit.edf-tempo.local.v2.sdPlugin/plugin.js:44-69 | A new today key with empty settings, pressed while `/tempo` says BLEU, turns `#005AC8` and is acknowledged with OK. |
| Dates.NextPrevInverse | plugin/src/com.mynewit.edf-tempo.local.v2.sdPlugin/plugin.js:171-172 | The next and previous day are inverse to each other on valid dates. The plugin uses both, for the tomorrow and yesterday keys; the helper uses the next day for tomorrow's key (tempo_helper.py:103). |
| Dates.Shift | plugin/src/com.mynewit.edf-tempo.local.v2.sdPlugin/plugin.js:171-172 | The shifted date is valid. It is today, or the day after, or the day before, as the offset says. |

`PluginCache.RefreshAll` (plugin.js:85-104) states the following:
- Inside the throttle window nothing is fetched and nothing changes.
- Otherwise `fetchedAt` becomes now and `/tempo` is fetched first.
- A failure keeps colours and stats, and records the error.
- A success normalises the three colours and takes `last_error || ""`.
- `/stats` is fetched exactly when `/tempo` brought no stats.
- Non-empty stats from `/tempo` are kept.
- Otherwise the stats come from `/stats`, or are `{}` when that failed.

## Left out

- Network, files, threads and sockets are left out. Each fetch is an argument, and so is the cache file's `today`. The HTTP server loop, `_send_json`, the WebSocket connection and the Stream Deck messages (`setImage`, `setTitle`, `showOk`, `showAlert`, `getSettings`, `setSettings`) are not modelled. Handlers return the new state, or the acknowledgement they would send.
- `fetch_primary`, `fetch_primary_yesterday` and `fetch_primary_stats` decode remote JSON. They are not modelled. Their results are the `Outcome` arguments of `HelperState.Refresh`. The bounds and URL that `fetch_edf_fallback` sends are not modelled either, except for their date format (`Fallback.FmtNoLeadingZeros`).
- The cache file's `today` entry is taken to be a colour name the helper wrote itself. The code copies the raw value without normalising it, so a hand-edited or `null` entry would be served as it is; `Sources.cachedToday` holds a colour.
- `load_cache`, `save_cache` and the `lock` are file and thread plumbing. They are not modelled.
- The `refresh crashed` path of `start_refresher`, `main` and the argument parsing are left out. So are the sleep interval and the `flash` timeout.
- The plugin's timers (`setInterval`, five seconds and sixty seconds) are left out. They only call `RenderAll` and `RefreshAll(force=false)`, which are modelled.
- Interleavings while `refreshAll` awaits a fetch are not modelled. Each refresh is one atomic step.
- `makeIcon`'s canvas drawing (fonts, positions, PNG encoding) is left out. Only the chosen lines, background and text colour are modelled.
- Time stamps are whole numbers. `time.time()` is a float, and `to_dict` truncates it with `int`; the helper's `last_update` is modelled as that integer directly.
- Fallback.Entries: the EDF response is modelled as an object whose members are lists of objects. When the decoded body is not an object, when the value the `or` chain picks is truthy but not a list, or when an entry is not an object, the loop raises. `refresh` then records `edf failed: …` and keeps both days UNKNOWN. The model takes such a response to arrive at `HelperState.Refresh` as `edf: Fail(…)`, so `Fallback.FallbackDays` is only applied to well-shaped responses.
- JSON values are null, booleans, integers and strings. Floats, nested objects in settings or stats, and non-object truthy values in `stats`/`settings` are not modelled.
- Case mapping and white space are ASCII only. Python's `str.upper`/`strip`, and JavaScript's `toUpperCase`, also map non-ASCII letters and Unicode spaces. `int()` on strings with underscores or non-ASCII digits is treated as failing.
- Time zones and daylight-saving changes are left out. The renderer's `Clock` carries the local date and local midnight. `countdownText` reads `new Date()` again; the model uses the same `now`.
- `urlparse`'s checks of IPv6 brackets and NFKC normalisation of the network location are left out. So is the normalisation `http.server` applies to request targets starting with `//`. Unbalanced brackets are modelled as the `ValueError` that produces no reply.
- `pi.js` (the settings page) is not part of this model. Its settings arrive as the `Option<Settings>` of the handlers.
- HelperColors.NormalizeColor: its own contract states only the falsy case and the BLEU case. The full three-way classification is stated on `HelperColors.Classify`, which it applies to the canonical text.
- Fallback.IsoFormat: years above 9999, which Python's `date` cannot hold anyway, are not bounded in length.
- PluginCache.FetchedAtMonotone: holds only when the clock does not go back, because `fetchedAt` is overwritten with `now`.

## Findings

| source | as written | input that shows it | evidently intended | confidence | as-written member | corrected member |
|---|---|---|---|---|---|---|
| plugin/src/com.mynewit.edf-tempo.local.v2.sdPlugin/plugin.js:66-69 | `onKeyDown` shows an alert only when `refreshAll` rejects. `refreshAll` catches every fetch error itself (lines 88-100), so a failed fetch is acknowledged with OK. | A key press while the helper is unreachable: `/tempo` fails with any message. | A failed manual refresh shows the alert, and a successful one shows OK. | medium, not executed | PluginCache.KeyDownAsWritten (counterexample: PluginCache.KeyDownNeverAlerts) | PluginCache.KeyDown |
