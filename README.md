# Quran Tracker core, modelled in Dafny

Quran Tracker is a small browser app for reading the Quran (`app.js`). Almost all of it is DOM,
fetch and timer plumbing. This project models the rules that sit inside that plumbing and proves
properties about them.

- **Reader composition** (`Composer`). This is the part of `loadSurah` that turns a surah's entry
  in quran.json into what the reader shows:
  - an optional opener;
  - then one verse unit per ayah, in `Object.entries` order, each with its translation or a
    placeholder;
  - plus the verse count of the header.

  The loop is a method, `AppendVerseUnits`, called by `ComposeSurah`. Both are proved equal to
  the specification function `Compose`.
- **Translation lookup** (`Translation`). This is the guarded lookup
  `translationsData[lang][surah].ayahs[ayah] || placeholder`. It has two call sites with
  different placeholders.
- **Clock text** (`Clock`, `Numerals`):
  - `formatTime` for the time-spent statistic;
  - `formatTimerTime` for the stopwatch display;
  - the hour-of-day greeting.

  The JavaScript builtins they use are written out: `toString`, `padStart`, `parseInt` with no
  radix, floor division, and the truncating `%`.
- **Time-bounded cache** (`Cache`). This is `saveToCache`/`loadFromCache` over localStorage,
  modelled as a class over a map. The clock is a parameter.
- **Application state** (`App`, `Stopwatch`). This is the global `state` object as a class, with
  these handlers as methods:
  - `navigate`'s page guard;
  - the state changes of `loadSurah`;
  - the three stopwatch handlers.

  The stopwatch transitions are also given as pure functions on a `Timer` value. The lemmas about
  pause, resume and tick are stated on those functions.

Object keys are ordered the JavaScript way: integer-like keys come in ascending numeric order. So
an `ayahs` object is a `map<nat, string>` walked in ascending key order (`Composer.Ascending`).
Surah keys stay strings, because the surah number arrives as the `<select>` value.

### Behaviour of the code that the model keeps
- No surah, chapter 1 included, gets any treatment except the rule "opener unless the number
  parses to 9".
- Verse 1 is never split.
- Gaps in the ayah numbering are not truncated.
- An `ayahs` object with no keys renders zero verses; it is not an error.
- A surah entry with no `ayahs` object fails with `AyahsMissing` after it has been counted. In the
  code this is the `TypeError` of `Object.entries(undefined)`, which lands in `loadSurah`'s catch
  after the `surahsRead++` at app.js:417.

## Model

| member | source | states |
|---|---|---|
| Composer.OpenerText | app.js:426 | `surah.bismillah \|\| default`: the surah's own opener text when it is present and non-empty, the default otherwise; never empty |
| Composer.ComposeSurah | app.js:420-454 | builds exactly the composition `Compose` specifies: the opener units, then a verse unit per key in ascending order, and the key count; no `ayahs` object gives `AyahsMissing` |
| Composer.AppendVerseUnits | app.js:435-452 | the loop over `Object.entries(surah.ayahs)` appends to what was built exactly the verse units of all keys, smallest key first |
| Composer.ComposeOpener | app.js:423-433 | the first unit is an opener iff `parseInt(surahNumber) !== 9`; it carries `surah.bismillah` or the default and the fixed English line; every later unit is a verse |
| Composer.ComposeVerses | app.js:435-452 | after the opener there are exactly as many units as ayah keys; each is a verse whose number is a key, with that key's text and its reader translation; the numbers strictly ascend and every key is shown, so each key appears exactly once |
| Composer.VersesAfter | app.js:435-452 | after the units already built, the unit at position prefix length + i is the verse unit of the i-th smallest ayah key |
| Composer.VersesAfterContent | app.js:435-452 | after the units already built, each unit is a verse of a key with its text and reader translation, in strictly ascending key order, and every key appears |
| Composer.ComposeCount | app.js:454 | the reported verse count is the number of ayah keys and equals the number of verse units; the opener is not counted |
| Composer.ComposeFails | app.js:435 | composition fails exactly when the surah has no `ayahs` object, with `AyahsMissing` |
| Composer.CanonicalKeyOpener | app.js:423-424 | for a key written as a decimal number, the opener is shown iff that number is not 9 |
| Composer.AscendingIncreasing | app.js:435 | the `Object.entries` order of integer keys is strictly increasing |
| Composer.AscendingCovers | app.js:435 | every key of the object is visited |
| Composer.AscendingLength | app.js:435 | the walk visits as many entries as the object has keys |
| Composer.HasOpener | app.js:423-424 | the opener test `parseInt(surahNumber) !== 9`, with `NaN` differing from 9; for decimal keys it is stated by `CanonicalKeyOpener` |
| Composer.OpenerUnits | app.js:424-433 | the opener block: one opener unit with `OpenerText` and the fixed English line when `HasOpener` holds, nothing otherwise; stated by `ComposeOpener` |
| Composer.VerseUnit | app.js:436-451 | one verse block: the ayah number, its text and its reader translation; stated by `ComposeVerses` |
| Composer.Compose | app.js:420-454 | the specification of the rendering: the opener units, then the verse units in ascending key order, and the key count; its properties are `ComposeOpener`, `ComposeVerses`, `ComposeCount` and `ComposeFails` |
| Translation.LookupTranslation | app.js:436-441 | the stored text is returned iff the language, surah, `ayahs` and a non-empty text for the ayah are all present; otherwise the placeholder |
| Translation.ReaderTranslation | app.js:437-441 | the reader's lookup gives the stored translation or "No translation available" |
| Translation.DailyTranslation | app.js:703-708 | the daily verse's lookup gives the stored translation or "Translation not available" |
| Translation.TwinLookups | app.js:436-441 | the two call sites agree exactly when a translation is stored; otherwise each shows its own placeholder |
| Translation.UnloadedLanguage | app.js:439 | a language never loaded, or nulled by a failed load, shows the placeholder for every ayah |
| Clock.ClockFieldsSplit | app.js:267-269 | hrs·3600 + mins·60 + secs equals the input, with 0 ≤ mins, secs < 60 |
| Clock.FormatTimeShape | app.js:266-276 | `formatTime` writes three fields iff the input reaches 3600 s; mins and secs are two digits when hours are shown; otherwise the minutes are unpadded and the seconds are two digits |
| Clock.FormatTimeRoundTrip | app.js:266-276 | reading the text of `formatTime` back gives the number of seconds |
| Clock.FormatTimerTimeShape | app.js:543-548 | `formatTimerTime` always writes three fields of at least two digits, with exactly two for minutes and seconds, and for hours below 100; it reads back to the input |
| Clock.Pad2Length | app.js:272 | `toString().padStart(2, '0')` has at least two characters, and exactly two below 100 |
| Clock.JsRem | app.js:268-269 | JavaScript `%` is the remainder of truncating division: a = trunc(a/b)·b + r; for a ≥ 0 it is the mathematical remainder in [0, b); for a < 0 it lies in (−b, 0] |
| Clock.JsRemNegative | app.js:269 | `-1 % 60` is −1 in JavaScript, while the mathematical remainder is 59 |
| Clock.ClockFields | app.js:267-269 | the hours, minutes and seconds fields of both formatters; their meaning is stated by `ClockFieldsSplit` |
| Clock.Pad2 | app.js:272 | `n.toString().padStart(2, '0')`; its length is stated by `Pad2Length` |
| Clock.FormatTime | app.js:266-276 | `formatTime`; its shape and read-back are stated by `FormatTimeShape` and `FormatTimeRoundTrip` |
| Clock.FormatTimerTime | app.js:543-548 | `formatTimerTime`; its shape and read-back are stated by `FormatTimerTimeShape` |
| Clock.FormatTimeNegative | app.js:266-276 | for −30 seconds `formatTime` writes `-1:-30`, which does not read back as a clock value |
| Clock.GreetingLine | app.js:143 | the greeting text `Assalamu'alaikum (<greeting>)`; the part in brackets is fixed by `Greeting` |
| Clock.Greeting | app.js:134-139 | Morning iff 5 ≤ hour < 12, Afternoon iff 12 ≤ hour < 18, Evening iff 18 ≤ hour < 22, Night otherwise |
| Clock.GreetingNeverDefault | app.js:134-139 | the initial greeting value is always overwritten |
| Numerals.NatToString | app.js:272 | `toString` of a non-negative integer is a non-empty string of digits without a leading zero, one digit iff below 10 |
| Numerals.NatToStringValue | app.js:272 | the digits of n have the value n |
| Numerals.PadStart | app.js:272 | `padStart` reaches the width and never shortens |
| Numerals.PadStartShape | app.js:272 | `padStart` keeps the string as the suffix of the result and fills the front with the filler |
| Numerals.ParseIntNatToString | app.js:423 | `parseInt` reads back the decimal text of a non-negative integer |
| Numerals.IntToString | app.js:272 | `toString` of an integer: a minus sign iff negative, then the digits of its magnitude, without a leading zero |
| Numerals.ParseIntIntToString | app.js:272 | `parseInt` reads back the `toString` text of every integer, negative ones included |
| Numerals.ParseInt | app.js:423 | `parseInt` with no radix: leading white space, an optional sign, a hexadecimal `0x` prefix, then the longest digit prefix; no digits give `NaN` (None); its read-back is stated by `ParseIntNatToString` |
| Cache.StorageKeyInjective | app.js:68 | distinct cache keys use distinct localStorage slots under the prefix `quran_cache_` |
| Cache.Lookup | app.js:74-87 | what `loadFromCache` returns; stated by `LookupFreshIff` |
| Cache.AfterLookup | app.js:82-85 | localStorage after `loadFromCache`; stated by `StaleReadEvicts` and `NonStaleReadKeeps` |
| Cache.AfterSave | app.js:62-68 | localStorage after `saveToCache`; stated by `SaveThenLoad`, `SaveOverwrites` and `SaveIsolated` |
| Cache.TimedCache.Save | app.js:62-68 | saving writes the payload and the current time under the key, replacing any earlier entry |
| Cache.TimedCache.Load | app.js:74-87 | a load returns what `Lookup` specifies (the payload of a fresh item, absent otherwise) and evicts exactly a stale item |
| Cache.LookupFreshIff | app.js:74-87 | a read returns the stored payload iff a readable item is there and `now - timestamp <= 24·60·60·1000` |
| Cache.StaleReadEvicts | app.js:82-85 | a stale read returns absent, removes that slot and leaves every other slot as it was |
| Cache.NonStaleReadKeeps | app.js:76-87 | a read that serves data, finds none, or finds unreadable text changes nothing |
| Cache.SaveThenLoad | app.js:62-87 | a save at t and then a load at `now` with `now - t` within the window returns the saved payload |
| Cache.SaveThenExpire | app.js:62-85 | a load after the window returns absent and evicts the slot |
| Cache.SaveOverwrites | app.js:68 | a second save of a key replaces the first entirely |
| Cache.SaveIsolated | app.js:68 | saving one key does not change what another key reads |
| Cache.SaveLoadRoundTrip | app.js:62-87 | through the class, saving and then loading within the window returns the payload |
| Stopwatch.Toggle | app.js:554-577 | start/pause flips `running` and keeps `elapsed`; pausing keeps `startTime`; starting sets `startTime = now - elapsed·1000` (for elapsed 0 that is `now`) |
| Stopwatch.Tick | app.js:568 | `elapsed` becomes the whole seconds since `startTime`: elapsed·1000 ≤ now − startTime < elapsed·1000 + 1000 |
| Stopwatch.ResumeThenTick | app.js:560-568 | resuming at `now` and ticking at `now + d` shows `elapsed + floor(d/1000)` |
| Stopwatch.PauseResumeContinues | app.js:554-568 | pause keeps the count, and a resume continues from it |
| Stopwatch.StartFromStopped | app.js:561-568 | a first start counts whole seconds from the moment of the start |
| Stopwatch.TickMonotone | app.js:568 | a later tick never shows fewer seconds |
| Stopwatch.PauseResumeSameInstant | app.js:554-568 | ticking, pausing and resuming at one instant keeps the count and the timer running; the start time moves forward by less than 1000 ms |
| Stopwatch.TickNegativeIff | app.js:568 | a tick shows a negative count exactly when the clock reads earlier than the start time |
| App.EnsureTranslation | app.js:410 | a loaded table for the language is kept; a missing or null one is replaced by what the loader obtained; other languages are untouched |
| App.AppState.constructor | app.js:10-35 | the initial state: home page, nothing selected or loaded, English, stopwatch stopped at zero, statistics zero |
| App.AppState.Navigate | app.js:218-222 | navigating to the current page does nothing; otherwise `currentPage` becomes the page; no other field changes |
| App.AppState.LoadSurah | app.js:382-454 | an empty selection changes nothing; quran.json is loaded once and its failure stops the load; a missing translation is loaded and its failure does not stop the load; an unknown surah changes neither the selection nor `surahsRead`; a found surah is selected, `surahsRead` goes up by exactly 1, and the result is `Compose` of it; the `Valid` invariant is kept |
| App.AppState.ToggleTimer | app.js:554-577 | the timer fields move as `Toggle` says |
| App.AppState.TickTimer | app.js:567-570 | the timer fields move as `Tick` says, and `timeSpent` becomes `elapsed` |
| App.AppState.ResetTimer | app.js:580-584 | the timer is stopped at zero with start time 0; `timeSpent` is left alone |
| App.AppState.StatsDisplay | app.js:257-263 | three values: the digits of `surahsRead`, the time spent as clock text that reads back as `timeSpent` when it is not negative, and a streak text that `parseInt` reads back as `dayStreak` |
| App.AppState.TimerDisplay | app.js:550-551 | for a non-negative count the stopwatch text has three fields, minutes and seconds of two digits, and reads back as `elapsed` |
| App.Loaded | app.js:410 | `!state.translationsData[lang]` is false exactly when a table is held for the language; `EnsureTranslation` states what the load then does |
| App.LoadTwice | app.js:412-417 | loading a known surah twice counts two surahs read |

## Left out
- HTML building, DOM queries, class toggling, scrolling and status messages (app.js:388-406,
  app.js:427-451, app.js:455-505). Display units are abstract records, not markup.
- The surah title from `SURAH_INFO` and the translation name in the header (app.js:455-460).
- `fetch`, `loadQuranData`, `loadTranslation` and `loadSurahList` (app.js:299-377). These are
  network I/O. `LoadSurah` takes what the two loaders would obtain as parameters, with `None` for
  a failed load.
- The cache consultation inside `loadTranslation` (app.js:318-331) is not connected to
  `LoadSurah`. `TimedCache` models the cache on its own.
- The English-fallback branch in `loadTranslation`'s catch (app.js:333-345). It is driven by an
  async failure and a timer.
- The `translation-select` change handler (app.js:767-775). `translation` is a field that no
  modelled method changes.
- localStorage and JSON. The cache is a map from storage keys to `Stored` items. Text that does
  not parse is `Unreadable`, which reads as absent and is not removed.
- Cache.TimedCache.Save: a storage quota exception, which the code swallows, is not modelled.
  Every save succeeds.
- `Date.now`, `new Date`, `getHours`, `setInterval`/`clearInterval` and locale date formatting
  (app.js:131-160, app.js:567-572). Times and the hour are parameters. The interval's handler is
  `TickTimer`, which the caller invokes only while the timer runs.
- Trivia selection with `Math.random` and the random choice of the daily verse (app.js:596-625,
  app.js:691-701). The daily verse's translation fallback is modelled (`DailyTranslation`).
- Telegram WebApp integration, the modal, the clipboard and the font-size slider (app.js:112-126,
  app.js:166-213, app.js:631-649). These are foreign APIs or UI.
- Translation keys: a translation's `ayahs` are keyed by the same numbers as the surah's. Key
  strings that are not canonical decimal numbers (such as `"01"`) are not modelled.
- The wall clock is not assumed monotone. `Date.now` can go backwards, and then a tick gives a
  negative `elapsed` (`Stopwatch.TickNegativeIff`), which `TickTimer` copies into `timeSpent`.
  The model allows these values. JavaScript's signed remainder then makes the text unreadable
  as a clock value (`Clock.FormatTimeNegative`).
- Clock.FormatTimeRoundTrip: the read-back is proved for non-negative seconds only, because
  for negative seconds it fails (see `Clock.FormatTimeNegative`).
- Clock.FormatTimeShape: the shape is proved for non-negative seconds only.
- Clock.FormatTimerTimeShape: the shape and the read-back are proved for non-negative seconds
  only.
- Clock.ClockFieldsSplit: the recombination is proved for non-negative seconds only.
- App.AppState.StatsDisplay: the time-spent text is proved to read back only when `timeSpent` is
  not negative.
- App.AppState.TimerDisplay: the shape and the read-back are proved only when `elapsed` is not
  negative.
- `LoadSurah` is modelled as one atomic step. In the code, the awaits at app.js:409-410 let the
  `translation-select` handler (app.js:767-775) set `state.translation` in the meantime.
  The loop then reads the new language at app.js:436, which the model does not capture.
- Numbers are unbounded integers. JavaScript numbers are doubles, exact only below 2^53.
  `toString` switches to exponent notation from 1e21. `NatToString`, `IntToString` and
  `ParseInt` do not model either limit.
- The default opener literal at app.js:426 shows in the text of app.js as mis-decoded UTF-8. It is
  modelled as the Arabic basmala it encodes (`Composer.DefaultOpener`). The code's exact bytes
  are not reproduced.
