# SoulScript diary: a verified model of its client-side rules

SoulScript is a diary web application (Next.js, React, Firebase). Almost all
of it is presentation and Firebase glue. This project models in Dafny the
sequential rules that sit inside it, and proves what those rules promise:

- **The encrypted diary entry** (`DiaryEntry`). Content is stored as
  `base64(iv) ":" base64(ciphertext)`, with a fresh 12-byte IV, and is parsed
  back on the way in.
  - Base64 is `btoa` and the forgiving `atob` of the HTML standard, over the
    alphabet of section 4 of RFC 4648 (module `Base64`).
  - The salt is created only if it is absent, and the key is derived from the
    password and that salt.
  - The snapshot of documents is decrypted into a list with a per-entry
    sentinel. Saving is guarded by the key, the user and non-blank text.
- **The mood utilities** (`Diary`):
  - the document mapping of `getMoodEntries`;
  - the mood counters, the streak loop and the seven-day trend;
  - the first-wins argmax and the insight lines.
- **Date grouping and relative dates** (`DateUtils`): grouping by day key,
  and the day-count buckets of `getRelativeDate`.
- **The calendar page** (`Calendar`):
  - the month grid, the zero-padded day keys and the selection toggle;
  - month navigation, the entry indicators and the month summary.
- **The dashboard** (`Dashboard`): tag parsing, the new-entry form, today's
  and recent entries, and the top-four mood overview.
- **The sign-in page** (`Auth`): the email rule, the password rules, clearing
  errors per field, and the sign-in / reset mode machine.
- **The entry card** (`EntryCard`): the 200-character preview, the show-more
  toggle, the four image tiles and the delete dialog.
- **The settings page** (`Settings`): the PDF export's cursor and pagination,
  the enabled-theme gate, and account deletion, which is not offered.
- **The theme provider and the header switch** (`ThemeContext`,
  `ThemeToggle`).

Shared modules model the JavaScript behaviour the rules rely on:

- `JsString`: `trim` with JavaScript's whitespace set, `split`/`join`,
  decimal rendering and `padStart`.
- `Base64`: `btoa` and `atob`.
- `Browser`: `localStorage`, as a class over a map, and the document's style
  properties and body classes.
- `Wrappers`: `Option`/`Result`.
- `Toasts`: the toast notifications.

Each stateful React component becomes a `class` whose fields are its state
hooks and whose methods are its handlers. Values that come from outside
become parameters:

- the WebCrypto and CryptoJS primitives;
- random bytes;
- the current day;
- the outcome of a Firestore or authentication call;
- the lines `splitTextToSize` produces.

Days are integers (local day numbers), and calendar dates are
(year, month index, day).

The code is followed where its behaviour differs from what its design
describes:

- `decrypt` splits the envelope on every `':'`, not only on the first, and
  ignores any pieces after the second (`DiaryEntry.EnvelopeExtraPiecesIgnored`).
- An envelope without a `':'` has the string `"undefined"` as its second
  piece, and `atob` rejects that (`DiaryEntry.AtobUndefined`).
- An empty stored salt is regenerated, like a missing salt.
- The dashboard checks the trimmed text but hands the untrimmed text to
  `addEntry`.
- In the weekly trend, entries with an unknown mood string count towards a
  day's `count`. An unknown mood that is not an integer-like string never
  decides the day's mood.

## Model

| member | source | states |
|---|---|---|
| `Base64.CharOf` | src/components/DiaryEntry.tsx:76-78 | Every sextet has an alphabet character, and decoding that character gives the sextet back. |
| `Base64.UnpaddedLength` | src/components/DiaryEntry.tsx:76-78 | The unpadded encoding of n bytes never has a length of 1 mod 4. |
| `Base64.UnpaddedLengthMod` | src/components/DiaryEntry.tsx:76-78 | An unpadded encoding's length mod 4 follows from n mod 3: 0 gives 0, 1 gives 2, 2 gives 3. |
| `Base64.UnpaddedLengthClosed` | src/components/DiaryEntry.tsx:76-78 | The unpadded length is (4n + 2) / 3. |
| `Base64.EncodeUnpadded` | src/components/DiaryEntry.tsx:76-78 | The unpadded encoding has the unpadded length and only alphabet characters. |
| `Base64.Btoa` | src/components/DiaryEntry.tsx:39 | `btoa` output holds only alphabet characters and `'='`. |
| `Base64.BtoaLength` | src/components/DiaryEntry.tsx:39 | `btoa` of n bytes has 4 * ceil(n/3) characters. |
| `Base64.RemoveAsciiWhitespace` | src/components/DiaryEntry.tsx:84-85 | The forgiving decoder's first step drops ASCII whitespace and leaves text without whitespace as it is. |
| `Base64.Atob` | src/components/DiaryEntry.tsx:83-84 | The forgiving `atob`: whitespace removed, padding stripped, rejection of a length of 1 mod 4 or a character outside the alphabet; inverts `Btoa` by `AtobBtoa`. |
| `Base64.DecodeEncodeUnpadded` | src/components/DiaryEntry.tsx:76-85 | Decoding the unpadded encoding of any bytes gives those bytes. |
| `Base64.StripPaddingOfBtoa` | src/components/DiaryEntry.tsx:76-85 | Removing the padding from `btoa(b)` leaves exactly the unpadded encoding of b. |
| `Base64.AtobBtoa` | src/components/DiaryEntry.tsx:76-85 | `atob(btoa(b))` succeeds, with b, for every byte string. |
| `Base64.BtoaHasNoColon` | src/components/DiaryEntry.tsx:76-78 | No `btoa` output contains `':'`, so the separator of the envelope is unambiguous. |
| `JsString.Trim` | src/pages/dashboard.tsx:50 | `trim` removes exactly the leading and trailing JavaScript whitespace. The result is trimmed and is a slice of the input. It is empty iff the input is all whitespace. A trimmed input is unchanged. |
| `JsString.TrimIdempotent` | src/pages/dashboard.tsx:50 | Trimming twice is trimming once. |
| `JsString.Split` | src/pages/dashboard.tsx:49 | `split(sep)` returns at least one part. No part contains the separator, and joining the parts with it gives the input back. |
| `JsString.SplitWithoutSeparator` | src/components/DiaryEntry.tsx:83 | Text without the separator splits into itself alone. |
| `JsString.SplitAtSeparator` | src/components/DiaryEntry.tsx:83 | `split` cuts at the first separator, and the rest splits the same way. |
| `JsString.SplitJoin` | src/pages/dashboard.tsx:48-49 | Splitting a join of separator-free parts gives those parts back. |
| `JsString.NatToString` | src/utils/diary.ts:244 | A natural number renders as digits with no leading zero. It has one digit iff it is below 10. |
| `JsString.NatToStringValue` | src/utils/diary.ts:244 | The rendered digits read back as the same number. |
| `JsString.IntToString` | src/pages/calendar.tsx:52 | An integer renders as at least one character, with a leading minus iff it is negative. |
| `JsString.PadStart` | src/pages/calendar.tsx:52-55 | `padStart(width, fill)` yields max(length, width) characters: fill characters, then the text itself. |
| `JsString.Repeat` | src/pages/calendar.tsx:52-55 | The fill is n copies of the character. |
| `JsString.ZeroPad` | src/pages/calendar.tsx:52-55 | A zero-padded number is all digits, at least the width. |
| `JsString.ZeroPadValue` | src/pages/calendar.tsx:52-55 | A zero-padded number reads back as the number. |
| `JsString.ZeroPadWide` | src/utils/date.ts:38 | A year of four digits or more is written without padding. |
| `Browser.LocalStorage.constructor` | src/components/DiaryEntry.tsx:121-124 | The storage starts with the given items. |
| `Browser.LocalStorage.GetItem` | src/components/DiaryEntry.tsx:121 | `getItem` returns the stored value, or null for a missing key. |
| `Browser.LocalStorage.SetItem` | src/components/DiaryEntry.tsx:124 | `setItem` overwrites the one key and keeps the others. |
| `Browser.Document.constructor` | src/contexts/ThemeContext.tsx:109 | The document starts with the given style properties and body classes. |
| `Browser.Document.SetProperty` | src/contexts/ThemeContext.tsx:112-117 | `style.setProperty` sets one property and leaves the body classes alone. |
| `Browser.Document.RemoveProperty` | src/contexts/ThemeContext.tsx:132 | `style.removeProperty` deletes one property. |
| `Browser.Document.RemoveClasses` | src/contexts/ThemeContext.tsx:136-141 | `classList.remove` drops the named classes and keeps the others. |
| `Browser.Document.AddClass` | src/contexts/ThemeContext.tsx:142 | `classList.add` adds one class. |
| `DiaryEntry.IvEncoding` | src/components/DiaryEntry.tsx:69-76 | A 12-byte IV encodes to 16 characters with no padding. |
| `DiaryEntry.SaltEncoding` | src/components/DiaryEntry.tsx:36-40 | A 16-byte salt encodes to 24 characters that end in `"=="`. |
| `DiaryEntry.GenerateSalt` | src/components/DiaryEntry.tsx:36-40 | `generateSalt` is `btoa` of the first `length` random bytes. It decodes back to those bytes, and at the default length it is 24 characters that end in `"=="`. |
| `DiaryEntry.DeriveKey` | src/components/DiaryEntry.tsx:42-66 | An undecodable salt makes the derivation throw (no key). Otherwise the key is PBKDF2 of the encoded password and the decoded salt bytes. |
| `DiaryEntry.ParseEnvelope` | src/components/DiaryEntry.tsx:82-84 | `decrypt`'s parsing: split on every `':'`, pieces 0 and 1 decoded by `atob`, `undefined` for a missing second piece; pinned by `EnvelopeRoundTrip`, `EnvelopeExtraPiecesIgnored`, `AtobUndefined` and `EnvelopeNeedsSeparator`. |
| `DiaryEntry.Encrypt` | src/components/DiaryEntry.tsx:68-80 | `encrypt` on a given IV: the sealed UTF-8 bytes in the envelope; its layout is stated by `EncryptLayout` and its inverse by `DecryptEncrypt`. |
| `DiaryEntry.Decrypt` | src/components/DiaryEntry.tsx:82-92 | `decrypt`: an error where `atob` or AES-GCM throws, otherwise the decoded text; tied to `Encrypt` by `DecryptEncrypt`. |
| `DiaryEntry.EncryptLayout` | src/components/DiaryEntry.tsx:68-80 | `encrypt` returns exactly `btoa(iv) + ":" + btoa(ciphertext)`. The IV part is its first 16 characters, without padding, and the `':'` is at position 16. |
| `DiaryEntry.EnvelopeParts` | src/components/DiaryEntry.tsx:75-83 | Splitting a formatted envelope on `':'` gives exactly its two base64 pieces. |
| `DiaryEntry.EnvelopeRoundTrip` | src/components/DiaryEntry.tsx:75-85 | Parsing a formatted envelope recovers the same IV and ciphertext bytes. |
| `DiaryEntry.EnvelopeExtraPiecesIgnored` | src/components/DiaryEntry.tsx:83-85 | Pieces after the second `':'` are ignored, so the same IV and ciphertext are recovered. |
| `DiaryEntry.AtobUndefined` | src/components/DiaryEntry.tsx:83-85 | `atob("undefined")` throws: its length is 1 mod 4. |
| `DiaryEntry.EnvelopeNeedsSeparator` | src/components/DiaryEntry.tsx:83-85 | A text without `':'` never parses, so `decrypt` throws. |
| `DiaryEntry.DecryptEncrypt` | src/components/DiaryEntry.tsx:68-92 | If AES-GCM opens what it sealed and UTF-8 decoding inverts encoding, `decrypt(encrypt(text))` returns the text. |
| `DiaryEntry.DecryptOne` | src/components/DiaryEntry.tsx:152-159 | A document keeps its data and its id. Its content is the decryption, or `"[Decryption failed]"` exactly when the decryption throws. |
| `DiaryEntry.DecryptBatch` | src/components/DiaryEntry.tsx:151-160 | One output per document, in document order, each decrypted on its own. |
| `DiaryEntry.DecryptBatchOfOwnEntries` | src/components/DiaryEntry.tsx:151-160 | Entries sealed under the same key as the batch's are all read back as their texts. |
| `DiaryEntry.DiaryEntryView.constructor` | src/components/DiaryEntry.tsx:104-110 | The component starts with no password, no key, no salt, no text and no entries, and is not loading. |
| `DiaryEntry.DiaryEntryView.Derive` | src/components/DiaryEntry.tsx:115-136 | An empty password clears the key and touches neither the salt nor the storage. Otherwise a stored non-empty salt is reused unchanged; an absent or empty one is generated and stored. The key is then the derivation from that salt, or none when the derivation throws. |
| `DiaryEntry.DiaryEntryView.OnSnapshot` | src/components/DiaryEntry.tsx:146-162 | With no key the entries become `[]`; otherwise they are the decrypted batch of the documents. |
| `DiaryEntry.DiaryEntryView.SaveEntry` | src/components/DiaryEntry.tsx:167-183 | Without a key, a user and non-blank trimmed text nothing happens. Otherwise the trimmed text is encrypted and written. If `encrypt` throws, nothing is written, the text is kept and the alert carries its message. The text is cleared only when encryption and write both succeed, a failed write raises the alert, and `loading` ends false. |
| `DiaryEntry.DiaryEntryView.AppendTranscript` | src/components/DiaryEntry.tsx:209-215 | A speech transcript is appended after one separating space. |
| `Diary.MoodIndex` | src/utils/diary.ts:136-145 | Every mood has its place in the declaration order of the counter record. |
| `Diary.MoodIndexOf` | src/utils/diary.ts:136-145 | Positions and moods are in one-to-one correspondence. |
| `Diary.ParseMoodOfName` | src/utils/diary.ts:148 | Each mood's name is read back as that mood. |
| `Diary.ReadMoodText` | src/utils/diary.ts:148 | Reading a stored mood keeps its text. It is unknown exactly when it names none of the eight moods. |
| `Diary.MapDoc` | src/utils/diary.ts:64-80 | A document's id, user, days and mood are kept. Missing tags and images become `[]`. The content is the decryption, or the sentinel when the decryption throws. |
| `Diary.MapDocs` | src/utils/diary.ts:63-81 | One entry per document, in order, each mapped by `MapDoc`. |
| `Diary.FetchEntries` | src/utils/diary.ts:63-81 | The `forEach` loop builds exactly the mapped list of the documents. |
| `Diary.FetchSentinelUnreachable` | src/utils/diary.ts:63-70 | With `decryptData` as written, a failed decryption shows as `""`. The sentinel appears only if it was the plaintext. |
| `Diary.DecryptData` | src/utils/crypto.ts:8-16 | `decryptData`: CryptoJS's result, or `""` where it throws; it never fails itself, which `FetchSentinelUnreachable` states. |
| `Diary.FetchSentinelCounterexample` | src/utils/diary.ts:63-70 | A concrete document whose decryption fails gets empty content, not `"[Decryption failed]"`. |
| `Diary.FetchSentinelWhenDecryptThrows` | src/utils/diary.ts:63-70 | With a decryption that throws on failure, the sentinel shows exactly for the failing documents (or sentinel plaintexts). |
| `Diary.MoodCounts.Incr` | src/utils/diary.ts:149 | `counts[m]++` raises that counter by one, leaves the others, and raises the sum by one. |
| `Diary.CountOf` | src/utils/diary.ts:147-151 | No more entries have a mood than there are entries. |
| `Diary.KnownCount` | src/utils/diary.ts:147-151 | No more entries have a known mood than there are entries. |
| `Diary.Distribution` | src/utils/diary.ts:136-151 | The counter record after every entry; its counters are characterised by `DistributionCounts`. |
| `Diary.DistributionCounts` | src/utils/diary.ts:136-151 | All eight counters start at 0. Each holds the number of entries of its mood, and together they sum to the number of known-mood entries. |
| `Diary.CountMoods` | src/utils/diary.ts:147-151 | The counting loop yields exactly that distribution. |
| `Diary.MostFrequentIsFirstMax` | src/utils/diary.ts:201-203 | The strict-`>` reduce picks a mood with the largest count, and every mood declared before it has a strictly smaller count (first wins ties). |
| `Diary.MostFrequent` | src/utils/diary.ts:201-203 | The strict-`>` reduce over the eight keys in order; its result is characterised by `MostFrequentIsFirstMax` and `FirstMaximumUnique`. |
| `Diary.FirstMaximumUnique` | src/utils/diary.ts:236-238 | The first maximum is the only mood with those two properties, so they define the reduce's result. |
| `Diary.StreakCovered` | src/utils/diary.ts:158-170 | The streak never exceeds the number of entries, and every day back from today below it has an entry. |
| `Diary.Streak` | src/utils/diary.ts:153-170 | The streak of consecutive days back from today; bounded and covered by `StreakCovered`, maximal by `StreakOfNewestFirst`. |
| `Diary.StreakOfNewestFirst` | src/utils/diary.ts:158-170 | For entries newest first, as the query orders them, the day the streak stops at has no entry, so the streak is maximal. |
| `Diary.StreakDays` | src/utils/diary.ts:154-170 | The loop with its `break` computes the streak. |
| `Diary.EntriesOn` | src/utils/diary.ts:180-183 | A day's filter is never longer than the input; `EntriesOnMembers` and `EntriesOnCount` say which entries it keeps. |
| `Diary.EntriesOnMembers` | src/utils/diary.ts:180-183 | An entry is in the day's filter iff it is among the entries and created that day. |
| `Diary.EntriesOnCount` | src/utils/diary.ts:180-183 | The filter's length is the number of positions holding an entry of that day, so no entry of the day is dropped or repeated. |
| `Diary.TrendOf` | src/utils/diary.ts:185-216 | A day's element carries its day and the length of that day's filter. A day without entries has count 0 and mood `"content"`. |
| `Diary.TrendCount` | src/utils/diary.ts:180-209 | A day's `count` is the number of entries created that day. |
| `Diary.TrendMood` | src/utils/diary.ts:197-203 | On a day with entries, the trend mood has the most entries of the day, and earlier-declared moods have strictly fewer. |
| `Diary.DayTrend` | src/utils/diary.ts:180-216 | One pass of the trend loop builds that day's element. |
| `Diary.TrendPrefix` | src/utils/diary.ts:174-217 | The first n elements of the trend are n long. |
| `Diary.TrendDays` | src/utils/diary.ts:172-217 | The trend has exactly seven elements, oldest first: element k is day today - 6 + k. |
| `Diary.WeeklyTrend` | src/utils/diary.ts:173-217 | The loop from i = 6 down to 0 builds exactly that trend. |
| `Diary.GetMoodAnalytics` | src/utils/diary.ts:134-225 | The analytics are the distribution, the trend, the streak, and `totalEntries` = the number of entries. |
| `Diary.InsightLinesShape` | src/utils/diary.ts:233-240 | There are one to four insights, and the first names the most common mood. |
| `Diary.InsightLines` | src/utils/diary.ts:233-272 | The pushed insight lines in order; their presence conditions are stated by `InsightLinesShape`, `InsightLinesCounts` and `InsightLinesMoods`. |
| `Diary.InsightLinesCounts` | src/utils/diary.ts:242-246 | The streak line is there iff the streak is over one day. The habit line is there iff there are seven or more entries. |
| `Diary.PositiveNotTough` | src/utils/diary.ts:250-266 | Three moods cannot all be positive and all tough. |
| `Diary.InsightLinesMoods` | src/utils/diary.ts:248-266 | The positive line is there iff the last three days were all positive. The tough line is there iff they were all tough. Never both. |
| `Diary.GetMoodInsights` | src/utils/diary.ts:230-273 | No entries give no insights. Otherwise the insights are the lines for the most common mood, the streak, the last three trend moods and the total. |
| `DateUtils.RelativeDate` | src/utils/date.ts:24-34 | `"Today"` iff 0 days, and `"Yesterday"` iff 1 day. |
| `DateUtils.Bucket` | src/utils/date.ts:27-33 | The bucket of a day difference; its words, ranges and monotonicity are stated by `BucketWords`, `BucketRanges` and `BucketMonotone`. |
| `DateUtils.BucketWords` | src/utils/date.ts:27-33 | Only 0 renders as `"Today"`, and only 1 as `"Yesterday"`. |
| `DateUtils.BucketRanges` | src/utils/date.ts:27-33 | Below 7 (other than 0 and 1): N days. From 7 to 29: N/7 weeks, always 1..4. From 30 to 364: N/30 months, always 1..12. From 365: N/365 years. |
| `DateUtils.BucketMonotone` | src/utils/date.ts:27-33 | An older date never gets a finer bucket, and within a bucket never a smaller number. |
| `DateUtils.Find` | src/utils/date.ts:39 | `groups[key]` finds the group with that key, or reports that none has it. |
| `DateUtils.LookupAt` | src/utils/date.ts:39-42 | With distinct keys, looking a group's key up gives that group's entries. |
| `DateUtils.EntriesWithKey` | src/utils/date.ts:36-44 | The entries of one key are a filter of the input: no more of them, all with that key. |
| `DateUtils.CountKeyed` | src/utils/date.ts:36-44 | Counting the entries with selected keys gives at most the number of entries. |
| `DateUtils.InsertSizeWhere` | src/utils/date.ts:39-42 | One push adds one to the selected total exactly when its key is selected. |
| `DateUtils.InsertWellFormed` | src/utils/date.ts:39-42 | A push keeps keys distinct and groups non-empty, and adds its key. |
| `DateUtils.InsertLookup` | src/utils/date.ts:39-42 | A push appends to its own key's group only. |
| `DateUtils.InsertKeys` | src/utils/date.ts:39-42 | A push never duplicates a key. |
| `DateUtils.GroupByWellFormed` | src/utils/date.ts:36-44 | The groups have distinct keys and none is empty. The keys are exactly the entries' keys. |
| `DateUtils.GroupByLookup` | src/utils/date.ts:36-44 | Each group holds exactly the entries with its key, in input order. |
| `DateUtils.GroupBy` | src/utils/date.ts:36-44 | The groups after the `reduce`, in key-insertion order; characterised by `GroupByWellFormed` and `GroupByLookup`. |
| `DateUtils.GroupBySizes` | src/utils/date.ts:36-44 | The sizes of the selected groups sum to the number of entries with selected keys. |
| `DateUtils.CountKeyedAll` | src/utils/date.ts:36-44 | Selecting every key counts every entry. |
| `DateUtils.GroupByTotal` | src/utils/date.ts:36-44 | The group sizes sum to the input length. |
| `DateUtils.EntryInItsGroup` | src/utils/date.ts:36-44 | Every entry is in the group of its key. |
| `DateUtils.EntriesWithKeyHas` | src/utils/date.ts:36-44 | Every entry is among the entries of its key. |
| `DateUtils.AnyKeyWhereCount` | src/pages/calendar.tsx:387-393 | Some key is selected iff the number of selected keys is positive. |
| `DateUtils.KeysWhereAtMostSize` | src/pages/calendar.tsx:398-421 | For non-empty groups, the selected keys are at most the selected entries. |
| `DateUtils.DayKeyInjective` | src/utils/date.ts:38 | Different days have different `yyyy-MM-dd` keys. |
| `DateUtils.GroupEntriesByDate` | src/utils/date.ts:36-44 | The `reduce` builds exactly the grouping, with distinct keys and no empty group. |
| `Calendar.DaysInMonth` | src/pages/calendar.tsx:24-26 | A month has 28 to 31 days. February has 29 exactly in leap years. |
| `Calendar.Weekday` | src/pages/calendar.tsx:25 | A weekday is 0..6; `WeekdayEpoch` and `WeekdayAfter` fix its value on every day. |
| `Calendar.WeekdayEpoch` | src/pages/calendar.tsx:25 | Day 0 is 1 January of year 1, a Monday (`getDay()` 1). |
| `Calendar.FirstWeekday1970` | src/pages/calendar.tsx:23-25 | 1 January 1970 starts on a Thursday (4). |
| `Calendar.FirstWeekday2025` | src/pages/calendar.tsx:23-25 | 1 January 2025 starts on a Wednesday (3) and 1 February 2025 on a Saturday (6). |
| `Calendar.FirstWeekday` | src/pages/calendar.tsx:23-25 | The first day's weekday is 0..6, anchored to the real calendar by `FirstWeekday1970` and `FirstWeekday2025`. |
| `Calendar.YearLength` | src/pages/calendar.tsx:23-26 | A year has 366 days if it is a leap year, 365 otherwise. |
| `Calendar.WeekdayAfter` | src/pages/calendar.tsx:23-25 | Weekdays advance by the number of days, mod 7. |
| `Calendar.MonthShift` | src/pages/calendar.tsx:40-49 | Moving by delta months gives a month index below 12, and advances the month count by exactly delta. |
| `Calendar.NextMonthWeekday` | src/pages/calendar.tsx:23-25 | The next month begins the month's length later in the week. |
| `Calendar.CalendarDays` | src/pages/calendar.tsx:28-38 | The grid is `startingDayOfWeek` blanks, then days 1..n in order; its length is their sum. |
| `Calendar.DateKeyIsDayKey` | src/pages/calendar.tsx:51-64 | The page's `year-MM-DD` key equals the grouping key of that date. |
| `Calendar.DateKey` | src/pages/calendar.tsx:51-54 | The page's key: the unpadded year, the month and day padded to two digits; tied to the grouping key by `DateKeyIsDayKey`. |
| `Calendar.EntriesOn` | src/pages/calendar.tsx:59-65 | The entries of a date are all of that date. |
| `Calendar.EntriesWithDayKey` | src/pages/calendar.tsx:59-65 | The entries with a date's key are exactly the entries of that date. |
| `Calendar.EntriesForDateOfGroups` | src/pages/calendar.tsx:59-65 | `getEntriesForDate` gives that day's entries, in order, and `[]` for a day without a group. |
| `Calendar.KnownMoodColor` | src/pages/calendar.tsx:236-245 | Each mood has a seven-character `#` colour. |
| `Calendar.MoodColor` | src/pages/calendar.tsx:246-254 | The border-colour fallback is used iff the mood is unknown. |
| `Calendar.Indicators` | src/pages/calendar.tsx:222-258 | At most three bars, one per entry of the day, in order, each of its mood's colour. |
| `Calendar.MoreNote` | src/pages/calendar.tsx:260-268 | `"+N more"` appears iff there are more than three entries, with N = count - 3. |
| `Calendar.IndicatorsCoverDay` | src/pages/calendar.tsx:222-268 | Bars plus the "more" number account for every entry of the day. |
| `Calendar.InMonthOfDayKey` | src/pages/calendar.tsx:387-421 | A day key lies in the shown month iff its date does. |
| `Calendar.CountInMonth` | src/pages/calendar.tsx:398-407 | The entries in the month are at most all entries. |
| `Calendar.CountKeyedInMonth` | src/pages/calendar.tsx:398-407 | Counting by key in the month is counting entries dated in the month. |
| `Calendar.SummaryOfGroups` | src/pages/calendar.tsx:387-421 | "Total entries" is the number of entries dated in the month. "Days with entries" is at most that. The summary section shows iff that number of days is positive. |
| `Calendar.Summary` | src/pages/calendar.tsx:387-421 | The "This Month" panel's any/total/days over the groups whose key is in the month; characterised by `SummaryOfGroups`. |
| `Calendar.SetMonthAsWritten` | src/pages/calendar.tsx:40-47 | `setMonth(m ± 1)` keeps the day of the month. A day past the target month's end runs into the following month. |
| `Calendar.NavigateSkipsFebruary` | src/pages/calendar.tsx:40-47 | As written, "next" from 31 January 2025 lands on 3 March 2025, not in February. |
| `Calendar.SetMonthEarlyDays` | src/pages/calendar.tsx:40-47 | From days 1..28 the written code moves by exactly the intended month. |
| `Calendar.CalendarView.constructor` | src/pages/calendar.tsx:15-16 | The page opens on today's month with nothing selected. |
| `Calendar.CalendarView.NavigateMonth` | src/pages/calendar.tsx:40-49 | Previous or next moves by exactly one month, across years, and always clears the selection. |
| `Calendar.CalendarView.HandleDateClick` | src/pages/calendar.tsx:51-57 | Clicking the selected day deselects it. Clicking any other day selects its key. The month is unchanged. |
| `Dashboard.TrimAll` | src/pages/dashboard.tsx:50 | The `map(trim)` keeps the number of parts. |
| `Dashboard.TrimAllAt` | src/pages/dashboard.tsx:50 | Part i of the map is the trim of part i. |
| `Dashboard.NonEmpty` | src/pages/dashboard.tsx:51 | The filter keeps exactly the non-empty parts. |
| `Dashboard.ParseTagsClean` | src/pages/dashboard.tsx:48-51 | Every parsed tag is non-empty, trimmed and free of commas. |
| `Dashboard.ParseTags` | src/pages/dashboard.tsx:48-51 | split, trim, drop empties; pinned by `ParseTagsClean`, `ParseTagsOfJoin` and `ParseTagsOfBlank`. |
| `Dashboard.ParseTagsOfJoin` | src/pages/dashboard.tsx:48-51 | Tags joined by commas parse back to their trimmed non-empty forms, in order. Already clean tags come back unchanged. |
| `Dashboard.ParseTagsOfBlank` | src/pages/dashboard.tsx:48-51 | Text of only whitespace and commas gives no tags. |
| `Dashboard.TodayEntries` | src/pages/dashboard.tsx:35-39 | Today's entries are exactly the entries dated today. |
| `Dashboard.Excluding` | src/pages/dashboard.tsx:176 | The exclusion filter returns no more entries than there are. |
| `Dashboard.OtherDays` | src/pages/dashboard.tsx:176 | The other days' entries are exactly those not dated today. |
| `Dashboard.ExcludingToday` | src/pages/dashboard.tsx:175-176 | Excluding today's entries is filtering by a day other than today. |
| `Dashboard.SplitByDay` | src/pages/dashboard.tsx:35-39 | Today's entries plus the other days' entries are all the entries. |
| `Dashboard.RecentEntriesFacts` | src/pages/dashboard.tsx:166-178 | Recent entries are at most five and none is from today; they are the first of the other days' entries. The section shows iff some entry is from another day. |
| `Dashboard.RecentEntries` | src/pages/dashboard.tsx:166-178 | The first five entries not among today's; characterised by `RecentEntriesFacts`. |
| `Dashboard.InsertByKey` | src/pages/dashboard.tsx:225 | Inserting adds exactly the one element. |
| `Dashboard.SortByKey` | src/pages/dashboard.tsx:225 | The sort is a permutation. |
| `Dashboard.SortByKeySorted` | src/pages/dashboard.tsx:225 | The sort orders by non-increasing count, and keeps ties in the input order (a stable sort). |
| `Dashboard.Tallies` | src/pages/dashboard.tsx:224 | `Object.entries` of the distribution has eight tallies. |
| `Dashboard.TalliesRanked` | src/pages/dashboard.tsx:224 | The tallies come in declaration order. |
| `Dashboard.TalliesCounts` | src/pages/dashboard.tsx:224 | Each tally carries its mood's count. |
| `Dashboard.TallyOf` | src/pages/dashboard.tsx:224 | The tally at a mood's position is that mood's tally. |
| `Dashboard.TopMoodsOrdered` | src/pages/dashboard.tsx:224-226 | The overview shows four moods in non-increasing count order, ties in declaration order. |
| `Dashboard.TopMoods` | src/pages/dashboard.tsx:224-226 | The first four tallies after the sort by count; stated by `TopMoodsOrdered`, `TopMoodsCounts` and `TopMoodsMaximal`. |
| `Dashboard.TopMoodsCounts` | src/pages/dashboard.tsx:224-227 | Each shown mood shows its own count. |
| `Dashboard.TopMoodsMaximal` | src/pages/dashboard.tsx:224-226 | No mood left out has a larger count than the fourth shown. |
| `Dashboard.EntryForm.constructor` | src/pages/dashboard.tsx:26-30 | The form starts empty, with no mood, closed and not saving. |
| `Dashboard.EntryForm.HandleCreateEntry` | src/pages/dashboard.tsx:41-65 | Blank text or no mood raises "Please fill in all fields", changes nothing, and calls no `addEntry`. Otherwise `addEntry` gets the untrimmed text, the mood and the parsed tags. Success resets the fields and closes the modal; failure keeps them. `saving` ends false either way. |
| `Auth.FirstIndex` | src/pages/auth.tsx:28 | The first position of a character, or none iff it is absent. |
| `Auth.LastIndex` | src/pages/auth.tsx:28 | The last position of a character, or none iff it is absent. |
| `Auth.FirstAtOfPattern` | src/pages/auth.tsx:28 | In a pattern match, the `@` after the local part is the first `@`. |
| `Auth.LastDotOfPattern` | src/pages/auth.tsx:28 | In a pattern match, the dot before the letter suffix is the last dot. |
| `Auth.IsValidEmailMatchesPattern` | src/pages/auth.tsx:27-29 | The index-based check accepts exactly what `/^[A-Z0-9._%+-]+@[A-Z0-9.-]+\.[A-Z]{2,}$/i` matches. |
| `Auth.IsValidEmail` | src/pages/auth.tsx:27-29 | The email test as a scan around the first `@` and the last `.`; equal to the regular expression's language by `IsValidEmailMatchesPattern`. |
| `Auth.ValidEmailInPattern` | src/pages/auth.tsx:27-29 | Each accepted address matches the regular expression. |
| `Auth.PatternIsValidEmail` | src/pages/auth.tsx:27-29 | Each address the expression matches is accepted. |
| `Auth.ValidEmailShape` | src/pages/auth.tsx:28 | A valid address has exactly one `@`, and after its last dot a suffix of two or more letters. |
| `Auth.EmailError` | src/pages/auth.tsx:25-31 | Empty gives "Email is required". A non-matching address gives "Please enter a valid email address". There is no error iff the address is valid. |
| `Auth.PasswordError` | src/pages/auth.tsx:33-39 | In forgot mode, no password error. When signing in: empty gives "Password is required", under six characters the length error, and none iff there are six or more. |
| `Auth.FormErrors` | src/pages/auth.tsx:21-43 | The error record uses only the two fields, and is empty iff the form is valid. |
| `Auth.FormErrorsMessages` | src/pages/auth.tsx:21-43 | Each field has an entry iff its check fails, holding that check's message. Forgot mode never has a password entry. |
| `Auth.ErrorText` | src/pages/auth.tsx:61 | A failure toast shows the error's message, or "An error occurred" when it is empty. |
| `Auth.ModeLink` | src/pages/auth.tsx:174-192 | Each footer link switches to the other mode. |
| `Auth.AuthPage.constructor` | src/pages/auth.tsx:13-19 | The page opens in sign-in mode with empty fields and no errors. |
| `Auth.AuthPage.ValidateForm` | src/pages/auth.tsx:21-43 | `validateForm` stores the error record, returns true iff it is empty, and changes nothing else. |
| `Auth.AuthPage.HandleInputChange` | src/pages/auth.tsx:67-73 | Editing a field sets its value and clears its existing error. The other field's value and error are unchanged. |
| `Auth.AuthPage.HandleSubmit` | src/pages/auth.tsx:45-65 | An invalid form sends no request and changes no mode. Signing in sends the credentials; success toasts and goes to `/dashboard`. A reset sends the email; success returns to sign-in. Failures toast the message. `loading` ends false. |
| `Auth.AuthPage.FollowModeLink` | src/pages/auth.tsx:174-192 | The footer button only switches the mode. |
| `EntryCard.ContentPreview` | src/components/EntryCard.tsx:26-29 | Up to 200 characters, the preview is the content. Beyond that, it is the first 200 characters plus `"..."`, exactly 203 long. |
| `EntryCard.PreviewIsPrefix` | src/components/EntryCard.tsx:26-29 | The preview shows a beginning of the content and is never over 203 characters. |
| `EntryCard.ToggleLabel` | src/components/EntryCard.tsx:106 | The label reads "Show less" iff the full text is shown. |
| `EntryCard.TilesUpTo` | src/components/EntryCard.tsx:113-131 | The first n tiles are the tiles of the first n images. |
| `EntryCard.ImageTiles` | src/components/EntryCard.tsx:111-113 | At most four tiles are rendered. |
| `EntryCard.ImageTilesShape` | src/components/EntryCard.tsx:113-131 | The tiles show the images in order, numbered from 1. Only the fourth carries the overlay, and it does iff there are more than four images, with N = length - 4. |
| `EntryCard.EntryCardView.constructor` | src/components/EntryCard.tsx:23-24 | The card starts with the preview and the dialog closed. |
| `EntryCard.EntryCardView.Displayed` | src/components/EntryCard.tsx:92-96 | The card shows the full text when expanded or short, and the 203-character preview otherwise. |
| `EntryCard.EntryCardView.ToggleContent` | src/components/EntryCard.tsx:100-102 | Show more / show less flips between full text and preview. |
| `EntryCard.EntryCardView.OpenDeleteModal` | src/components/EntryCard.tsx:73-81 | The trash button, shown only with actions and a callback, opens the dialog. |
| `EntryCard.EntryCardView.CloseDeleteModal` | src/components/EntryCard.tsx:157-161 | Cancel closes the dialog. |
| `EntryCard.EntryCardView.HandleDelete` | src/components/EntryCard.tsx:31-36 | `onDelete(entry.id)` is called iff the callback is given, and the dialog always closes. |
| `Settings.PdfDocument.constructor` | src/pages/settings.tsx:46 | A new document has one empty page. |
| `Settings.PdfDocument.Text` | src/pages/settings.tsx:112 | `text` places its lines on the current page and adds nothing else. |
| `Settings.PdfDocument.AddPage` | src/pages/settings.tsx:107 | `addPage` adds one page. |
| `Settings.PdfDocument.Save` | src/pages/settings.tsx:118 | `save` records the file name. |
| `Settings.OrNA` | src/pages/settings.tsx:58-60 | A missing or empty value prints as "N/A". |
| `Settings.HeaderItems` | src/pages/settings.tsx:49-82 | The header is seven lines with reminders on and six with them off (no "Reminder Time"), all on the first page. |
| `Settings.EntriesStart` | src/pages/settings.tsx:49-82 | The entries start at y = 84 with reminders on and y = 76 with them off. |
| `Settings.Paginate` | src/pages/settings.tsx:91-114 | The layout places one block per entry. |
| `Settings.PaginateKeepsEntries` | src/pages/settings.tsx:102-113 | Each entry is placed whole and in order, and pages only increase. |
| `Settings.PaginateFits` | src/pages/settings.tsx:105-113 | Each entry fits above y = 280 or starts at the top of a page, and never starts above y = 20. |
| `Settings.PaginatePages` | src/pages/settings.tsx:105-113 | Each entry sits `lines*7 + 6` below the previous on the same page, or at y = 20 of the next page. No page is skipped, and the cursor ends past the last entry. |
| `Settings.WriteHeader` | src/pages/settings.tsx:49-82 | Writing the header places its lines and leaves the cursor where the entries start. |
| `Settings.WriteProfile` | src/pages/settings.tsx:49-71 | The title, name, email, theme and reminder lines, at y = 20, 30, 38, 46 and 54. |
| `Settings.WriteReminder` | src/pages/settings.tsx:72-82 | "Reminder Time" at 62 only when on, then the heading; the cursor ends at the entries' start. |
| `Settings.WriteExport` | src/pages/settings.tsx:49-115 | The document gets the header and then either "No diary entries found." or the paginated entries. |
| `Settings.ExportDocument` | src/pages/settings.tsx:46-118 | A new document holds the export and is saved as `SoulScript_User_Data.pdf`. |
| `Settings.WriteEntries` | src/pages/settings.tsx:91-114 | The loop writes exactly the pagination layout: a new page iff `y + lines*7 > 280`, then y = 20, and the cursor advances by `lines*7 + 6`. |
| `Settings.CardTitle` | src/pages/settings.tsx:262-266 | An enabled card shows its description; the others show "Premium theme coming soon!". |
| `Settings.ThemeName` | src/pages/settings.tsx:33 | The toast names the theme's `name`, or `undefined` for an unknown id. |
| `Settings.EnabledThemesNamed` | src/pages/settings.tsx:140 | The two selectable themes are known, and their toasts name "Light & Bright" and "Dark & Cozy". |
| `Settings.SettingsPage.constructor` | src/pages/settings.tsx:25-28 | Dialogs closed, reminders on at 20:00. |
| `Settings.SettingsPage.HandleExportData` | src/pages/settings.tsx:37-128 | A failed fetch produces no document and the failure toast. Otherwise the saved document holds the header, whose "Selected Theme" line names the provider's current theme, and the entries or the "none" line. It gets the success toast, and the export dialog closes. |
| `Settings.SettingsPage.HandleThemeChange` | src/pages/settings.tsx:30-35 | The theme is set, persisted and applied through the provider, and the toast names it. |
| `Settings.SettingsPage.ClickThemeCard` | src/pages/settings.tsx:244-261 | Only light and dark can be selected. A click on any other card changes nothing. |
| `Settings.SettingsPage.HandleDeleteAccount` | src/pages/settings.tsx:130-133 | Deletion only shows the error and closes the dialog. |
| `ThemeContext.FindIn` | src/contexts/ThemeContext.tsx:107 | `find` returns the first definition with the id, or none iff no definition has it. |
| `ThemeContext.FindTheme` | src/contexts/ThemeContext.tsx:107 | A found theme is one of the four, with that id. |
| `ThemeContext.FindThemeKnown` | src/contexts/ThemeContext.tsx:43-108 | A theme is found iff its id is light, dark, vintage or minimal. |
| `ThemeContext.GradientFor` | src/contexts/ThemeContext.tsx:119-133 | A gradient exists iff the theme is light or dark. |
| `ThemeContext.ThemedStyleFacts` | src/contexts/ThemeContext.tsx:112-133 | The six colour variables hold the theme's colours. The gradient is present iff the theme is light or dark. All other properties are kept. |
| `ThemeContext.ThemedClassesFacts` | src/contexts/ThemeContext.tsx:136-142 | `theme-<id>` is the only `theme-*` class left, and all other classes are kept. |
| `ThemeContext.UseTheme` | src/contexts/ThemeContext.tsx:37-41 | `useTheme` throws its message outside a provider and returns the context inside one. |
| `ThemeContext.InitialTheme` | src/contexts/ThemeContext.tsx:146-148 | The saved theme is used iff it is a known id; otherwise the current theme stays. |
| `ThemeContext.PersistedThemeRestored` | src/contexts/ThemeContext.tsx:146-158 | A known theme that was set is the one restored on the next start. |
| `ThemeContext.ThemeProvider.constructor` | src/contexts/ThemeContext.tsx:103 | The provider starts on light. |
| `ThemeContext.ThemeProvider.ApplyTheme` | src/contexts/ThemeContext.tsx:106-143 | An unknown id changes nothing. Otherwise the colours, the gradient and the one body class of that theme are applied. |
| `ThemeContext.ThemeProvider.Init` | src/contexts/ThemeContext.tsx:146-152 | The theme becomes the restorable saved one or stays. It is applied, and the storage is only read. |
| `ThemeContext.ThemeProvider.SetTheme` | src/contexts/ThemeContext.tsx:154-158 | `setTheme` records the theme, stores that id under `"diary-theme"`, and applies it. |
| `ThemeToggle.Toggled` | src/components/ThemeToggle.tsx:7-9 | Toggling yields light or dark: dark iff the theme was light. |
| `ThemeToggle.ToggleTwice` | src/components/ThemeToggle.tsx:7-9 | Toggling twice returns to the start iff the start is light or dark; any other theme ends on dark. |
| `ThemeToggle.OnKeyPress` | src/components/ThemeToggle.tsx:18-20 | Only Enter and space toggle. |
| `ThemeToggle.Appearance` | src/components/ThemeToggle.tsx:22-31 | The sun shows iff the theme is light. The track is coloured and the knob moved iff it is dark. |
| `ThemeToggle.AppearanceAfterToggle` | src/components/ThemeToggle.tsx:22-31 | After a toggle, the switch shows the sun with the knob left or the moon with it right. |

## Left out

- PBKDF2 (100000 iterations, SHA-256), AES-GCM-256, `TextEncoder`/`TextDecoder` and CryptoJS are parameters, not definitions. The model claims no tamper or wrong-key detection of its own. `DiaryEntry.DecryptEncrypt` assumes that open inverts seal, as an explicit precondition.
- `crypto.getRandomValues` is modelled as input bytes. The server timestamp is modelled as an input.
- Firestore is not modelled: the queries, `onSnapshot`, `addDoc`, and `saveMoodEntry`, `updateMoodEntry` and `deleteMoodEntry` of src/utils/diary.ts, which only encrypt and forward to the store. Their outcomes enter as parameters (a write error, a failed fetch, the list of documents in query order).
- The authentication service (src/utils/auth.ts) and the DiaryContext refresh are not modelled. A sign-in or reset outcome is a parameter, and router navigation becomes a returned route.
- React effect ordering, batching and subscription lifetimes are not modelled. Each handler runs to completion on the state it reads.
- Speech recognition start and stop, and its 30-second timer (src/components/DiaryEntry.tsx:186-222), are not modelled. Only the transcript append is.
- JavaScript `Date` and date-fns are replaced by integers. Days are local day numbers, with no time zones, daylight saving, millisecond flooring or `toISOString`. A trend element carries its day number instead of its date string.
- `formatEntryDate` (src/utils/date.ts:10-22) and the `toLocale*` date strings are not modelled: they are locale and clock formatting.
- `Calendar.DateKeyIsDayKey`: requires a year of at least 1000, because `format(..., "yyyy")` pads to four digits while the page's key does not pad the year.
- jsPDF rendering and font sizes are not modelled, and `splitTextToSize` is given as the lines of each entry. Without it, the entry text `Date/Mood/Content` is not modelled.
- The loading toast and `toast.dismiss` are not modelled.
- Lengths are counted in characters, where the code counts UTF-16 code units (the password's six characters, the 200-character preview). Entry content is treated as plain text, though it is rendered as HTML.
- Presentation is not modelled:
  - the sidebar preview (src/pages/calendar.tsx:329-331);
  - the sidebar's first three tags;
  - the card's tag chips and its `onEdit` button;
  - the reminder inputs and the modal setters;
  - the dashboard's greeting and date header;
  - the commented-out sign-up page (src/pages/auth.tsx:208-514).
- `Diary.TrendOf`: the day counter at src/utils/diary.ts:197-199 has no guard. A stored mood that is an integer-like string such as "5" gets a NaN counter. `Object.entries` lists integer keys first, and `current[1] > NaN` is never true, so the reduce at src/utils/diary.ts:201-203 returns "5" as the day's mood. The model counts only the eight moods and returns a known mood; `Diary.DayTrend`, the `weeklyTrend` of `Diary.GetMoodAnalytics` and the recent moods behind the positive and tough insight lines of `Diary.GetMoodInsights` (src/utils/diary.ts:248-266) inherit this. For such a day the code shows neither line, where the model may show one.
- `Diary.CountMoods`: a stored mood named after an inherited `Object.prototype` member ("toString", "constructor", "valueOf" and the like) passes the `!== undefined` guard at src/utils/diary.ts:148, and `++` adds an own key holding NaN. The model treats such a mood as unknown and skips it, so the result always has exactly the eight counters.
- `Dashboard.Tallies`: for the same reason the `Object.entries` list can hold a ninth, NaN tally, whose place in the sort at src/pages/dashboard.tsx:224-226 is then left to the engine. The model's eight tallies do not cover that case.
- `ThemeContext.ThemeProvider.SetTheme`: the type `Theme` only allows the four ids. The model also accepts any string, which is stored and leaves the style unchanged, since `applyTheme` returns early.

## Findings

| source | as written | input that shows it | evidently intended | confidence | as-written member | corrected member |
|---|---|---|---|---|---|---|
| src/utils/diary.ts:63-70 | `decryptData` (src/utils/crypto.ts:8-16) catches every failure and returns `""`, so the `catch` that should store `"[Decryption failed]"` never runs | a document whose ciphertext fails to decrypt (CryptoJS throws "Malformed UTF-8 data") comes out with empty content | a failed decryption shows the sentinel | not executed | `Diary.FetchSentinelCounterexample` | `Diary.FetchSentinelWhenDecryptThrows` |
| src/pages/calendar.tsx:40-49 | `setMonth(getMonth() ± 1)` on a date that keeps its day of the month overflows from days 29-31 into the month after the target | on 31 January 2025, "next" shows March 2025 (3 March) and skips February | previous / next moves by exactly one month | not executed | `Calendar.NavigateSkipsFebruary` | `Calendar.CalendarView.NavigateMonth` |

The first finding is modelled by `Diary.FetchSentinelUnreachable` with
`decryptData` as written. The counterexample lemma exhibits the empty
content. `Diary.MapDoc`, which the rest of the model uses, replaces a
decryption that reports failure by the sentinel.

The second finding is modelled by `Calendar.SetMonthAsWritten`.
`Calendar.SetMonthEarlyDays` shows that days 1 to 28 are not affected. The
page class moves by exactly one month (`Calendar.MonthShift`).
