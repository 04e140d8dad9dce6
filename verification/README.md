# Spotify lyric sync core, modelled in Dafny

This project models the lyric-synchronisation core of the Spotify lyric
translation overlay. It has three parts:

- **The LRC parser** (`lrc_parser.dfy`, module `LrcParser`). `parse_lrc` does the following:
  - Splits the text into lines and strips each line.
  - Skips blank lines and metadata tags such as `[ar: Someone]`.
  - Finds every `[M:SS]`, `[MM:SS]` or `[MM:SS.f]`…`[MM:SS.fff]` timestamp token on a line.
  - Turns each token into milliseconds.
  - Emits one `LyricLine` per token, all carrying the stripped text after the line's last token.
  - Sorts the entries stably by time.
  - Drops every entry whose `(time, text)` pair was already seen.

  `ParseLrc` is a method with the source's loops. It is proved equal to the function `Parsed`. The lemmas about `Parsed` state what the output promises:
  - Sorted by time.
  - Free of repeated pairs.
  - Holding exactly the entries the lines produce, the first of each pair kept.
  - Equal times in encounter order.
  - Every time in range, and every text stripped and non-empty.

  The regular expression, `str.strip` and `str.splitlines` are written out as functions. Every token the scan yields is a match of the pattern at its start, and every position where the pattern matches yields one of the tokens.
- **The sync indexer** (`sync_engine.dfy`, module `SyncEngine`). These are pure functions:
  - `current_line_index` is `bisect_right(times, p) - 1`. `bisect_right` is modelled by its halving algorithm.
  - `window` is a clamped Python slice around the active line. Python's slice-index adjustment is written out. With index -1 (no active line yet) it shows the first `after` lines.
- **The translation cache** (`translation_cache.dfy`, module `TranslationCache`).
  - It is a class whose `entries` map plays the role of the module-level `_CACHE` dict. Keys are `(track_id, lang)`.
  - `GetCached` returns the stored lines unless the entry is older than `maxAge` seconds. An entry is still served when `now - createdAt == maxAge`; the default age is six hours. A stale entry is evicted on the way.
  - An entry holding an empty list of lines is a hit that returns the empty list.
  - `SetCached` overwrites unconditionally.
  - Both methods are specified by the functions `Lookup`, `AfterRead` and `AfterWrite`. The lemmas about those functions carry the cache's guarantees.

`wrappers.dfy` holds the `Option` type shared by the modules.

## Model

| member | source | states |
|---|---|---|
| LrcParser.LyricLine | lrc_parser.py:5-9 | one timed line: its time in milliseconds, its text and an optional translation |
| LrcParser.IsSpace | lrc_parser.py:18 | the characters `str.strip` removes: those `str.isspace` accepts |
| LrcParser.IsLineBreak | lrc_parser.py:17 | the characters at which `str.splitlines` ends a line |
| LrcParser.LineBreakIsSpace | lrc_parser.py:17-18 | every character at which `splitlines` breaks is also in the whitespace set that `strip` removes |
| LrcParser.TrimStart | lrc_parser.py:18 | the result is a suffix of the text, everything cut off is whitespace, and it does not start with whitespace |
| LrcParser.TrimEnd | lrc_parser.py:18 | the result is a prefix of the text, everything cut off is whitespace, and it does not end with whitespace |
| LrcParser.Strip | lrc_parser.py:18 | the stripped line is empty exactly when the line is all whitespace, and otherwise starts and ends with a non-space character |
| LrcParser.StripCutsBlankEnds | lrc_parser.py:18 | the stripped line is a piece of the line with only whitespace before and after it; with `Strip`'s contract this determines the result |
| LrcParser.StripTrimmed | lrc_parser.py:18 | stripping text that has no whitespace at either end leaves it unchanged |
| LrcParser.LineEnd | lrc_parser.py:17 | the first line break, or the end of the text: nothing before it is a break and the character at it is one |
| LrcParser.NextLineStart | lrc_parser.py:17 | the next line starts just past the first break, two characters past it when the break is `\r` followed by `\n` (one break, not two), and at the end of the text when there is no break |
| LrcParser.SplitLines | lrc_parser.py:17 | empty text has no lines; no line contains a line break, and every character of a line comes from the text |
| LrcParser.SplitFirstLine | lrc_parser.py:17 | a break-free line followed by one break and more text splits into that line followed by the lines of the text |
| LrcParser.SplitJoin | lrc_parser.py:17 | break-free lines, the last non-empty, joined with `\n`, `\r\n` or any other single break character, split back into exactly those lines |
| LrcParser.DigitsValue | lrc_parser.py:36-38 | a group of n decimal digits reads as a number below 10^n, and a single digit as that digit |
| LrcParser.DigitsValueAppend | lrc_parser.py:36-38 | the digits of a followed by those of b read as value(a)·10^|b| + value(b) |
| LrcParser.DigitsValueLeadingZero | lrc_parser.py:36-37 | a leading zero does not change the value, so `05` reads as 5 |
| LrcParser.DigitValue | lrc_parser.py:36-38 | the value `int` gives one ASCII decimal digit, between 0 and 9 |
| LrcParser.DigitRun | lrc_parser.py:12 | the greedy digit run is at most the allowed width, made of digits, and ends at a non-digit unless the width is used up |
| LrcParser.Token | lrc_parser.py:26-38 | one match of the timestamp pattern: the minutes, seconds and fraction groups (the fraction empty when its optional group did not match) and the span [start, end) read by `m.end()` |
| LrcParser.WellFormed | lrc_parser.py:12 | the group widths the pattern allows: one or two minute digits, exactly two second digits, and zero to three fraction digits, all ASCII decimal digits |
| LrcParser.MatchesIn | lrc_parser.py:12 | the pattern matches at the token's start: an opening bracket, the minute digits, a colon, the two second digits, then either a closing bracket, or a dot, the one to three fraction digits and a closing bracket; the span ends after that bracket and lies within the text |
| LrcParser.MatchAt | lrc_parser.py:12 | any token the pattern yields at position i starts at i and is laid out in the text as `[`, minutes, `:`, two seconds digits and an optional `.` fraction, then `]` |
| LrcParser.MatchAfterMinutes | lrc_parser.py:12 | once `[` and the minutes and `:` have matched, any token returned is laid out in the text |
| LrcParser.TokenFrom | lrc_parser.py:12 | the token built from the digit groups found at i matches the text at i |
| LrcParser.MatchAtComplete | lrc_parser.py:12 | wherever a well-formed token is laid out in the text, the pattern tried there returns exactly that token |
| LrcParser.AfterMinutesComplete | lrc_parser.py:12 | the second half of the match is complete: a laid-out token is returned once its minutes have matched |
| LrcParser.TokenFromMatch | lrc_parser.py:12 | a laid-out token is rebuilt exactly from its digit-group lengths |
| LrcParser.DigitGroupAt | lrc_parser.py:12 | a digit group followed by a non-digit is read whole by the greedy digit run |
| LrcParser.DigitRunExact | lrc_parser.py:12 | the digit run is the number of digits before the first non-digit or the width limit |
| LrcParser.RenderMatches | lrc_parser.py:11-12 | a token written on its own is laid out as the pattern expects |
| LrcParser.RenderRoundTrip | lrc_parser.py:11-12 | a token written on its own is read back by the pattern as itself |
| LrcParser.Search | lrc_parser.py:23 | the search returns the leftmost match at or after i, with no match before it, and returns nothing only when no position matches |
| LrcParser.FindTokens | lrc_parser.py:26 | the non-overlapping scan finds nothing exactly when the search does; every token it yields is a match at its start, in increasing, non-overlapping order |
| LrcParser.NoBracketInside | lrc_parser.py:12 | no `[` lies strictly inside a match, so no match starts within another |
| LrcParser.FindTokensComplete | lrc_parser.py:26 | every position at or after i where the pattern matches yields that match among the scanned tokens |
| LrcParser.FoundTokensInside | lrc_parser.py:26-31 | every token found is well formed and lies within the line, so the text after the last one is well defined |
| LrcParser.FractionMs | lrc_parser.py:40-48 | the fraction is worth less than a second and is exactly its digits read as a decimal fraction of a second (tenths, hundredths or thousandths); no fraction is worth 0 |
| LrcParser.TokenMs | lrc_parser.py:50 | a token's time is between 0 and (99·60+99)·1000+999 ms |
| LrcParser.TokenMsParts | lrc_parser.py:50 | the whole seconds of a token's time are minutes·60+seconds and its remainder below 1000 is the fraction's milliseconds |
| LrcParser.FractionTrailingZero | lrc_parser.py:43-48 | adding a trailing zero digit to a fraction does not change its milliseconds |
| LrcParser.Stamp | lrc_parser.py:35-51 | one entry per token, in token order, with the token's time, the shared text and no translation |
| LrcParser.StampWellFormed | lrc_parser.py:35-51 | stamped entries have times in range, stripped non-empty text and no translation |
| LrcParser.TextAfterTokens | lrc_parser.py:31 | the lyric text is empty or stripped |
| LrcParser.LineEntries | lrc_parser.py:17-51 | every entry one line contributes has a time in range, stripped non-empty text and no translation |
| LrcParser.LineWithoutTokens | lrc_parser.py:22-28 | a line with no timestamp token, metadata tags included, contributes nothing |
| LrcParser.LineFanOut | lrc_parser.py:26-51 | a line with k tokens and text after the last one contributes exactly k entries, the j-th at the j-th token's time with that text; with no text after the last token it contributes nothing |
| LrcParser.Entries | lrc_parser.py:17-51 | every entry of the unsorted list is well formed |
| LrcParser.InsertByTime | lrc_parser.py:54 | insertion adds exactly one entry to the multiset |
| LrcParser.InsertSorted | lrc_parser.py:54 | inserting by time into a sorted list keeps it sorted |
| LrcParser.SortByTime | lrc_parser.py:54 | the sort result is sorted by time and a permutation of its input |
| LrcParser.AtTime | lrc_parser.py:54 | the entries selected at time t all have time t |
| LrcParser.AtTimeConcat | lrc_parser.py:54 | selecting the entries at one time distributes over concatenation |
| LrcParser.InsertAtTime | lrc_parser.py:54 | insertion keeps the relative order of the entries at every time |
| LrcParser.SortByTimeStable | lrc_parser.py:54 | the sort is stable: at every time, the entries keep their input order |
| LrcParser.SortSortedUnchanged | lrc_parser.py:54 | sorting an already sorted list leaves it unchanged |
| LrcParser.SortKeepsPairs | lrc_parser.py:54 | sorting keeps the set of (time, text) pairs |
| LrcParser.SortWellFormed | lrc_parser.py:54 | sorting keeps every entry well formed |
| LrcParser.PairIdentifies | lrc_parser.py:60 | the key `(t_ms, original)` identifies an entry among entries with the same translation, as every parsed entry has none |
| LrcParser.Pairs | lrc_parser.py:58-63 | every entry's (time, text) key is in the key set |
| LrcParser.Dedupe | lrc_parser.py:56-64 | deduplication never lengthens the list |
| LrcParser.DedupeKeys | lrc_parser.py:56-64 | deduplication loses no (time, text) pair |
| LrcParser.DedupeDistinct | lrc_parser.py:56-64 | after deduplication no two entries share a (time, text) pair |
| LrcParser.DedupeFrom | lrc_parser.py:56-64 | every kept entry comes from the input |
| LrcParser.DedupeFirstOccurrences | lrc_parser.py:56-64 | an entry is kept exactly when it is the first occurrence of its pair (both directions) |
| LrcParser.DedupeKeptIsFirst | lrc_parser.py:56-64 | a kept entry is the first occurrence of its pair, with its position |
| LrcParser.DedupeKeepsFirst | lrc_parser.py:56-64 | the first occurrence of every pair is kept |
| LrcParser.DedupeOrder | lrc_parser.py:56-64 | the i-th and j-th kept entries (i < j) are first occurrences of their keys at positions a < b of the input: kept entries are the first occurrences, in input order |
| LrcParser.DedupeSorted | lrc_parser.py:56-64 | deduplicating a sorted list keeps it sorted |
| LrcParser.DedupeAtTime | lrc_parser.py:56-64 | deduplicating and then selecting one time gives the same result as selecting first and then deduplicating |
| LrcParser.PairAtTime | lrc_parser.py:56-64 | a pair with time t is in a list exactly when it is among the entries at t |
| LrcParser.DedupeDistinctUnchanged | lrc_parser.py:56-64 | a list without repeated pairs is left unchanged |
| LrcParser.DedupeWellFormed | lrc_parser.py:56-64 | deduplication keeps every entry well formed |
| LrcParser.SortDedupeWellFormed | lrc_parser.py:54-64 | sorting and then deduplicating keeps every entry well formed |
| LrcParser.Parsed | lrc_parser.py:14-66 | the result is sorted by time and has no repeated (time, text) pair; every entry has a time in range, stripped non-empty text and no translation |
| LrcParser.ParsedMembers | lrc_parser.py:14-66 | an entry is in the result exactly when some line produces it |
| LrcParser.ParsedStable | lrc_parser.py:54-64 | the entries at any one time are those the lines produce at that time, in encounter order, with repeats dropped |
| LrcParser.ParsedInOrder | lrc_parser.py:54-64 | when the lines already produce entries in time order without repeats, they are the result unchanged |
| LrcParser.ParsedBlank | lrc_parser.py:17-20 | empty or all-whitespace text parses to the empty list, not an error |
| LrcParser.BlankEntries | lrc_parser.py:17-20 | lines that each contribute nothing contribute nothing together |
| LrcParser.ParseLrc | lrc_parser.py:14-66 | the parser's loops, sort and dedupe compute `Parsed` |
| LrcParser.EmitLine | lrc_parser.py:17-51 | the body of the line loop appends exactly the line's entries, metadata check included |
| LrcParser.EmitTokens | lrc_parser.py:35-51 | the token loop computes one entry per token with its time |
| LrcParser.DropRepeats | lrc_parser.py:56-64 | the `seen`-set loop computes `Dedupe`, with `seen` holding the pairs of the prefix so far |
| LrcParser.WholeSecondsExample | lrc_parser.py:36-50 | `[00:05]`, with no fraction, is a token worth 5000 ms |
| LrcParser.TenthsExample | lrc_parser.py:43-44 | `[00:05.4]` is a token worth 5400 ms |
| LrcParser.HundredthsExample | lrc_parser.py:45-46 | `[00:05.40]` is a token worth 5400 ms |
| LrcParser.ThousandthsExample | lrc_parser.py:47-48 | `[00:05.400]` is a token worth 5400 ms |
| LrcParser.NoBracketNoToken | lrc_parser.py:23 | with no `[` ahead, the search finds nothing |
| LrcParser.MetadataExample | lrc_parser.py:22-24 | the metadata tag `[ar: Someone]` contributes no entry |
| LrcParser.SingleLine | lrc_parser.py:17 | text without line breaks is a single line |
| LrcParser.StripLeadingSpace | lrc_parser.py:18 | a leading space does not change what stripping leaves |
| LrcParser.FanOutExample | lrc_parser.py:14-66 | one line with two timestamps parses to two entries with the same text at 1000 and 2000 ms |
| SyncEngine.BisectRight | sync_engine.py:15 | the insertion point lies within the searched range |
| SyncEngine.BisectRightPartition | sync_engine.py:13-15 | on a sorted list, everything before the insertion point is at most x and everything from it on is greater, duplicates included |
| SyncEngine.CurrentLineIndex | sync_engine.py:4-16 | the index is between -1 and the last index, and is -1 when the position is absent or the list empty |
| SyncEngine.CurrentLineIndexSplits | sync_engine.py:5-15 | on sorted times every line up to the index has started and every later line has not |
| SyncEngine.CurrentLineIndexIs | sync_engine.py:6 | line i is the result exactly when it has started and the next one has not (both directions) |
| SyncEngine.CountStarted | sync_engine.py:13-15 | the number of started lines is at most the number of lines |
| SyncEngine.SplitIsCount | sync_engine.py:13-15 | a split point between started and later lines equals the number of started lines |
| SyncEngine.CurrentLineIndexCounts | sync_engine.py:13-15 | on sorted times the index is the number of started lines minus one |
| SyncEngine.BeforeFirstLine | sync_engine.py:7 | the result is -1 exactly when the position precedes the first time |
| SyncEngine.AfterLastLine | sync_engine.py:8 | the result is the last index exactly when the position is at or past the last time |
| SyncEngine.CurrentLineIndexMonotone | sync_engine.py:15 | a later position never yields an earlier line |
| SyncEngine.CurrentLineIndexExample | sync_engine.py:4-16 | with times 1000, 5000, 9000: 0 gives -1, 1000 and 4999 give 0, 5000 gives 1, 999999 gives 2, no position gives -1 |
| SyncEngine.DefaultBefore | sync_engine.py:18 | the window shows up to 2 lines before the active one by default |
| SyncEngine.DefaultAfter | sync_engine.py:18 | the window shows up to 6 lines after the active one by default |
| SyncEngine.SliceBound | sync_engine.py:26 | an adjusted slice bound lies within the list |
| SyncEngine.PySlice | sync_engine.py:26 | within-range bounds give the ordinary slice, crossed non-negative bounds give nothing, and every element is taken in order from the adjusted lower bound |
| SyncEngine.PySliceLength | sync_engine.py:26 | a slice is as long as the distance between its adjusted bounds, and empty when they cross |
| SyncEngine.PySliceNegative | sync_engine.py:26 | negative bounds count from the end: `s[-n:]` is the last n elements and `s[:-n]` all but them |
| SyncEngine.Window | sync_engine.py:18-26 | the window is never longer than the list, and empty for an empty list |
| SyncEngine.WindowIsClampedRun | sync_engine.py:22-26 | with margins of at least 0 and an index of at least -1, the window is the run from max(0, idx-before) to min(len, idx+after+1), at most before+after+1 long |
| SyncEngine.WindowBeforeStart | sync_engine.py:24-26 | with no active line (-1), the window is the first min(len, after) lines |
| SyncEngine.WindowShowsActive | sync_engine.py:24-26 | the active line is in its window, min(idx, before) places from the top |
| SyncEngine.WindowExample | sync_engine.py:18-26 | with the default margins, three lines with the last active are all shown, and ten lines around index 5 show lines 3 to 9 |
| TranslationCache.DefaultMaxAgeSeconds | translation_cache.py:8 | entries are served for six hours (21600 s) by default |
| TranslationCache.CachedLine | translation_cache.py:5 | one stored line: its time, the original text and its translation |
| TranslationCache.Entry | translation_cache.py:17-18 | the stored value: the second it was written and the lines |
| TranslationCache.Expired | translation_cache.py:12 | an entry is stale when strictly more than maxAge seconds have passed since it was written |
| TranslationCache.ExpiredBoundary | translation_cache.py:12 | an entry is still fresh exactly maxAge seconds after it was written, the boundary second included, and stale one second later |
| TranslationCache.Lookup | translation_cache.py:8-15 | a read returns lines exactly when the key is present and not older than the allowed age, and then returns the stored lines |
| TranslationCache.AfterRead | translation_cache.py:9-14 | after a read the key stays only if present and fresh; every other key and entry is unchanged |
| TranslationCache.AfterWrite | translation_cache.py:17-18 | after a write the key holds the new lines stamped with now; every other key and entry is unchanged |
| TranslationCache.Cache.constructor | translation_cache.py:6 | the table starts empty |
| TranslationCache.Cache.GetCached | translation_cache.py:8-15 | `get_cached` returns `Lookup` of the old table and leaves the table as `AfterRead` says |
| TranslationCache.Cache.SetCached | translation_cache.py:17-18 | `set_cached` leaves the table as `AfterWrite` says |
| TranslationCache.ReadMissing | translation_cache.py:9-11 | reading an absent key returns nothing and leaves the table unchanged |
| TranslationCache.WriteThenRead | translation_cache.py:12-18 | a read at most maxAge seconds after a write, the limit included, returns the written lines; a later read returns nothing and evicts the key |
| TranslationCache.EvictedStaysAbsent | translation_cache.py:12-14 | after a stale entry is read, every following read of that key returns nothing |
| TranslationCache.ReadOutcome | translation_cache.py:9-15 | a read that returns lines leaves the table unchanged; a read that returns nothing leaves no entry under the key |
| TranslationCache.ReadTwice | translation_cache.py:9-15 | a second read at the same time changes nothing more and returns the same answer |
| TranslationCache.LastWriteWins | translation_cache.py:17-18 | a second write to a key replaces the first, with its time |
| TranslationCache.OtherKeysUnaffected | translation_cache.py:13-18 | reads and writes of one key leave every other key's answer unchanged |
| TranslationCache.EmptyLinesAreCached | translation_cache.py:10-15 | an empty list of lines is stored and read back as an empty list, not as a miss |
| TranslationCache.DefaultAgeScenario | translation_cache.py:8-18 | with the default six-hour age, a write is readable exactly 21600 s later and gone 21601 s later, and stays gone |

## Left out

- The clock: `int(time.time())` becomes the `now` parameter of the cache operations, in whole seconds.
- Concurrency: the cache is one object used by one caller at a time. Python's thread interleavings on the shared dict are not modelled.
- The module-level `_CACHE` global is modelled as a `Cache` object. A program uses one instance for the whole process.
- Aliasing: `get_cached` returns, and `set_cached` stores, the caller's own list object. The model's lines are a value, so a caller mutating that list after storing it, which no caller here does, is not modelled.
- `CachedLine` models the cached dicts as records with the fields `t`, `orig` and `trans`. The code never inspects these fields.
- Digits: the pattern's `\d` and `int()` accept other Unicode decimal digits too. The model reads the ASCII digits `0`–`9` only.
- `SortByTime` is a stable insertion sort standing in for Python's Timsort. Only the sort's contract is modelled: sorted, a permutation, stable.
- `BisectRight` follows CPython's `bisect_right` algorithm as a recursive function, not as the library's C loop.
- LrcParser.ParseLrc: the source's single function is split into `EmitLine`, `EmitTokens` and `DropRepeats`, one per loop or loop body. `ParseLrc` calls them in the source's order.
- LrcParser.SplitJoin: the round trip is stated for lines joined with one kind of break. Text that mixes kinds of break, or ends with a break, is covered by `SplitFirstLine` one line at a time rather than by a closed formula.
- The orchestration in `app.py` and the translator client in `translator.py` are not part of this model. They are HTTP and network glue.
