# Web music player: the client-side player core

This project models, in Dafny, the player logic in `static/js/script.js` of a
small web music player. The page shows albums and a playlist, and plays songs
through an HTML audio element. It shows time-synchronised LRC lyrics. It can
play the songs in order or in a shuffled order, and it can repeat one song.

The model covers these parts:

- **Lyric parsing** (`lrc.dfy`, with the string helpers in `text.dfy`). This is
  `parseLRC`. It splits the text into lines and finds the first
  `[minutes:seconds.fraction]` tag of each line. An entry's time is
  minutes × 60 + seconds, and its text is the rest of the line, trimmed. A line
  whose rest is blank gives no entry. The entries are then sorted stably by time.
- **The active lyric line** (`Lrc.ActiveIndex` and
  `PlayerController.Player.UpdateCurrentLyric`). This is the linear scan that
  picks the lyric to highlight at a playback time.
- **Fisher-Yates shuffle** (`shuffle.dfy`). `shuffleArray` runs on an array
  in place. `Math.random` is replaced by draws the caller supplies.
- **Navigation** (`navigation.dfy`). Next and previous move through the playlist
  order, or through the shuffled order when shuffling. Both wrap at the ends.
- **The player state** (`player.dfy`). The module-level variables become the
  fields of the class `Player`. Every handler that changes them is a method:
  - the song-list and lyric-text callbacks;
  - `loadSong`, previous, `playNextSong`;
  - the shuffle and repeat buttons;
  - the `ended` event;
  - `updateCurrentLyric`.

  `Player.Valid()` is the invariant every method keeps:
  - the song index is in range;
  - the shuffled order is empty or a permutation of the song indices;
  - the lyrics are sorted.
- **Display helpers** (`display.dfy`). These are `formatTime` and the choice of
  icon in `updateVolumeIcon`.
- **`String.prototype.hashCode`** (`hash.dfy`). This is the polynomial hash over
  UTF-16 code units, wrapped to 32 bits at every step. It picks placeholder cover
  images.

Two behaviours of the code are worth stating plainly, because a reader might
expect otherwise:

- **The lyric tag.** The tag expression is not anchored, so the first tag
  anywhere in the line counts, and the text before it is kept
  (`Lrc.ParseLineOfMatch`, `Lrc.ParseLineSound`).
- **Negative times.** `formatTime` does not clamp negative times: -5 seconds is
  shown as `-1:-5` (`Display.FormatTimeNegative`).

## Model

| member | source | states |
|---|---|---|
| Text.NatToString | static/js/script.js:430 | `toString` of a whole number: a non-empty digit string without a leading zero whose decimal value is the number |
| Text.Pad2Digits | static/js/script.js:430 | `padStart(2, '0')` on digits: the length becomes at least 2, the value is unchanged, and longer strings are untouched |
| Text.SkipWhitespace | static/js/script.js:251 | the scan from the front stops at the first character that is not whitespace, having passed only whitespace |
| Text.SkipWhitespaceBack | static/js/script.js:251 | the scan from the back stops after the last character that is not whitespace, having passed only whitespace |
| Text.TrimSpec | static/js/script.js:251 | `trim` returns the slice of the line between a whitespace-only prefix and a whitespace-only suffix |
| Text.TrimEnds | static/js/script.js:251 | a non-empty trimmed text neither starts nor ends with whitespace |
| Text.TrimEmpty | static/js/script.js:251-253 | the trimmed text is empty exactly when the line is whitespace only |
| Text.Pad2 | static/js/script.js:430 | `padStart(2, '0')` leaves a string of two or more characters as it is and otherwise pads it to exactly two; `Text.Pad2Digits` gives the digits and the value |
| Text.Trim | static/js/script.js:251 | `trim` is never longer than its input; `Text.TrimSpec`, `Text.TrimEnds` and `Text.TrimEmpty` pin down which slice it returns |
| Text.Split | static/js/script.js:239 | `split('\n')` gives at least one piece, and no piece contains a line feed |
| Text.JoinSplit | static/js/script.js:239 | joining the pieces of `split` with line feeds gives back the text |
| Text.SplitJoin | static/js/script.js:239 | splitting lines joined with line feeds gives back the lines when none contains a line feed |
| Lrc.DigitRunEnd | static/js/script.js:243 | a greedy `\d+` stops exactly at the first non-digit |
| Lrc.MatchAt | static/js/script.js:243 | the expression tried at one position yields only genuine matches there |
| Lrc.TagAtMatched | static/js/script.js:243 | every match of the expression at a position is the one found there |
| Lrc.FirstTag | static/js/script.js:246 | `match` returns a match with no match before it, or nothing when there is no match anywhere |
| Lrc.FirstTagLeftmost | static/js/script.js:246 | a match with no match before it is the one `match` reports |
| Lrc.DecimalFraction | static/js/script.js:249 | the digits after the decimal point of `parseFloat`'s argument add a fraction in [0, 1) |
| Lrc.TagTime | static/js/script.js:248-250 | the time of a tag is minutes × 60 + seconds.fraction and is never negative |
| Lrc.TaggedEntry | static/js/script.js:248-255 | the entry a matched line gives has non-empty text and a non-negative time |
| Lrc.ParseLine | static/js/script.js:245-257 | a line's entry has non-empty text and a non-negative time |
| Lrc.ParseLineUntagged | static/js/script.js:246-247 | a line without a tag gives no entry |
| Lrc.FirstTagIsLeftmost | static/js/script.js:246 | what `match` reports is a match of the expression with no match anywhere before it |
| Lrc.ParseLineOfMatch | static/js/script.js:245-257 | a line whose leftmost match of the expression is at a given place gives that match's entry: its time and the rest of the line, trimmed, unless that rest is blank |
| Lrc.ParseLineSound | static/js/script.js:245-257 | conversely, every entry of a line comes from the leftmost match in it: the entry's time is that match's time and its text is the rest of the line, trimmed |
| Lrc.ParseAll | static/js/script.js:245 | the callback runs once per line, in line order |
| Lrc.CollectComplete | static/js/script.js:253-255 | every entry a callback produces is pushed |
| Lrc.CollectSound | static/js/script.js:253-255 | every pushed entry was produced by some callback |
| Lrc.Collect | static/js/script.js:253-255 | the pushed entries are never more than the callback results |
| Lrc.Extract | static/js/script.js:245-257 | the pushed entries are never more than the lines |
| Lrc.ExtractComplete | static/js/script.js:245-257 | every entry of every line is pushed |
| Lrc.ExtractSound | static/js/script.js:245-257 | every pushed entry comes from some line |
| Lrc.InsertByTime | static/js/script.js:260 | inserting keeps every element and adds the new one |
| Lrc.InsertByTimeSorted | static/js/script.js:260 | inserting into a time-sorted list keeps it sorted |
| Lrc.InsertByTimeAtTime | static/js/script.js:260 | the inserted entry goes before all entries with the same time |
| Lrc.SortByTime | static/js/script.js:260 | the sort gives a time-sorted permutation of its input |
| Lrc.SortByTimeStable | static/js/script.js:260 | the sort is stable: entries with equal times keep their order |
| Lrc.ParseLRC | static/js/script.js:238-261 | the parsed lyrics are sorted by time |
| Lrc.ParseLRCSpec | static/js/script.js:238-261 | the result is sorted and stable, holds exactly the entries of the lines, and is no longer than the list of lines |
| Lrc.FirstLaterFrom | static/js/script.js:406-411 | the scan stops at the first lyric later than the time, or at the end |
| Lrc.ActiveIndex | static/js/script.js:404-421 | the active index is in [-1, n-1], every lyric up to it is due, and the next one is not |
| Lrc.ActiveIndexGreatest | static/js/script.js:404-421 | on sorted lyrics, the active index is the greatest index whose time is not after the playback time |
| Shuffle.Range | static/js/script.js:352 | `[...Array(n).keys()]` is `0, 1, ..., n-1` |
| Shuffle.Swap | static/js/script.js:478 | the destructuring swap exchanges the two positions and leaves every other position as it was |
| Shuffle.SwapPermutes | static/js/script.js:478 | the destructuring swap keeps the multiset |
| Shuffle.ShuffleDown | static/js/script.js:476-479 | the loop rounds from `i` down to 1 keep the length; `Shuffle.ShuffleDownPermutes` shows they keep the multiset |
| Shuffle.Shuffled | static/js/script.js:475-480 | what `shuffleArray` leaves has the length of its input; `Shuffle.ShuffledPermutes` shows it is a permutation |
| Shuffle.ShuffleDownPermutes | static/js/script.js:476-479 | any sequence of loop rounds rearranges the elements without adding or losing any |
| Shuffle.ShuffledPermutes | static/js/script.js:475-480 | for any draws in range, the shuffle is a permutation of its input |
| Shuffle.ShuffleArray | static/js/script.js:475-480 | the array ends up as the shuffle of its old contents for the given draws |
| Shuffle.PermutationFacts | static/js/script.js:352-353 | a permutation of the indices has length n, no repeats, only indices, and every index |
| Shuffle.ShuffledRangeIsPermutation | static/js/script.js:352-353 | the shuffled indices are a permutation of [0, n) |
| Shuffle.NewShuffledOrder | static/js/script.js:352-353 | building the order gives the shuffle of [0, n) for the draws, and that is a permutation |
| Navigation.IndexOf | static/js/script.js:356 | `indexOf` is the first position holding the value, or -1 exactly when it is absent |
| Navigation.ShuffleNext | static/js/script.js:356-357 | Next in shuffle mode always lands on a song of the order; `Navigation.ShuffleNextAt` gives which one |
| Navigation.ShufflePrev | static/js/script.js:329-330 | Previous in shuffle mode always lands on a song of the order; `Navigation.ShufflePrevAt` gives which one |
| Navigation.SequentialNext | static/js/script.js:359 | `(currentSongIndex + 1) % songs.length` is a valid song index; `Navigation.SequentialNextWraps` gives which one |
| Navigation.SequentialPrev | static/js/script.js:332 | for a valid index, the previous index is a valid index whose sequential Next is the index again |
| Navigation.ShuffleNextIter | static/js/script.js:356-357 | pressing Next k times; specified by `Navigation.ShuffleNextIterAt`, `Navigation.ShuffleTour` and `Navigation.ShuffleTourCovers` |
| Navigation.ShuffleNextAt | static/js/script.js:356-357 | in an order without repeats, Next moves one position on and wraps to the first |
| Navigation.ShuffleNextPositions | static/js/script.js:356-357 | the same for every position holding the current song |
| Navigation.ShufflePrevAt | static/js/script.js:329-330 | in an order without repeats, Previous moves one position back and wraps to the last |
| Navigation.ShufflePrevPositions | static/js/script.js:329-330 | the same for every position holding the current song |
| Navigation.ShufflePrevUndoesNext | static/js/script.js:325-363 | Previous after Next, and Next after Previous, comes back to the song |
| Navigation.SequentialNextWraps | static/js/script.js:359 | the sequential Next goes one on and wraps to 0 after the last song |
| Navigation.ShuffleNextIterAt | static/js/script.js:356-357 | k presses of Next move k positions on, wrapping once |
| Navigation.ShuffleTour | static/js/script.js:356-357 | n presses of Next return to the start and play no song twice on the way |
| Navigation.ShuffleTourCovers | static/js/script.js:356-357 | within n presses of Next every song of the order is reached |
| Navigation.TourStepsDiffer | static/js/script.js:356-357 | two different numbers of presses below n reach different songs |
| Navigation.SequentialIsIdentityOrder | static/js/script.js:325-363 | sequential Next and Previous are shuffled Next and Previous over the identity order |
| PlayerController.Player.constructor | static/js/script.js:24-32 | the initial state: no songs, index 0, shuffle and repeat off, empty order and lyrics, lyric index -1 |
| PlayerController.Player.LoadSong | static/js/script.js:177-188 | an index out of range changes nothing; otherwise the song is selected and the lyrics and lyric index are reset |
| PlayerController.Player.AlbumLoaded | static/js/script.js:129-137 | the songs are replaced, the index is 0 and the order is dropped; the first song is loaded if there is one |
| PlayerController.Player.LyricsLoaded | static/js/script.js:198-199 | the lyrics become the parse of the fetched text; nothing else changes |
| PlayerController.Player.Previous | static/js/script.js:325-336 | the predecessor in the shuffled order when shuffling with an order, otherwise the previous index wrapping to the last; no songs means no change |
| PlayerController.Player.PlayNext | static/js/script.js:344-363 | no songs means no change; otherwise the successor in the order built on demand, or the next index wrapping to 0, with lyrics reset |
| PlayerController.Player.ToggleShuffle | static/js/script.js:366-375 | shuffle flips; switching it on builds a fresh permutation from the draws; switching it off keeps the old order |
| PlayerController.Player.ToggleRepeat | static/js/script.js:378-382 | repeat flips and nothing else changes |
| PlayerController.Player.Ended | static/js/script.js:464-472 | when repeating, the state is unchanged; otherwise it is exactly the state after Next |
| PlayerController.Player.UpdateCurrentLyric | static/js/script.js:400-422 | with no lyrics nothing changes; otherwise the index becomes the active index, and it is redrawn exactly when it changed |
| PlayerController.NextThenPrevious | static/js/script.js:325-363 | with shuffling on and an order built, Previous after Next returns to the same song |
| Display.Truncate | static/js/script.js:429 | the quotient `%` uses is rounded toward zero: it is within one below a non-negative quotient and within one above a negative one |
| Display.Remainder60 | static/js/script.js:429 | `seconds % 60` lies in [0, 60) for a non-negative time and in (-60, 0] for a negative one, and differs from the time by whole minutes |
| Display.IntToString | static/js/script.js:430 | `toString` of an integer; `Display.FormatTimeSpec`, `Display.FormatTimeExamples` and `Display.FormatTimeNegative` show what it gives |
| Display.FormatTime | static/js/script.js:425-431 | `formatTime`; specified by `Display.FormatTimeSpec` for non-negative times, and by `Display.FormatTimeExamples` and `Display.FormatTimeNegative` for NaN, 0, 65 and -5 |
| Display.MinutesAndSeconds | static/js/script.js:428-429 | for a non-negative time, the minutes are the whole seconds div 60 and the seconds the whole seconds mod 60 |
| Display.FormatTimeParts | static/js/script.js:425-431 | a non-negative time shows as the padded minutes, a colon, and the padded seconds |
| Display.ClockDigits | static/js/script.js:430 | minutes and seconds render as at least two digits, a colon and exactly two digits, five characters below 100 minutes |
| Display.FormatTimeSpec | static/js/script.js:425-431 | a non-negative time shows as `mm:ss` whose minutes × 60 + seconds are the whole seconds, with seconds below 60 |
| Display.LeadingDigitBound | static/js/script.js:430 | a numeral of three or more digits without a leading zero is at least 100 |
| Display.FormatTimeExamples | static/js/script.js:425-431 | NaN and 0 show as `00:00`, and 65 shows as `01:05` |
| Display.FormatTimeNegative | static/js/script.js:428-430 | -5 seconds shows as `-1:-5` |
| Display.IconFor | static/js/script.js:454-460 | the mute icon exactly at volume 0, the low icon exactly for other volumes below one half, the full icon exactly from one half |
| Display.IconForSpec | static/js/script.js:450-461 | on [0, 1]: mute exactly at 0, low exactly below one half, full from one half, and never quieter as the volume rises |
| Hash.ToInt32 | static/js/script.js:488 | `hash & hash` gives a value in [-2^31, 2^31) that differs from its input by a multiple of 2^32 |
| Hash.ToInt32Shift | static/js/script.js:488 | adding a multiple of 2^32 does not change the wrapped value |
| Hash.Utf16 | static/js/script.js:486 | `charCodeAt` gives 16-bit units, at least one per character |
| Hash.HashStep | static/js/script.js:486-488 | one round of shift, subtract, add and wrap keeps the hash congruent to the exact polynomial hash of the prefix |
| Hash.HashCode | static/js/script.js:483-491 | the result is the absolute value of the 32-bit wrapped polynomial hash of the UTF-16 units, at most 2^31 |
| Hash.HashExamples | static/js/script.js:483-491 | "a" hashes to 97 and "ab" to 3105 |

## Left out

- Everything in `app.py`, the server that lists albums and serves files, is not part of this model.
- DOM rendering is not modelled. This covers the album grid, the playlist, the lyric panel, the play button and the cover images. Only the state those functions read is modelled.
- Network requests are not modelled. A completed fetch is a method call carrying the fetched data (`AlbumLoaded`, `LyricsLoaded`).
- Failed fetches change no player state and are not modelled.
- Responses can arrive in any order, because the source has no request-generation guard. Each callback keeps `Valid()` whatever state it meets, so any interleaving of calls is covered. No guard is added.
- The lyric index can stay above the new lyrics' last index until the next `timeupdate`. This happens because `LyricsLoaded` does not reset it, as in the source. For that reason `Valid()` bounds it only from below.
- `Math.random` is not modelled. The shuffle takes the draws as a parameter, and `ValidChoices` says each draw lies in `[0, i]`. Uniformity over the n! permutations is not modelled.
- The audio element is not modelled: its source, `play`, `loop`, `currentTime` and `volume`. So are `seek` and `updateProgress`'s percentage. Playback time and volume are parameters.
- On `ended` with repeat on, the audio restarts at 0. That is an audio-element effect; the model only shows that the player state is unchanged.
- `currentAlbum` and `albums` are display-only variables and are not modelled.
- Floating point is not modelled. Times and volumes are exact reals, so `parseFloat` rounding and `minutes * 60 + seconds` rounding are not captured.
- `Lrc.TagTime` reads the minutes exactly. It does not model `parseInt` losing precision past 2^53.
- `Display.FormatTimeSpec` is stated for non-negative finite times only. The other inputs are modelled by `FormatTime` itself (NaN, the infinities, negative times), and only examples are proved about them.
- Unicode normalisation is not modelled. Strings are sequences of code points. `hashCode` reads them as UTF-16 units, and `trim` removes the ECMAScript whitespace and line-terminator characters.
- No concrete example of a full `parseLRC` run is proved. The properties are stated for all inputs (`Lrc.ParseLRCSpec`, `Lrc.ParseLineOfMatch`, `Lrc.ParseLineSound`).
