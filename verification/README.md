# Warp-Reader pacing engine and playback controller, in Dafny

Warp-Reader is a browser RSVP ("rapid serial visual presentation") reader. It
takes the text of a PDF, cuts it into words, and shows them one at a time at
a chosen speed in words per minute. In each word the letter at the optimal
recognition point (ORP) is drawn in red. This project models the parts of it
that decide what is shown and when:

- `text_processor.dfy` (module `TextProcessor`): the focus offset of a word,
  the tokenizer (`trim`, then `split(/\s+/)`, then one token per piece) and the
  per-word delay with its punctuation and length factors. These are pure
  functions over `seq<char>`. The JavaScript class `\s` and the set `trim`
  strips are the predicate `IsWhitespace`; `\w` is `IsWordChar`.
- `app.dfy` (module `App`): the reader component. The class `ReaderSession`
  holds its React state (`state`, `words`, `currentIndex`, `wpm`, `error`).
  It has one method per handler and the method `Tick`, which stands for the
  timer firing. `Valid()` is the invariant every handler keeps: once there are
  words the position is a valid word position, and before that it is 0. The
  module also holds the seek clamp, the reading-context slices and the
  extraction result that replaces the AI service.
- `word_display.dfy` (module `WordDisplay`): the before/focus/after split of
  the current word, using JavaScript's clamping `substring`.
- `controls.dfy` (module `Controls`): the rewind and fast-forward targets, the
  progress-bar click target, the speed slider's range and the progress shown.
- `types.dfy`, `wrappers.dfy`, `js_math.dfy`: the `WordData` record, the
  `ReaderState` enumeration, `Option`, and `Math.min`/`Math.max`.

Two behaviours of the code are modelled as written, not as their comments say:

- Nothing filters empty pieces. `"".split(/\s+/)` is `[""]`, so the tokenizer
  never returns an empty sequence: empty or all-whitespace text gives one
  token, the empty word. So an upload whose text is blank ends READY with that
  one word. The "No readable text found in this document." error of
  App.tsx:36-38 can never be raised; `HandleFileUpload` proves it with an
  `assert false` in that branch.
- The focus offset is computed from the raw word, punctuation included, not
  from the cleaned word.

Four further behaviours of the code, each easy to expect otherwise:

- Blank text is not a failure: it loads the one empty word, as above.
- "Hello," has a pause factor of 1.8, because the word ends with a comma
  (`ExampleDelays`).
- `setWpm` does no clamping; only the slider bounds the value, so `SetWpm`
  takes a slider value as its precondition.
- The handlers act in any state: `togglePlay` leaves IDLE, LOADING and ERROR
  as they are, and `handleReset` and `handleSeek` always act.

## Model

| member | source | states |
|---|---|---|
| `TextProcessor.GetOrpIndex` | utils/textProcessor.ts:13-20 | the focus offset lies in [0, 4], and for a non-empty word it is a valid letter position |
| `TextProcessor.OrpTable` | utils/textProcessor.ts:4-20 | lengths 0-1 give 0, 2-5 give 1, 6-9 give 2, 10-13 give 3, 14 and up give 4 |
| `TextProcessor.OrpMonotone` | utils/textProcessor.ts:13-20 | a longer word never has a smaller focus offset |
| `TextProcessor.Trim` | utils/textProcessor.ts:24 | the result is the input without a whitespace prefix and suffix; it neither starts nor ends with whitespace; it is empty exactly when the input is all whitespace |
| `TextProcessor.TrimKeepsTrimmed` | utils/textProcessor.ts:24 | text that neither starts nor ends with whitespace is left as it is |
| `TextProcessor.SplitOnWhitespace` | utils/textProcessor.ts:24 | the split always has at least one piece, and no piece contains whitespace |
| `TextProcessor.JoinSplit` | utils/textProcessor.ts:24 | the pieces joined with single spaces are the input with every whitespace run collapsed to one space, nothing else changed or reordered |
| `TextProcessor.SplitTrimmedPiecesNonEmpty` | utils/textProcessor.ts:24 | text that neither starts nor ends with whitespace splits into non-empty pieces only |
| `TextProcessor.SplitJoin` | utils/textProcessor.ts:24 | splitting non-empty, whitespace-free words joined with single spaces gives back exactly those words |
| `TextProcessor.CleanWord` | utils/textProcessor.ts:28 | the cleaned word is no longer than the word and holds only `\w` characters |
| `TextProcessor.CleanWordKeepsWordChars` | utils/textProcessor.ts:28 | every `\w` character occurs in the cleaned word as often as in the word |
| `TextProcessor.CleanWordIsSubsequence` | utils/textProcessor.ts:28 | the cleaned word is a subsequence of the word: characters are only deleted, never moved |
| `TextProcessor.CleanWordUnchangedIff` | utils/textProcessor.ts:28 | cleaning leaves a word unchanged exactly when all its characters are `\w` characters |
| `TextProcessor.TokenizeText` | utils/textProcessor.ts:22-35 | the token sequence is never empty; every raw word is free of whitespace; `clean` is the cleaned raw word and `orpIndex` is the focus offset of the raw word |
| `TextProcessor.TokenizeBlank` | utils/textProcessor.ts:22-35 | empty or all-whitespace text gives exactly one token, with empty `original` and `clean` and `orpIndex` 0 |
| `TextProcessor.TokenizeWordsNonEmpty` | utils/textProcessor.ts:24-34 | text with a non-whitespace character gives only non-empty raw words |
| `TextProcessor.TokenizeJoin` | utils/textProcessor.ts:24-26 | the raw words, joined with single spaces and in order, are the trimmed text with its whitespace runs collapsed |
| `TextProcessor.TokenizeJoined` | utils/textProcessor.ts:24-34 | tokenizing non-empty, whitespace-free words joined with single spaces yields exactly those words as raw words |
| `TextProcessor.TokenizeExample` | utils/textProcessor.ts:22-35 | the text "Hello, world! Go." gives the tokens ("Hello,", "Hello", 2), ("world!", "world", 2), ("Go.", "Go", 1) |
| `TextProcessor.OrpCountsPunctuation` | utils/textProcessor.ts:27-32 | the focus offset of "Hello," is 2, while that of its cleaned form would be 1 |
| `TextProcessor.DelayMultiplier` | utils/textProcessor.ts:41-47 | the pause factor is between 1.0 and 2.5 |
| `TextProcessor.CalculateDelay` | utils/textProcessor.ts:37-50 | the delay is the base delay times a factor that depends only on the word; for a non-negative base delay it is at least the base delay and at most 2.5 times it |
| `TextProcessor.SentenceEndWins` | utils/textProcessor.ts:41-47 | a word ending in `.`, `!` or `?` waits 2.5 base delays whatever its length |
| `TextProcessor.ClauseEndWins` | utils/textProcessor.ts:41-47 | a word ending in `,`, `;` or `:` waits 1.8 base delays whatever its length |
| `TextProcessor.LengthRuleOnlyWithoutPunctuation` | utils/textProcessor.ts:41-47 | a word longer than 8 characters that ends in none of the six punctuation marks waits 1.2 base delays |
| `TextProcessor.LongClauseEndExample` | utils/textProcessor.ts:41-47 | the 10-character "abcdefghi," waits 1.8 base delays, not 1.2 |
| `TextProcessor.LongSentenceEndExample` | utils/textProcessor.ts:41-47 | the 17-character "incomprehensible." waits 2.5 base delays, not 1.2 |
| `TextProcessor.ExampleDelays` | utils/textProcessor.ts:41-44 | "Hello," has factor 1.8, "world!" and "Go." have 2.5 |
| `WordDisplay.Substring` | components/WordDisplay.tsx:13-14 | `substring` is the slice between its two ends, each clamped into [0, length], taken in increasing order; within bounds that is the plain slice; never longer than the string |
| `WordDisplay.SubstringFrom` | components/WordDisplay.tsx:15 | the suffix from the start position, empty past the end, the whole string from a start at or before 0 |
| `WordDisplay.SplitAtOrp` | components/WordDisplay.tsx:10-15 | before, focus and after spell the whole word; before has min(orpIndex, length) letters; focus is the letter at orpIndex when that is inside the word and empty exactly when it is not; after is the suffix from orpIndex + 1, empty past the end |
| `WordDisplay.TokenFocusEmptyIff` | components/WordDisplay.tsx:14 | for a token made by the tokenizer, the focus span is empty exactly when the word is empty |
| `Controls.RewindTarget` | components/Controls.tsx:34 | the target is at least 0, at most the current index, and exactly 20 back when the index is at least 20 |
| `Controls.ForwardTarget` | components/Controls.tsx:49 | the target is at most the last index and at most 20 on, exactly 20 on when that fits, and never behind a valid current index |
| `Controls.ProgressClickTarget` | components/Controls.tsx:96-101 | the target is the floor of word count times fraction; for a fraction in [0, 1] it lies in [0, word count], below the count when the fraction is below 1 |
| `Controls.Progress` | App.tsx:196 | the progress lies in [0, 100) for a valid position and is 0 at the first word |
| `App.ServiceResult` | services/geminiService.ts:37-40 | a failed call and only a failed call is a failure, and it carries the fixed extraction-failed message; a response with text is a success with exactly that text; a response without text is the empty text |
| `App.EmptyResponseGivesOneEmptyWord` | services/geminiService.ts:37 | an empty response is a success whose text tokenizes to the one empty word |
| `App.ErrorMessage` | App.tsx:44 | the message shown is the failure's message, or the fixed fallback when that is empty; it is never empty |
| `App.ClampIndex` | App.tsx:88-90 | a seek lands in [0, count - 1] when there are words and on 0 when there are none; valid indices are kept, negative ones go to 0, too large ones to the last word |
| `App.ClampIndexIdempotent` | App.tsx:88-90 | seeking again to where a seek landed changes nothing |
| `App.SeekExamples` | App.tsx:89 | on 100 words, seeking to -5 gives 0 and to 500 gives 99 |
| `App.ProgressClickLandsOnAWord` | components/Controls.tsx:100 | a progress-bar click, after the seek clamp, lands on a valid word, and on exactly the word clicked when left of the right edge |
| `App.Slice` | App.tsx:206 | within bounds `slice` is the sequence slice; a start at or past the end gives nothing |
| `App.WordsBefore` | App.tsx:206-208 | the words before the current one are the up to 20 words ending right before it, in order |
| `App.WordsAfter` | App.tsx:210-212 | the words after the current one are at most 49, the ones starting right after it, in order |
| `App.CurrentWord` | App.tsx:209 | the highlighted word exists exactly when the index is a valid position, and is then that word |
| `App.ContextIsContiguous` | App.tsx:206-212 | before, current and after together are one contiguous run of the document |
| `App.ReaderSession.constructor` | App.tsx:11-15 | the reader starts idle with no words, at position 0, at 350 words per minute and without error |
| `App.ReaderSession.HandleFileUpload` | App.tsx:20-47 | no file changes nothing; a non-PDF only sets the invalid-file error; a successful extraction loads the tokenized text at position 0, READY, error cleared; a failure sets ERROR and its message and keeps the words and position; the speed never changes |
| `App.ReaderSession.ScheduledDelay` | App.tsx:59-66 | a wait is scheduled exactly while playing with the position inside the document; it is the paced delay of the current word at base delay 60000 / wpm, between 50 and 1500 ms at slider speeds |
| `App.ReaderSession.Tick` | App.tsx:49-57 | at or past the last word playback pauses and the position stays; otherwise the position advances by exactly one and playback continues; the position never passes the last word |
| `App.ReaderSession.TogglePlay` | App.tsx:75-81 | PLAYING becomes PAUSED; READY and PAUSED become PLAYING; IDLE, LOADING and ERROR stay; nothing else changes |
| `App.ReaderSession.HandleReset` | App.tsx:83-86 | from any state: position 0, PAUSED, words, speed and error unchanged |
| `App.ReaderSession.HandleSeek` | App.tsx:88-90 | the position becomes the clamped index, a valid index is kept as it is, and nothing else changes |
| `App.ReaderSession.Rewind` | components/Controls.tsx:34 | the position moves back by at most 20, to the rewind target; nothing else changes |
| `App.ReaderSession.FastForward` | components/Controls.tsx:49 | the position moves on by at most 20, to the forward target when there are words; nothing else changes |
| `App.ReaderSession.SeekToFraction` | components/Controls.tsx:96-101 | the position becomes the clamped progress-click target; nothing else changes |
| `App.ReaderSession.SetWpm` | components/Controls.tsx:71-79 | the speed becomes the slider value (100 to 1200 in steps of 10); nothing else changes |
| `App.ReaderSession.UploadDifferentFile` | App.tsx:180 | the state becomes IDLE; words, position, speed and error are kept |
| `App.ReaderSession.ProgressPercent` | App.tsx:196 | for a loaded document the progress handed to the controls lies in [0, 100) |

## Left out

- The extraction service (services/geminiService.ts) is not modelled: the network call to the AI model, the base64 conversion and the API key. The upload handler receives the result as an `Extraction`. `ServiceResult` keeps the two observable rules of the service: a missing response text is the empty text, and a failed call has a fixed message.
- `App.ReaderSession.HandleFileUpload`: the wait for the extraction is not modelled, so the transient LOADING state and the file name are never observable. The handler sets LOADING and then, in the same step, the outcome. The invariant states that LOADING is never left standing.
- The "No readable text found in this document." branch of the upload handler is replaced by `assert false`, because the tokenizer never returns an empty sequence.
- Timers are not modelled: `setTimeout`, `clearTimeout` and the effect cleanup. `Tick` is the firing of the one pending timer, and `ScheduledDelay` says when a timer is pending and how long it waits. Because `wpm` is among the effect's dependencies, a speed change restarts the current wait; that timing is not represented.
- The handlers can be called in any state. The screen offers the upload input only while IDLE or ERROR, and the playback controls only in the reading view; the model does not restrict the calls to those screens.
- Rendering is not modelled: the JSX, styling, icons, the `Zap` helper and the "words extracted" count.
- Floating point is not modelled. Delays, factors and progress are exact `real` values. The rounding of `Math.round(progress)` and the pixel-to-fraction conversion of the progress bar are out; the click fraction is a parameter.
- `Controls.Progress`: requires a non-empty document. With no words the source computes 0 / 0, which is NaN, and the model has no NaN.
- String lengths count Unicode code points. JavaScript counts UTF-16 code units, so a character outside the Basic Multilingual Plane counts once here and twice in the source, for the focus offset, the length-8 rule and `substring`.
- `WordData.orpIndex` is an integer. The TypeScript type `number` would also allow fractions, which the tokenizer never produces.
- `ReadingStats` in types.ts is declared but never used, so it is not modelled.
