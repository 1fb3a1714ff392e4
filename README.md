# Caption engine of the audiogram converter

This project models the part of `convert_video_to_audiogram` that turns a word-level speech
transcript into the caption clips laid over the video. It covers three steps:

- **Flattening** (`transcript.dfy`, module `Transcript`). The recogniser's segments are
  flattened into one stream of `{word, start, end}` records, and each word's text is
  stripped of surrounding whitespace, using the character set of Python's `str.isspace`.
- **Line segmentation** (`segmenter.dfy`, module `Segmenter`). `split_text_into_lines` scans
  the stream greedily, left to right. It appends a word to the open line and then checks
  three limits:
  - the joined text is longer than 25 characters;
  - the summed word durations exceed 3.0 s;
  - the silence since the previous word of the whole stream exceeds 1.5 s.

  When a limit is exceeded, the open line is emitted, including the word that exceeded it.
  Whatever is still open at the end is emitted as the last line.

  A consequence of this order: the comment at `AiSubtitles.py:61` says lines are split where
  nothing is spoken, but the code does not split at a silence. The word after a silence is
  appended first, so it ends the line that was open before the silence. With "Hi" at
  0.0-0.2 s and "there" at 2.0-2.2 s, the result is the single line "Hi there", shown
  across the 1.8 s silence. The model follows the code: `Segmenter.SilenceEndsLine` states
  this for every input, and `Segmenter.SilenceExample` works through the two-word case.
- **Caption layout** (`caption.dfy`, module `Caption`). `create_caption` lays a line's words
  out in a band 90% of the frame wide.
  - The band is centred horizontally by `x_buffer`. It is anchored at 2/3 of the frame
    height for option 1, and at 1/2 otherwise.
  - A word that would overflow the band together with its trailing space starts a new row,
    `word_height + 10` lower.
  - Each word yields a word clip and a space clip, both shown for the whole line's window.
  - After all of those comes one highlight clip per word, at the word's position and during
    the word's own window.
  - `Caption.CreateCaption` runs the layout loop as its own method, `Caption.LayOutWords`,
    then the highlight loop.
  - The loop that collects every line's clips into one list is `Caption.BuildOverlay`.

`audiogram.dfy` (module `Audiogram`) chains the three steps.

Each loop of the original is a method with loop invariants, proved equal to a recursive
specification function. The properties are proved as lemmas about those functions:

- the lines partition the words in order, and every line's fields agree with its words;
- a line is cut exactly where the flush policy says;
- the layout stays within its bounds and follows the row-wrap rule;
- the clip list has the stated shape, with three clips per word.

Timestamps and positions are `real`. Text sizes are natural numbers given by a measure
function `Caption.Measure`, which stands in for `TextClip(...).size`.

Where a comment and the code disagree, the model follows the code: the comment at
`AiSubtitles.py:130` says the band is 80% of the width, but the factor is 0.9.

One edge of the layout is easy to miss:

- The loop at `AiSubtitles.py:151-154` applies the wrap test to the first word too. A first
  word wider than the band, together with its space, is therefore drawn one row below the
  anchor, and the top row stays empty. `Caption.FirstWord` states this.

## Model

| member | source | states |
|---|---|---|
| Transcript.TrimLeading | AiSubtitles.py:46 | the result is the longest suffix of the text that does not start with whitespace; everything dropped is whitespace |
| Transcript.TrimTrailing | AiSubtitles.py:46 | the result is the longest prefix of the text that does not end with whitespace; everything dropped is whitespace |
| Transcript.StripCharacterised | AiSubtitles.py:46 | `strip()` returns a contiguous slice of the text, and everything removed at either end is whitespace |
| Transcript.StripEnds | AiSubtitles.py:46 | the stripped text neither starts nor ends with whitespace |
| Transcript.StripIdempotent | AiSubtitles.py:46 | stripping twice gives the same text as stripping once |
| Transcript.AllWordsCount | AiSubtitles.py:42-46 | the flat stream is exactly as long as the sum of the segments' word counts |
| Transcript.AllWordsAt | AiSubtitles.py:42-46 | word `j` of segment `i` sits in the stream right after all words of the earlier segments, so segment order and in-segment order are kept |
| Transcript.FlattenTranscript | AiSubtitles.py:42-46 | the flattening loop emits one record per recognised word, in stream order: the text stripped, start and end unchanged |
| Segmenter.LineCharsJoined | AiSubtitles.py:77-83 | the length compared with 25 is that of the words joined by single spaces |
| Segmenter.LineEnd | AiSubtitles.py:69-91 | a line opened at index `a` and scanned from `c` ends after at least one more word whenever words remain, and never past the stream's end |
| Segmenter.LineEndFlushes | AiSubtitles.py:74-91 | the line ends at the first word whose addition triggers a flush; no earlier word did; a line ending before the stream ends was flushed by its last word |
| Segmenter.LinesFrom | AiSubtitles.py:69-113 | the scan from index `a` emits no line exactly when no words remain |
| Segmenter.LinesFromCover | AiSubtitles.py:69-111 | for any flush test, concatenating the emitted lines' words gives back the scanned words exactly |
| Segmenter.LinesFromWellFormed | AiSubtitles.py:92-110 | for any flush test, every emitted line is non-empty and its text, start and end agree with its words; there are no more lines than words |
| Segmenter.LineEndSkip | AiSubtitles.py:69-91 | while no word has flushed the open line, resuming the scan further on finds the same end |
| Segmenter.LinesFromFlush | AiSubtitles.py:91-100 | when the first flushing word of the open line is at `c`, the line `data[a..c+1]` is emitted and the scan restarts at `c + 1` |
| Segmenter.LinesFromLast | AiSubtitles.py:104-111 | when no word flushes the open line up to the end, the remaining words form the final line |
| Segmenter.Cuts | AiSubtitles.py:69-111 | there is one cut index per emitted line |
| Segmenter.CutsAt | AiSubtitles.py:69-111 | cuts strictly increase from the opening index; each is where the line opened at the previous cut ends; only the last cut is the end of the stream |
| Segmenter.LinesFromAt | AiSubtitles.py:69-111 | line `k` holds exactly the words between the previous cut and its own cut |
| Segmenter.LinesFromSpan | AiSubtitles.py:92-110 | line `k` is non-empty; its start and end are those of its first and last words |
| Segmenter.WordsBeforeOpening | AiSubtitles.py:69-111 | line `k` opens right after all the words of the lines before it |
| Segmenter.SplitCovers | AiSubtitles.py:69-111 | segmentation never drops, duplicates or reorders words: the lines' words concatenated are the input stream |
| Segmenter.SplitWellFormed | AiSubtitles.py:64-113 | every line is well formed; there are at most as many lines as words; empty input gives no lines and only empty input does |
| Segmenter.LineStartCounts | AiSubtitles.py:69-111 | the index at which line `k` opens is the number of words in lines `0..k-1` |
| Segmenter.LineWords | AiSubtitles.py:92-110 | line `k` is the slice of the stream between two cuts; its first and last words are the stream's words at those positions; its start and end are theirs |
| Segmenter.LinesFromPolicy | AiSubtitles.py:74-111 | for any flush test, no word of line `k` but the last triggered a flush; every line but the last was flushed by its last word; only the last line reaches the end of the stream |
| Segmenter.SplitLineAt | AiSubtitles.py:74-111 | line `k` is the words `data[o..o+n]`; no proper prefix met any limit; every line but the last was emitted because its final word exceeded the duration, length or gap limit; only the last line ends at the stream's end |
| Segmenter.LineWithinSoftLimits | AiSubtitles.py:74-91 | a line without its last word stays within 3.0 s of summed duration and 25 joined characters |
| Segmenter.GapAcrossLines | AiSubtitles.py:84-89 | the gap check on a line's first word compares it with the previous word of the whole stream, which is the last word of the line before; the check fires exactly when the gap between the two lines' windows exceeds 1.5 s |
| Segmenter.SilenceEndsLine | AiSubtitles.py:61-99 | the word after a silence longer than 1.5 s is the last word of the line that holds it; the word before the silence is in that same line unless the line opens at the word after it |
| Segmenter.SilenceExample | AiSubtitles.py:61-111 | "Hi" at 0.0-0.2 s and "there" at 2.0-2.2 s, 1.8 s apart, come out as the single line "Hi there" |
| Segmenter.SplitLineOrdered | AiSubtitles.py:91-111 | line monotonicity, for words that each end no earlier than they start and whose starts never decrease: every line's start is at most its end, and no line starts before the previous one |
| Segmenter.FlushChecks | AiSubtitles.py:74-91 | the loop's three tests on the extended line, with the gap test skipped for index 0 and taken against `data[idx-1]`, hold exactly when the specification's flush test fires |
| Segmenter.ScanStep | AiSubtitles.py:69-102 | one loop round keeps the scan invariant: either the extended line is emitted and a new line opens after it, or the line stays open |
| Segmenter.ScanFinish | AiSubtitles.py:104-113 | after the loop, emitting the open line if there is one yields the specification's lines |
| Segmenter.SplitTextIntoLines | AiSubtitles.py:57-113 | the scanning loop returns exactly the specification's lines |
| Caption.BandOf | AiSubtitles.py:128-136 | the band is 0.9 of the frame width and centred, with equal margins summing to the rest; it is anchored at 2/3 of the height for option 1, else at 1/2 |
| Caption.CursorAfter | AiSubtitles.py:151-170 | the row cursor never goes negative |
| Caption.Placements | AiSubtitles.py:157-166 | there is one position record per word |
| Caption.BaseClips | AiSubtitles.py:168-173 | there are two base clips per word |
| Caption.Highlights | AiSubtitles.py:175-178 | there is one highlight clip per word |
| Caption.PlacementsAt | AiSubtitles.py:151-166 | record `i` holds word `i`'s text, times and duration `end - start`, and its measured size, at the cursor given by the wrap rule plus the band offsets |
| Caption.CursorStep | AiSubtitles.py:151-170 | after word `i` the cursor stands just past the word and its space, on the row where the word was drawn |
| Caption.PlacementBounds | AiSubtitles.py:151-170 | every word's x is at least `x_buffer` and its y at least `y_buffer`; a word that fits in the band with its space never overflows it; a word wider than the band is still drawn, unsplit, at the row start |
| Caption.CursorRowMonotone | AiSubtitles.py:151-170 | the cursor's row never decreases as words are laid out |
| Caption.RowsDescend | AiSubtitles.py:151-166 | along a line, a later word is never drawn above an earlier one |
| Caption.NextWord | AiSubtitles.py:151-170 | the next word either follows the previous word and its space on the same row, when it fits with its own space, or resets x to the band's edge and moves down by its own height plus 10 |
| Caption.FirstWord | AiSubtitles.py:151-166 | the first word is drawn at the band's left edge; on the anchor row if it fits with its space, else one row of its height plus 10 lower |
| Caption.BaseClipsAt | AiSubtitles.py:168-173 | clips `2i` and `2i + 1` are word `i` at its position and its space just right of it, both during the line's window |
| Caption.HighlightsAt | AiSubtitles.py:175-178 | highlight `i` is at record `i`'s position, from the word's start for the word's duration |
| Caption.ClipsAt | AiSubtitles.py:141-178 | a line's clip list has `3n` entries; word `i` owns entries `2i`, `2i + 1` and `2n + i` |
| Caption.CaptionSchedule | AiSubtitles.py:119-180 | a line with `n` words yields `3n` clips. Word and space clips come first, interleaved, for the whole line's window. Then come the highlights in word order, each at its word's position and measured size, active from the word's start for `end - start` |
| Caption.LayoutStep | AiSubtitles.py:141-173 | one layout round keeps the cursor, the position list and the clip list equal to their specifications |
| Caption.LayOutWords | AiSubtitles.py:141-173 | the layout loop returns one position record per word, placed by the wrap rule, and the interleaved word and space clips for the line's window |
| Caption.HighlightStep | AiSubtitles.py:175-178 | one round of the highlight loop appends the next record's highlight after those already appended |
| Caption.CreateCaption | AiSubtitles.py:119-180 | `create_caption` returns exactly the specified clip list of the line: the band of the frame, the layout loop's clips, then the highlights |
| Caption.OverlaySize | AiSubtitles.py:184-187 | the collected clips number three per word of all lines |
| Caption.BuildOverlay | AiSubtitles.py:184-187 | the collecting loop returns every line's caption clips, line after line |
| Audiogram.CaptionTranscript | AiSubtitles.py:42-187 | flattening, then splitting, then collecting gives one stripped record per recognised word, the specified lines, and the specified overlay. The lines give back the word stream, and the overlay has exactly three clips per recognised word |

## Left out

- Extracting the audio with ffmpeg (`AiSubtitles.py:20-25`) is not modelled: it is a foreign call.
- Loading the video and reading its size and duration is not modelled: it is a foreign call. The frame width and height become parameters.
- Whisper transcription is not modelled: it is a foreign call. Its segments, each a list of timed words, are the model's input.
- The write and re-read through `data.json` (`AiSubtitles.py:49-54`) is taken to return the list unchanged, because it is file I/O. The segmenter is applied directly to the flattened list.
- moviepy rendering is not modelled because it is foreign code. This covers `TextClip`, `set_start`, `set_duration`, `set_position`, `CompositeVideoClip` and `write_videofile`. Clips are plain records of kind, text, position and time window.
- Font, font size, colours and stroke are not modelled. They only affect rendering, and the measure function stands in for their effect on size.
- The highlight clip's own size is not recorded. It is rendered with a background colour, and the model assumes that does not change the layout: highlights take their word's position.
- Python floats are modelled as exact `real` arithmetic, so rounding in the duration sums, in the gap subtraction and in the 0.9, 2/3 and 1/2 factors is not captured.
- The unused `line_chars` and `wordcount` variables are left out. They have no effect on behaviour.
- Input validation is not modelled, as the source does none: nothing requires words in time order or `end >= start`. Line monotonicity therefore holds only for such inputs, and `Segmenter.SplitLineOrdered` takes them as preconditions.
- `main.py` (the GUI, downloads, video cropping and blurring, and segment splitting) is not part of this model.
