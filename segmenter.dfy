/** Greedy segmentation of the word stream into caption lines.

    The scan appends a word to the open line and only then checks three limits
    (joined length, summed word durations, silence before the word); when one is
    exceeded the open line, including the word that exceeded it, is emitted. What
    is still open when the words run out is emitted as the last line. */
module Segmenter {
  import opened Transcript

  /** Longest joined text, in characters, before a line is flushed. */
  const MaxChars: nat := 25
  /** Longest summed word duration, in seconds, before a line is flushed. */
  const MaxDuration: real := 3.0
  /** Longest silence, in seconds, before the word that follows it is flushed. */
  const MaxGap: real := 1.5

  /** One emitted subtitle line: the joined text, its time window and its words. */
  datatype Line = Line(text: string, start: real, end: real, words: seq<Word>)

  /** The words' texts joined by single spaces (Python's `" ".join`). */
  function JoinWords(ws: seq<Word>): string
  {
    JoinFirst(ws, |ws|)
  }

  /** The texts of the first `n` words of `ws` joined by single spaces. */
  function JoinFirst(ws: seq<Word>, n: nat): string
    requires n <= |ws|
  {
    if n == 0 then ""
    else if n == 1 then ws[0].text
    else JoinFirst(ws, n - 1) + " " + ws[n - 1].text
  }

  /** The summed durations `end - start` of the words `data[a..c]`, added left to right. */
  function LineDuration(data: seq<Word>, a: nat, c: nat): real
    requires a <= c <= |data|
    decreases c
  {
    if c == a then 0.0 else LineDuration(data, a, c - 1) + (data[c - 1].end - data[c - 1].start)
  }

  /** The number of characters in the words `data[a..c]` joined by single spaces. */
  function LineChars(data: seq<Word>, a: nat, c: nat): nat
    requires a <= c <= |data|
    decreases c
  {
    if c == a then 0
    else if c == a + 1 then |data[a].text|
    else LineChars(data, a, c - 1) + 1 + |data[c - 1].text|
  }

  /** The character count that the length limit is compared with is the length of the
      joined line text: the words' lengths plus one separator between each two words. */
  lemma {:induction false} LineCharsJoined(data: seq<Word>, a: nat, c: nat)
    requires a <= c <= |data|
    ensures LineChars(data, a, c) == |JoinWords(data[a..c])|
  {
    LineCharsFirst(data, a, c, c);
  }

  lemma {:induction false} LineCharsFirst(data: seq<Word>, a: nat, c: nat, e: nat)
    requires a <= c <= e <= |data|
    decreases c
    ensures LineChars(data, a, c) == |JoinFirst(data[a..e], c - a)|
  {
    if c > a + 1 {
      LineCharsFirst(data, a, c - 1, e);
    }
  }

  /** The silence check for the word at index `c` of the whole stream: never for the
      first word, otherwise against its predecessor in the stream. */
  predicate GapExceeded(data: seq<Word>, c: nat)
    requires c < |data|
  {
    c > 0 && data[c].start - data[c - 1].end > MaxGap
  }

  /** Whether the open line `data[a..c+1]`, just extended by word `c`, is flushed. */
  predicate Breaks(data: seq<Word>, a: nat, c: nat)
    requires a <= c < |data|
  {
    || LineDuration(data, a, c + 1) > MaxDuration
    || LineChars(data, a, c + 1) > MaxChars
    || GapExceeded(data, c)
  }

  /** A flush test: whether the line opened at the first index is flushed once the word at
      the second index has been appended to it. */
  type FlushTest = (nat, nat) -> bool

  /** The caption engine's flush test for the stream `data`. */
  function Flush(data: seq<Word>): FlushTest
  {
    (a: nat, c: nat) => a <= c < |data| && Breaks(data, a, c)
  }

  /** The line record built from a non-empty run of words. */
  function MakeLine(ws: seq<Word>): Line
    requires |ws| > 0
  {
    Line(JoinWords(ws), ws[0].start, ws[|ws| - 1].end, ws)
  }

  /** A line record whose fields agree with its words. */
  predicate WellFormed(l: Line)
  {
    && |l.words| > 0
    && l.start == l.words[0].start
    && l.end == l.words[|l.words| - 1].end
    && l.text == JoinWords(l.words)
  }

  /** Where the line opened at index `a` ends, scanning on from index `c`: just after the
      first word from `c` on whose addition flushes the line, or the end of the stream. */
  function LineEnd(data: seq<Word>, flush: FlushTest, a: nat, c: nat): (r: nat)
    requires a <= c <= |data|
    decreases |data| - c
    ensures c <= r <= |data|
    ensures c < |data| ==> c < r
  {
    if c == |data| then c
    else if flush(a, c) then c + 1
    else LineEnd(data, flush, a, c + 1)
  }

  /** `LineEnd` stops at the first word that flushes the line: no word before it did,
      and unless the stream ran out, the last word taken did. */
  lemma {:induction false} LineEndFlushes(data: seq<Word>, flush: FlushTest, a: nat, c: nat)
    requires a <= c <= |data|
    decreases |data| - c
    ensures var r := LineEnd(data, flush, a, c);
      && (forall d :: c <= d < r - 1 ==> !flush(a, d))
      && (r < |data| ==> flush(a, r - 1))
  {
    if c < |data| && !flush(a, c) {
      LineEndFlushes(data, flush, a, c + 1);
    }
  }

  /** The lines of the stream from index `a` on. */
  function LinesFrom(data: seq<Word>, flush: FlushTest, a: nat): (lines: seq<Line>)
    requires a <= |data|
    decreases |data| - a
    ensures lines == [] <==> a == |data|
  {
    if a == |data| then []
    else
      var b := LineEnd(data, flush, a, a);
      [MakeLine(data[a..b])] + LinesFrom(data, flush, b)
  }

  /** `split_text_into_lines`, as a function of the word stream. */
  function Split(data: seq<Word>): seq<Line>
  {
    LinesFrom(data, Flush(data), 0)
  }

  /** The words of all lines, line after line. */
  function WordsOfLines(lines: seq<Line>): seq<Word>
  {
    if |lines| == 0 then [] else lines[0].words + WordsOfLines(lines[1..])
  }

  /** The number of words in the first `k` lines, i.e. the stream index of line `k`'s first word. */
  function WordsBefore(lines: seq<Line>, k: nat): nat
    requires k <= |lines|
  {
    if k == 0 then 0 else |lines[0].words| + WordsBefore(lines[1..], k - 1)
  }

  lemma {:induction false} WordsOfLinesAppend(lines: seq<Line>, l: Line)
    ensures WordsOfLines(lines + [l]) == WordsOfLines(lines) + l.words
  {
    if |lines| > 0 {
      assert (lines + [l])[1..] == lines[1..] + [l];
      WordsOfLinesAppend(lines[1..], l);
    } else {
      assert [l][1..] == [];
    }
  }

  lemma WordsOfLinesCons(l: Line, lines: seq<Line>)
    ensures WordsOfLines([l] + lines) == l.words + WordsOfLines(lines)
  {
    assert ([l] + lines)[1..] == lines;
  }

  /** The lines from index `a` on hold exactly the words `data[a..]`, in order. */
  lemma {:induction false} LinesFromCover(data: seq<Word>, flush: FlushTest, a: nat)
    requires a <= |data|
    decreases |data| - a
    ensures WordsOfLines(LinesFrom(data, flush, a)) == data[a..]
  {
    if a < |data| {
      var b := LineEnd(data, flush, a, a);
      WordsOfLinesCons(MakeLine(data[a..b]), LinesFrom(data, flush, b));
      LinesFromCover(data, flush, b);
      assert data[a..] == data[a..b] + data[b..];
    }
  }

  /** Every line from index `a` on is built by `MakeLine`, and there are no more lines than words. */
  lemma {:induction false} LinesFromWellFormed(data: seq<Word>, flush: FlushTest, a: nat)
    requires a <= |data|
    decreases |data| - a
    ensures |LinesFrom(data, flush, a)| <= |data| - a
    ensures forall k :: 0 <= k < |LinesFrom(data, flush, a)| ==> WellFormed(LinesFrom(data, flush, a)[k])
  {
    if a < |data| {
      var b := LineEnd(data, flush, a, a);
      var lines := LinesFrom(data, flush, a);
      assert lines[1..] == LinesFrom(data, flush, b);
      LinesFromWellFormed(data, flush, b);
      forall k | 0 <= k < |lines|
        ensures WellFormed(lines[k])
      {
        if k > 0 {
          assert lines[k] == LinesFrom(data, flush, b)[k - 1];
        }
      }
    }
  }

  /** No word of `data[a..c]` flushed the line opened at `a`: the line is still open after
      the words up to index `c` were appended. */
  ghost predicate StillOpen(flush: FlushTest, a: nat, c: nat)
    decreases c
  {
    c <= a || (StillOpen(flush, a, c - 1) && !flush(a, c - 1))
  }

  /** While the line opened at `a` is still open at `c`, scanning for its end from `a` or
      from `c` ends at the same place. */
  lemma {:induction false} LineEndSkip(data: seq<Word>, flush: FlushTest, a: nat, c: nat)
    requires a <= c <= |data|
    requires StillOpen(flush, a, c)
    decreases c
    ensures LineEnd(data, flush, a, a) == LineEnd(data, flush, a, c)
  {
    if a < c {
      LineEndSkip(data, flush, a, c - 1);
    }
  }

  /** When the word at `c` is the first to flush the line opened at `a`, that line is
      `data[a..c+1]` and the rest follow from `c + 1`. */
  lemma LinesFromFlush(data: seq<Word>, flush: FlushTest, a: nat, c: nat)
    requires a <= c < |data|
    requires StillOpen(flush, a, c)
    requires flush(a, c)
    ensures LinesFrom(data, flush, a) == [MakeLine(data[a..c + 1])] + LinesFrom(data, flush, c + 1)
  {
    LineEndSkip(data, flush, a, c);
  }

  /** When no word of `data[a..]` flushes the line opened at `a`, it is the last line. */
  lemma LinesFromLast(data: seq<Word>, flush: FlushTest, a: nat)
    requires a < |data|
    requires StillOpen(flush, a, |data|)
    ensures LinesFrom(data, flush, a) == [MakeLine(data[a..])]
  {
    LineEndSkip(data, flush, a, |data|);
    assert data[a..|data|] == data[a..];
  }

  /** The stream index just after each line from index `a` on. */
  function Cuts(data: seq<Word>, flush: FlushTest, a: nat): (cs: seq<nat>)
    requires a <= |data|
    decreases |data| - a
    ensures |cs| == |LinesFrom(data, flush, a)|
  {
    if a == |data| then []
    else
      var b := LineEnd(data, flush, a, a);
      [b] + Cuts(data, flush, b)
  }

  /** The stream index at which line `k` opens, given the cuts `cs` of lines opened from `a`. */
  function Opening(cs: seq<nat>, a: nat, k: nat): nat
    requires k <= |cs|
  {
    if k == 0 then a else cs[k - 1]
  }

  /** Each line from `a` on opens where the previous one was cut, and is cut where `LineEnd`
      ends it; only the last cut is the end of the stream. */
  lemma {:induction false} CutsAt(data: seq<Word>, flush: FlushTest, a: nat, k: nat)
    requires a <= |data|
    requires k < |Cuts(data, flush, a)|
    decreases |data| - a
    ensures var cs := Cuts(data, flush, a);
      var o := Opening(cs, a, k);
      && a <= o < cs[k] <= |data|
      && cs[k] == LineEnd(data, flush, o, o)
      && (k + 1 == |cs| <==> cs[k] == |data|)
  {
    var b := LineEnd(data, flush, a, a);
    var cs := Cuts(data, flush, a);
    if k > 0 {
      CutsAt(data, flush, b, k - 1);
      assert cs[k] == Cuts(data, flush, b)[k - 1];
      if k > 1 {
        assert cs[k - 1] == Cuts(data, flush, b)[k - 2];
      }
    }
  }

  /** Line `k` from `a` on is built from the words between its opening and its cut. */
  lemma {:induction false} LinesFromAt(data: seq<Word>, flush: FlushTest, a: nat, k: nat)
    requires a <= |data|
    requires k < |LinesFrom(data, flush, a)|
    decreases |data| - a
    ensures var cs := Cuts(data, flush, a);
      var o := Opening(cs, a, k);
      && o < cs[k] <= |data|
      && LinesFrom(data, flush, a)[k].words == data[o..cs[k]]
  {
    var b := LineEnd(data, flush, a, a);
    var cs := Cuts(data, flush, a);
    CutsAt(data, flush, a, k);
    if k > 0 {
      LinesFromAt(data, flush, b, k - 1);
      assert cs[k] == Cuts(data, flush, b)[k - 1];
      if k > 1 {
        assert cs[k - 1] == Cuts(data, flush, b)[k - 2];
      }
      assert LinesFrom(data, flush, a)[k] == LinesFrom(data, flush, b)[k - 1];
    }
  }

  /** Line `k` from `a` on spans from its first word's start to its last word's end. */
  lemma {:induction false} LinesFromSpan(data: seq<Word>, flush: FlushTest, a: nat, k: nat)
    requires a <= |data|
    requires k < |LinesFrom(data, flush, a)|
    decreases |data| - a
    ensures var l := LinesFrom(data, flush, a)[k];
      && |l.words| > 0
      && l.start == l.words[0].start
      && l.end == l.words[|l.words| - 1].end
  {
    if k > 0 {
      var b := LineEnd(data, flush, a, a);
      LinesFromSpan(data, flush, b, k - 1);
      assert LinesFrom(data, flush, a)[k] == LinesFrom(data, flush, b)[k - 1];
    }
  }

  /** The words of the lines before line `k` are exactly the words before its opening. */
  lemma {:induction false} WordsBeforeOpening(data: seq<Word>, flush: FlushTest, a: nat, k: nat)
    requires a <= |data|
    requires k <= |LinesFrom(data, flush, a)|
    decreases |data| - a
    ensures a + WordsBefore(LinesFrom(data, flush, a), k) == Opening(Cuts(data, flush, a), a, k)
  {
    if k > 0 {
      var b := LineEnd(data, flush, a, a);
      var lines := LinesFrom(data, flush, a);
      WordsBeforeOpening(data, flush, b, k - 1);
      assert lines[1..] == LinesFrom(data, flush, b);
      CutsAt(data, flush, a, 0);
      LinesFromAt(data, flush, a, 0);
      if k > 1 {
        assert Cuts(data, flush, a)[k - 1] == Cuts(data, flush, b)[k - 2];
      }
    }
  }

  /** Segmentation never drops, duplicates or reorders a word: the lines' words,
      concatenated, are the input stream. */
  lemma SplitCovers(data: seq<Word>)
    ensures WordsOfLines(Split(data)) == data
  {
    LinesFromCover(data, Flush(data), 0);
  }

  /** Every emitted line is non-empty, starts at its first word's start, ends at its last
      word's end and carries its words joined by single spaces; there are no more lines
      than words, and the empty stream, and only it, yields no lines. */
  lemma SplitWellFormed(data: seq<Word>)
    ensures forall k :: 0 <= k < |Split(data)| ==> WellFormed(Split(data)[k])
    ensures |Split(data)| <= |data|
    ensures Split(data) == [] <==> data == []
  {
    LinesFromWellFormed(data, Flush(data), 0);
  }

  /** The stream index of the first word of line `k` of `split_text_into_lines`'s result
      (the number of words when `k` is the number of lines). */
  function LineStart(data: seq<Word>, k: nat): nat
    requires k <= |Split(data)|
  {
    Opening(Cuts(data, Flush(data), 0), 0, k)
  }

  /** A line starts right after the words of the lines before it. */
  lemma LineStartCounts(data: seq<Word>, k: nat)
    requires k <= |Split(data)|
    ensures LineStart(data, k) == WordsBefore(Split(data), k)
  {
    WordsBeforeOpening(data, Flush(data), 0, k);
  }

  /** Line `k` of the whole stream is the run of words from its opening to its cut, and spans
      from its first word's start to its last word's end. */
  lemma LineWords(data: seq<Word>, flush: FlushTest, k: nat)
    requires k < |LinesFrom(data, flush, 0)|
    ensures var lines, cs := LinesFrom(data, flush, 0), Cuts(data, flush, 0);
      var o := Opening(cs, 0, k);
      && o < cs[k] <= |data|
      && lines[k].words == data[o..cs[k]]
      && lines[k].words[0] == data[o]
      && lines[k].words[|lines[k].words| - 1] == data[cs[k] - 1]
      && lines[k].start == data[o].start
      && lines[k].end == data[cs[k] - 1].end
  {
    LinesFromAt(data, flush, 0, k);
    LinesFromSpan(data, flush, 0, k);
  }

  /** The flush policy for any flush test, on the lines of the whole stream: no word of a
      line but its last flushed it, the last word of every line but the last did, and only
      the last line reaches the end of the stream. */
  lemma LinesFromPolicy(data: seq<Word>, flush: FlushTest, k: nat)
    requires k < |LinesFrom(data, flush, 0)|
    ensures var lines, cs := LinesFrom(data, flush, 0), Cuts(data, flush, 0);
      var o := Opening(cs, 0, k);
      && o < cs[k] <= |data|
      && (forall c :: o <= c < cs[k] - 1 ==> !flush(o, c))
      && (k + 1 < |lines| ==> flush(o, cs[k] - 1))
      && (k + 1 == |lines| <==> cs[k] == |data|)
  {
    CutsAt(data, flush, 0, k);
    var o := Opening(Cuts(data, flush, 0), 0, k);
    LineEndFlushes(data, flush, o, o);
  }

  /** The flush policy. Line `k` is the run of the stream that starts at index `o`; no proper
      prefix of it met any limit, every line but the last was emitted because its final word
      broke a limit, and only the last line reaches the end of the stream. */
  lemma SplitLineAt(data: seq<Word>, k: nat)
    requires k < |Split(data)|
    ensures var lines := Split(data);
      var o, n := LineStart(data, k), |lines[k].words|;
      && 0 < n && o + n <= |data|
      && lines[k].words == data[o..o + n]
      && (forall c :: o <= c < o + n - 1 ==> !Breaks(data, o, c))
      && (k + 1 < |lines| ==> Breaks(data, o, o + n - 1))
      && (k + 1 == |lines| <==> o + n == |data|)
  {
    var flush := Flush(data);
    LinesFromPolicy(data, flush, k);
    LineWords(data, flush, k);
    var o, e := LineStart(data, k), Cuts(data, flush, 0)[k];
    forall c | o <= c < e - 1
      ensures !Breaks(data, o, c)
    {
      assert !flush(o, c);
    }
  }

  /** Since no proper prefix of a line met a limit, a line exceeds the duration and length
      limits by at most its last word's contribution. */
  lemma LineWithinSoftLimits(data: seq<Word>, k: nat)
    requires k < |Split(data)|
    ensures var lines := Split(data);
      var o, n := LineStart(data, k), |lines[k].words|;
      && 0 < n && o + n <= |data|
      && (n > 1 ==> LineDuration(data, o, o + n - 1) <= MaxDuration)
      && (n > 1 ==> |JoinWords(lines[k].words[..n - 1])| <= MaxChars)
  {
    var lines := Split(data);
    var o, n := LineStart(data, k), |lines[k].words|;
    SplitLineAt(data, k);
    if n > 1 {
      assert !Breaks(data, o, o + n - 2);
      assert data[o..o + n - 1] == lines[k].words[..n - 1];
      LineCharsJoined(data, o, o + n - 1);
    }
  }

  /** The silence check on the first word of a line other than the first compares it with the
      last word of the line before: it is the gap between the two lines' windows. */
  lemma GapAcrossLines(data: seq<Word>, k: nat)
    requires 0 < k < |Split(data)|
    ensures var lines := Split(data);
      var o := LineStart(data, k);
      && 0 < o < |data|
      && |lines[k - 1].words| > 0 && |lines[k].words| > 0
      && data[o - 1] == lines[k - 1].words[|lines[k - 1].words| - 1]
      && data[o] == lines[k].words[0]
      && (GapExceeded(data, o) <==> lines[k].start - lines[k - 1].end > MaxGap)
  {
    LineWords(data, Flush(data), k - 1);
    LineWords(data, Flush(data), k);
  }

  /** A silence does not separate the words on either side of it. The word after the silence is
      appended before the gap test flushes, so it is the last word of the line that holds it,
      and the word before the silence, when the line holds it, sits in that same line. */
  lemma SilenceEndsLine(data: seq<Word>, k: nat, c: nat)
    requires k < |Split(data)|
    requires LineStart(data, k) <= c < LineStart(data, k) + |Split(data)[k].words|
    requires c < |data| && GapExceeded(data, c)
    ensures var line, o := Split(data)[k], LineStart(data, k);
      && c == o + |line.words| - 1
      && line.words[c - o] == data[c]
      && (o < c ==> line.words[c - o - 1] == data[c - 1])
  {
    SplitLineAt(data, k);
    var o, n := LineStart(data, k), |Split(data)[k].words|;
    if c < o + n - 1 {
      assert Breaks(data, o, c);
      assert false;
    }
  }

  /** Two words one silence apart, 1.8 s against the 1.5 s limit: the gap test flushes
      the second word together with the first, so they make a single line. */
  lemma SilenceExample()
    ensures var hi, there := Word("Hi", 0.0, 0.2), Word("there", 2.0, 2.2);
      Split([hi, there]) == [MakeLine([hi, there])]
  {
    var hi, there := Word("Hi", 0.0, 0.2), Word("there", 2.0, 2.2);
    var data := [hi, there];
    SplitWellFormed(data);
    SplitLineAt(data, 0);
    var lines := Split(data);
    assert LineStart(data, 0) == 0;
    if |lines[0].words| == 1 {
      assert false;
    }
    assert lines[0].words == data;
  }

  /** Line monotonicity, for a stream whose words each end no earlier than they start and whose
      starts never decrease (the source checks neither): every line starts no later than it
      ends, and no line starts before the one preceding it. */
  lemma SplitLineOrdered(data: seq<Word>, k: nat)
    requires k < |Split(data)|
    requires forall i :: 0 <= i < |data| ==> data[i].start <= data[i].end
    requires forall i, j :: 0 <= i <= j < |data| ==> data[i].start <= data[j].start
    ensures Split(data)[k].start <= Split(data)[k].end
    ensures 0 < k ==> Split(data)[k - 1].start <= Split(data)[k].start
  {
    LineWords(data, Flush(data), k);
    if 0 < k {
      LineWords(data, Flush(data), k - 1);
    }
  }

  /** What holds before the scan looks at the word at `idx`: the open line is the run of words
      from `a`, none of which flushed it, `lineDuration` is its summed duration, and the
      emitted subtitles followed by the lines from `a` on are all the lines. */
  ghost predicate ScanInvariant(data: seq<Word>, flush: FlushTest, a: nat, idx: nat,
                                line: seq<Word>, lineDuration: real, subtitles: seq<Line>)
  {
    && a <= idx <= |data|
    && line == data[a..idx]
    && lineDuration == LineDuration(data, a, idx)
    && StillOpen(flush, a, idx)
    && subtitles + LinesFrom(data, flush, a) == LinesFrom(data, flush, 0)
  }

  /** The three checks the scan makes once the word at `idx` is appended to the open line
      are the engine's flush test. */
  lemma FlushChecks(data: seq<Word>, a: nat, idx: nat, line: seq<Word>, lineDuration: real,
                    subtitles: seq<Line>)
    requires ScanInvariant(data, Flush(data), a, idx, line, lineDuration, subtitles)
    requires idx < |data|
    ensures Flush(data)(a, idx) <==>
      || lineDuration + (data[idx].end - data[idx].start) > MaxDuration
      || |JoinWords(line + [data[idx]])| > MaxChars
      || (idx > 0 && data[idx].start - data[idx - 1].end > MaxGap)
  {
    assert line + [data[idx]] == data[a..idx + 1];
    LineCharsJoined(data, a, idx + 1);
  }

  /** One step of the scan: the word at `idx` is appended to the open line; if it flushes the
      line, the line is emitted and the next one opens after it. */
  lemma ScanStep(data: seq<Word>, flush: FlushTest, a: nat, idx: nat, line: seq<Word>,
                 lineDuration: real, subtitles: seq<Line>, fires: bool)
    requires ScanInvariant(data, flush, a, idx, line, lineDuration, subtitles)
    requires idx < |data| && fires == flush(a, idx)
    ensures var line', lineDuration' := line + [data[idx]], lineDuration + (data[idx].end - data[idx].start);
      if fires then ScanInvariant(data, flush, idx + 1, idx + 1, [], 0.0, subtitles + [MakeLine(line')])
      else ScanInvariant(data, flush, a, idx + 1, line', lineDuration', subtitles)
  {
    assert line + [data[idx]] == data[a..idx + 1];
    if fires {
      LinesFromFlush(data, flush, a, idx);
      EmitStep(subtitles, MakeLine(data[a..idx + 1]), LinesFrom(data, flush, idx + 1), LinesFrom(data, flush, 0));
    }
  }

  /** When the words run out, what is still open is the last line. */
  lemma ScanFinish(data: seq<Word>, flush: FlushTest, a: nat, line: seq<Word>, lineDuration: real,
                   subtitles: seq<Line>)
    requires ScanInvariant(data, flush, a, |data|, line, lineDuration, subtitles)
    ensures |line| > 0 ==> subtitles + [MakeLine(line)] == LinesFrom(data, flush, 0)
    ensures |line| == 0 ==> subtitles == LinesFrom(data, flush, 0)
  {
    if a < |data| {
      LinesFromLast(data, flush, a);
      assert data[a..] == data[a..|data|];
    } else {
      assert subtitles + [] == subtitles;
    }
  }

  lemma EmitStep<T>(done: seq<T>, x: T, rest: seq<T>, all: seq<T>)
    requires done + ([x] + rest) == all
    ensures (done + [x]) + rest == all
  {
    assert (done + [x]) + rest == done + ([x] + rest);
  }

  /** `split_text_into_lines`: one left-to-right scan with an open line, its running
      duration and the list of emitted subtitles. */
  method SplitTextIntoLines(data: seq<Word>) returns (subtitles: seq<Line>)
    ensures subtitles == Split(data)
  {
    ghost var flush := Flush(data);
    subtitles := [];
    var line: seq<Word> := [];
    var lineDuration: real := 0.0;
    ghost var a: nat := 0;
    for idx := 0 to |data|
      invariant ScanInvariant(data, flush, a, idx, line, lineDuration, subtitles)
    {
      ghost var before, beforeDuration := line, lineDuration;
      var wordData := data[idx];
      line := line + [wordData];
      lineDuration := lineDuration + (wordData.end - wordData.start);
      var temp := JoinWords(line);
      var durationExceeded := lineDuration > MaxDuration;
      var charsExceeded := |temp| > MaxChars;
      var maxgapExceeded;
      if idx > 0 {
        var gap := wordData.start - data[idx - 1].end;
        maxgapExceeded := gap > MaxGap;
      } else {
        maxgapExceeded := false;
      }
      FlushChecks(data, a, idx, before, beforeDuration, subtitles);
      ScanStep(data, flush, a, idx, before, beforeDuration, subtitles,
               durationExceeded || charsExceeded || maxgapExceeded);
      if durationExceeded || charsExceeded || maxgapExceeded {
        if |line| > 0 {
          subtitles := subtitles + [MakeLine(line)];
          line := [];
          lineDuration := 0.0;
          a := idx + 1;
        }
      }
    }
    ScanFinish(data, flush, a, line, lineDuration, subtitles);
    if |line| > 0 {
      subtitles := subtitles + [MakeLine(line)];
    }
  }
}
