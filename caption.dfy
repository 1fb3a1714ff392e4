/** Caption layout and highlight schedule for one subtitle line.

    The words of a line are laid out left to right in a band 90% of the frame wide, centred
    horizontally and anchored at 2/3 (option 1) or 1/2 of the frame height. A word that would
    overflow the band together with its trailing space starts a new row. Each word yields a
    word clip and a trailing space clip, both shown for the whole line's window; after all of
    them come the highlight clips, one per word, drawn at the word's position for the word's
    own window. Text sizes come from a measure function standing in for the renderer. */
module Caption {
  import opened Transcript
  import opened Segmenter

  /** Share of the frame width taken by the caption band. */
  const BandShare: real := 0.9
  /** Extra vertical space, in pixels, added below a row when the layout wraps. */
  const RowSpacing: nat := 10

  /** The rendered size of a text, in pixels. */
  datatype Size = Size(width: nat, height: nat)

  /** The renderer's measurement of a text (the size of the text clip made for it). */
  type Measure = string -> Size

  /** The caption band: its width and its offset from the frame's left and top edges. */
  datatype Band = Band(width: real, xBuffer: real, yBuffer: real)

  /** The row cursor, relative to the band. */
  datatype Cursor = Cursor(x: real, y: real)

  /** One entry of the word-position list: where and how large a word is drawn, and when it is spoken. */
  datatype Placement = Placement(x: real, y: real, width: nat, height: nat, word: string,
                                 start: real, end: real, duration: real)

  datatype ClipKind = WordClip | SpaceClip | HighlightClip

  /** A text clip as a plain record: what it shows, where, and during which window. */
  datatype Clip = Clip(kind: ClipKind, text: string, x: real, y: real, start: real, duration: real)

  /** The band for a frame: 90% of the width, centred, anchored at 2/3 of the height for
      option 1 and at 1/2 otherwise. */
  function BandOf(frameWidth: nat, frameHeight: nat, option: int): (band: Band)
    ensures band.width == 0.9 * frameWidth as real
    ensures band.xBuffer >= 0.0 && band.xBuffer + band.width + band.xBuffer == frameWidth as real
    ensures option == 1 ==> 3.0 * band.yBuffer == 2.0 * frameHeight as real
    ensures option != 1 ==> 2.0 * band.yBuffer == frameHeight as real
    ensures 0.0 <= band.yBuffer < frameHeight as real || frameHeight == 0
  {
    var width := frameWidth as real * BandShare;
    var yBuffer := if option == 1 then frameHeight as real * 2.0 / 3.0 else frameHeight as real * 1.0 / 2.0;
    Band(width, (frameWidth as real - width) / 2.0, yBuffer)
  }

  /** Where a word of size `size`, followed by a space of size `space`, is drawn when the row
      cursor is at `cur`: on the current row if both fit in the band, otherwise at the start of
      a new row, `size.height + RowSpacing` further down. */
  function Place(cur: Cursor, size: Size, space: Size, bandWidth: real): Cursor
  {
    if cur.x + size.width as real + space.width as real > bandWidth then
      Cursor(0.0, cur.y + (size.height + RowSpacing) as real)
    else cur
  }

  /** The row cursor after laying out the words `ws`: just after the last word's trailing space. */
  function CursorAfter(ws: seq<Word>, measure: Measure, bandWidth: real): (cur: Cursor)
    ensures cur.x >= 0.0 && cur.y >= 0.0
  {
    if ws == [] then Cursor(0.0, 0.0)
    else
      var size, space := measure(ws[|ws| - 1].text), measure(" ");
      var at := Place(CursorAfter(ws[..|ws| - 1], measure, bandWidth), size, space, bandWidth);
      Cursor(at.x + size.width as real + space.width as real, at.y)
  }

  /** The position record of word `w` drawn at cursor `at`. */
  function PlaceWord(w: Word, at: Cursor, size: Size, band: Band): Placement
  {
    Placement(at.x + band.xBuffer, at.y + band.yBuffer, size.width, size.height,
              w.text, w.start, w.end, w.end - w.start)
  }

  /** Where the word at index `i` of `ws` is drawn, relative to the band. */
  function PlacedAt(ws: seq<Word>, i: nat, measure: Measure, bandWidth: real): Cursor
    requires i < |ws|
  {
    Place(CursorAfter(ws[..i], measure, bandWidth), measure(ws[i].text), measure(" "), bandWidth)
  }

  /** The word-position list of a line. */
  function Placements(ws: seq<Word>, measure: Measure, band: Band): (ps: seq<Placement>)
    ensures |ps| == |ws|
  {
    if ws == [] then []
    else
      var init, w := ws[..|ws| - 1], ws[|ws| - 1];
      var at := Place(CursorAfter(init, measure, band.width), measure(w.text), measure(" "), band.width);
      Placements(init, measure, band) + [PlaceWord(w, at, measure(w.text), band)]
  }

  /** The word and space clips, interleaved in word order, all shown for the line's window. */
  function BaseClips(ps: seq<Placement>, start: real, duration: real): (clips: seq<Clip>)
    ensures |clips| == 2 * |ps|
  {
    if ps == [] then []
    else
      var p := ps[|ps| - 1];
      BaseClips(ps[..|ps| - 1], start, duration)
        + [Clip(WordClip, p.word, p.x, p.y, start, duration),
           Clip(SpaceClip, " ", p.x + p.width as real, p.y, start, duration)]
  }

  /** The highlight clips, one per word in word order, each drawn at its word's position during
      the word's own window. */
  function Highlights(ps: seq<Placement>): (clips: seq<Clip>)
    ensures |clips| == |ps|
  {
    if ps == [] then []
    else
      var p := ps[|ps| - 1];
      Highlights(ps[..|ps| - 1]) + [Clip(HighlightClip, p.word, p.x, p.y, p.start, p.duration)]
  }

  /** The clips `create_caption` returns for one line laid out in `band`. */
  function CaptionClips(line: Line, band: Band, measure: Measure): seq<Clip>
  {
    var ps := Placements(line.words, measure, band);
    BaseClips(ps, line.start, line.end - line.start) + Highlights(ps)
  }

  /** Entry `i` of the word-position list is word `i` drawn where the cursor rule puts it. */
  lemma {:induction false} PlacementsAt(ws: seq<Word>, measure: Measure, band: Band, i: nat)
    requires i < |ws|
    ensures Placements(ws, measure, band)[i]
      == PlaceWord(ws[i], PlacedAt(ws, i, measure, band.width), measure(ws[i].text), band)
  {
    var init := ws[..|ws| - 1];
    if i < |ws| - 1 {
      PlacementsAt(init, measure, band, i);
      assert init[..i] == ws[..i];
      assert init[i] == ws[i];
    } else {
      assert init == ws[..i];
    }
  }

  /** The cursor after word `i` is just after that word and its space, on the row it was drawn in. */
  lemma CursorStep(ws: seq<Word>, measure: Measure, bandWidth: real, i: nat)
    requires i < |ws|
    ensures var at := PlacedAt(ws, i, measure, bandWidth);
      CursorAfter(ws[..i + 1], measure, bandWidth)
        == Cursor(at.x + measure(ws[i].text).width as real + measure(" ").width as real, at.y)
  {
    assert ws[..i + 1][..i] == ws[..i];
    assert ws[..i + 1][i] == ws[i];
  }

  /** Every word is drawn inside the band's left and top edges; a word that fits in the band
      together with its space never overflows it, and a word that does not fit is still drawn,
      unsplit, at the start of a row. */
  lemma {:induction false} PlacementBounds(ws: seq<Word>, measure: Measure, band: Band, i: nat)
    requires i < |ws|
    ensures var p, size, space := Placements(ws, measure, band)[i], measure(ws[i].text), measure(" ");
      && p.x >= band.xBuffer && p.y >= band.yBuffer
      && (size.width as real + space.width as real <= band.width ==>
            p.x - band.xBuffer + size.width as real + space.width as real <= band.width)
      && (size.width as real + space.width as real > band.width ==> p.x == band.xBuffer)
  {
    PlacementsAt(ws, measure, band, i);
  }

  /** Rows only move down: the cursor's row never decreases as words are laid out. */
  lemma {:induction false} CursorRowMonotone(ws: seq<Word>, measure: Measure, bandWidth: real, i: nat, j: nat)
    requires i <= j <= |ws|
    decreases j - i
    ensures CursorAfter(ws[..i], measure, bandWidth).y <= CursorAfter(ws[..j], measure, bandWidth).y
  {
    if i < j {
      CursorStep(ws, measure, bandWidth, i);
      CursorRowMonotone(ws, measure, bandWidth, i + 1, j);
    }
  }

  /** Along a line, later words are never drawn above earlier ones. */
  lemma RowsDescend(ws: seq<Word>, measure: Measure, band: Band, i: nat, j: nat)
    requires i <= j < |ws|
    ensures Placements(ws, measure, band)[i].y <= Placements(ws, measure, band)[j].y
  {
    PlacementsAt(ws, measure, band, i);
    PlacementsAt(ws, measure, band, j);
    CursorStep(ws, measure, band.width, i);
    CursorStep(ws, measure, band.width, j);
    CursorRowMonotone(ws, measure, band.width, i + 1, j + 1);
  }

  /** The wrap rule between consecutive words: word `i + 1` either follows word `i` and its
      space on the same row, when it fits there with its own space, or starts the next row,
      `height + RowSpacing` further down, where `height` is its own height. */
  lemma {:induction false} NextWord(ws: seq<Word>, measure: Measure, band: Band, i: nat)
    requires i + 1 < |ws|
    ensures var ps, space := Placements(ws, measure, band), measure(" ").width as real;
      var p, q := ps[i], ps[i + 1];
      var sameRowX := p.x + p.width as real + space;
      if sameRowX - band.xBuffer + q.width as real + space > band.width then
        q.x == band.xBuffer && q.y == p.y + (q.height + RowSpacing) as real
      else
        q.x == sameRowX && q.y == p.y
  {
    PlacementsAt(ws, measure, band, i);
    PlacementsAt(ws, measure, band, i + 1);
    CursorStep(ws, measure, band.width, i);
  }

  /** The first word starts the first row at the band's corner, unless it does not fit in the
      band with its space: then the wrap rule still fires and it is drawn one row lower,
      leaving the first row empty. */
  lemma {:induction false} FirstWord(ws: seq<Word>, measure: Measure, band: Band)
    requires |ws| > 0
    ensures var p, size, space := Placements(ws, measure, band)[0], measure(ws[0].text), measure(" ");
      && p.x == band.xBuffer
      && (size.width as real + space.width as real > band.width ==>
            p.y == band.yBuffer + (size.height + RowSpacing) as real)
      && (size.width as real + space.width as real <= band.width ==> p.y == band.yBuffer)
  {
    PlacementsAt(ws, measure, band, 0);
    assert ws[..0] == [];
  }

  /** Entries `2i` and `2i + 1` of the base clips are word `i`'s word clip and its trailing
      space clip, drawn right after the word, both during the line's window. */
  lemma {:induction false} BaseClipsAt(ps: seq<Placement>, start: real, duration: real, i: nat)
    requires i < |ps|
    ensures var clips, p := BaseClips(ps, start, duration), ps[i];
      && clips[2 * i] == Clip(WordClip, p.word, p.x, p.y, start, duration)
      && clips[2 * i + 1] == Clip(SpaceClip, " ", p.x + p.width as real, p.y, start, duration)
  {
    var init := ps[..|ps| - 1];
    if i < |ps| - 1 {
      BaseClipsAt(init, start, duration, i);
      assert init[i] == ps[i];
    }
  }

  /** Entry `i` of the highlight clips is word `i`'s highlight, at the word's position and
      during the word's own window. */
  lemma {:induction false} HighlightsAt(ps: seq<Placement>, i: nat)
    requires i < |ps|
    ensures Highlights(ps)[i] == Clip(HighlightClip, ps[i].word, ps[i].x, ps[i].y, ps[i].start, ps[i].duration)
  {
    var init := ps[..|ps| - 1];
    if i < |ps| - 1 {
      HighlightsAt(init, i);
      assert init[i] == ps[i];
    }
  }

  /** The clip list built from a word-position list: word and space clips interleaved, then
      the highlights, so word `i` owns entries `2i`, `2i + 1` and `2n + i`. */
  lemma {:induction false} ClipsAt(ps: seq<Placement>, start: real, duration: real, i: nat)
    requires i < |ps|
    ensures var clips, p := BaseClips(ps, start, duration) + Highlights(ps), ps[i];
      && |clips| == 3 * |ps|
      && clips[2 * i] == Clip(WordClip, p.word, p.x, p.y, start, duration)
      && clips[2 * i + 1] == Clip(SpaceClip, " ", p.x + p.width as real, p.y, start, duration)
      && clips[2 * |ps| + i] == Clip(HighlightClip, p.word, p.x, p.y, p.start, p.duration)
  {
    BaseClipsAt(ps, start, duration, i);
    HighlightsAt(ps, i);
  }

  /** The schedule of one line with `n` words: `3n` clips; word and space clips interleaved
      first, for the whole line's window; then one highlight per word, in word order, at the
      word's exact position, active from the word's start for the word's own duration. */
  lemma CaptionSchedule(line: Line, band: Band, measure: Measure, i: nat)
    requires i < |line.words|
    ensures var clips, n := CaptionClips(line, band, measure), |line.words|;
      var p, w := Placements(line.words, measure, band)[i], line.words[i];
      && |clips| == 3 * n
      && clips[2 * i] == Clip(WordClip, w.text, p.x, p.y, line.start, line.end - line.start)
      && clips[2 * i + 1] == Clip(SpaceClip, " ", p.x + p.width as real, p.y, line.start, line.end - line.start)
      && clips[2 * n + i] == Clip(HighlightClip, w.text, p.x, p.y, w.start, w.end - w.start)
      && p.width == measure(w.text).width && p.height == measure(w.text).height
  {
    var ps := Placements(line.words, measure, band);
    assert CaptionClips(line, band, measure) == BaseClips(ps, line.start, line.end - line.start) + Highlights(ps);
    PlacementsAt(line.words, measure, band, i);
    ClipsAt(ps, line.start, line.end - line.start, i);
  }

  /** What the layout loop keeps after laying out the first `index` words: the row cursor,
      the word-position list and the word and space clips so far. */
  ghost predicate LayoutInvariant(ws: seq<Word>, measure: Measure, band: Band, index: nat, cur: Cursor,
                                  positions: seq<Placement>, clips: seq<Clip>, start: real, duration: real)
  {
    && index <= |ws|
    && cur == CursorAfter(ws[..index], measure, band.width)
    && positions == Placements(ws[..index], measure, band)
    && clips == BaseClips(positions, start, duration)
  }

  /** One round of the layout loop: word `index` is drawn where the cursor rule puts it, its word
      and space clips are appended, and the cursor moves past the word and its space. */
  lemma LayoutStep(ws: seq<Word>, measure: Measure, band: Band, index: nat, cur: Cursor,
                   positions: seq<Placement>, clips: seq<Clip>, start: real, duration: real,
                   p: Placement, cur': Cursor, positions': seq<Placement>, clips': seq<Clip>)
    requires LayoutInvariant(ws, measure, band, index, cur, positions, clips, start, duration)
    requires index < |ws|
    requires p == PlaceWord(ws[index], PlacedAt(ws, index, measure, band.width), measure(ws[index].text), band)
    requires cur' == Cursor(p.x - band.xBuffer + p.width as real + measure(" ").width as real, p.y - band.yBuffer)
    requires positions' == positions + [p]
    requires clips' == clips + [Clip(WordClip, p.word, p.x, p.y, start, duration),
                                Clip(SpaceClip, " ", p.x + p.width as real, p.y, start, duration)]
    ensures LayoutInvariant(ws, measure, band, index + 1, cur', positions', clips', start, duration)
  {
    var next := ws[..index + 1];
    assert next[..index] == ws[..index];
    assert next[index] == ws[index];
  }

  /** One round of the highlight loop appends the highlight of position record `j` after the
      highlights of the records before it. */
  lemma HighlightStep(base: seq<Clip>, ps: seq<Placement>, j: nat, clips: seq<Clip>)
    requires j < |ps| && clips == base + Highlights(ps[..j])
    ensures clips + [Clip(HighlightClip, ps[j].word, ps[j].x, ps[j].y, ps[j].start, ps[j].duration)]
      == base + Highlights(ps[..j + 1])
  {
    assert ps[..j + 1][..j] == ps[..j];
  }

  /** The first loop of `create_caption`: walks the line's words with the row cursor, recording
      each word's position and appending its word and space clips. */
  method LayOutWords(words: seq<Word>, measure: Measure, band: Band, start: real, fullDuration: real)
    returns (positions: seq<Placement>, wordClips: seq<Clip>)
    ensures positions == Placements(words, measure, band)
    ensures wordClips == BaseClips(positions, start, fullDuration)
  {
    wordClips := [];
    positions := [];
    var xPos: real := 0.0;
    var yPos: real := 0.0;
    var subtitleWidth, xBuffer, yBuffer := band.width, band.xBuffer, band.yBuffer;
    for index := 0 to |words|
      invariant LayoutInvariant(words, measure, band, index, Cursor(xPos, yPos), positions, wordClips,
                                start, fullDuration)
    {
      ghost var cur, positions0, clips0 := Cursor(xPos, yPos), positions, wordClips;
      ghost var at := PlacedAt(words, index, measure, subtitleWidth);
      var wordJSON := words[index];
      var duration := wordJSON.end - wordJSON.start;
      var wordSize := measure(wordJSON.text);
      var spaceSize := measure(" ");
      if xPos + wordSize.width as real + spaceSize.width as real > subtitleWidth {
        xPos := 0.0;
        yPos := yPos + (wordSize.height + RowSpacing) as real;
      }
      assert Cursor(xPos, yPos) == at;
      var placement := Placement(xPos + xBuffer, yPos + yBuffer, wordSize.width, wordSize.height,
                                 wordJSON.text, wordJSON.start, wordJSON.end, duration);
      positions := positions + [placement];
      var wordClip := Clip(WordClip, wordJSON.text, xPos + xBuffer, yPos + yBuffer, start, fullDuration);
      var spaceClip := Clip(SpaceClip, " ", xPos + wordSize.width as real + xBuffer, yPos + yBuffer,
                            start, fullDuration);
      xPos := xPos + wordSize.width as real + spaceSize.width as real;
      wordClips := wordClips + [wordClip, spaceClip];
      LayoutStep(words, measure, band, index, cur, positions0, clips0, start, fullDuration,
                 placement, Cursor(xPos, yPos), positions, wordClips);
    }
    assert words[..|words|] == words;
  }

  /** `create_caption`: the band of the frame, the layout loop, then the highlight loop that
      appends one highlight per recorded position. */
  method CreateCaption(line: Line, frameWidth: nat, frameHeight: nat, option: int, measure: Measure)
    returns (wordClips: seq<Clip>)
    ensures wordClips == CaptionClips(line, BandOf(frameWidth, frameHeight, option), measure)
  {
    var fullDuration := line.end - line.start;
    var band := BandOf(frameWidth, frameHeight, option);
    var positions;
    positions, wordClips := LayOutWords(line.words, measure, band, line.start, fullDuration);
    ghost var base := wordClips;
    for j := 0 to |positions|
      invariant wordClips == base + Highlights(positions[..j])
    {
      var highlightWord := positions[j];
      var highlight := Clip(HighlightClip, highlightWord.word, highlightWord.x, highlightWord.y,
                            highlightWord.start, highlightWord.duration);
      HighlightStep(base, positions, j, wordClips);
      wordClips := wordClips + [highlight];
    }
    assert positions[..|positions|] == positions;
  }

  /** The overlay clips of all lines, line after line. */
  function Overlay(lines: seq<Line>, frameWidth: nat, frameHeight: nat, option: int, measure: Measure): seq<Clip>
  {
    if lines == [] then []
    else Overlay(lines[..|lines| - 1], frameWidth, frameHeight, option, measure)
           + CaptionClips(lines[|lines| - 1], BandOf(frameWidth, frameHeight, option), measure)
  }

  /** Three clips per word: the overlay of a sequence of lines has three clips for each word
      of those lines. */
  lemma {:induction false} OverlaySize(lines: seq<Line>, frameWidth: nat, frameHeight: nat, option: int, measure: Measure)
    ensures |Overlay(lines, frameWidth, frameHeight, option, measure)| == 3 * |WordsOfLines(lines)|
  {
    if lines != [] {
      var init, last := lines[..|lines| - 1], lines[|lines| - 1];
      OverlaySize(init, frameWidth, frameHeight, option, measure);
      assert init + [last] == lines;
      WordsOfLinesAppend(init, last);
    }
  }

  /** The loop that collects every line's caption clips into one list. */
  method BuildOverlay(lines: seq<Line>, frameWidth: nat, frameHeight: nat, option: int, measure: Measure)
    returns (allClips: seq<Clip>)
    ensures allClips == Overlay(lines, frameWidth, frameHeight, option, measure)
  {
    allClips := [];
    for i := 0 to |lines|
      invariant allClips == Overlay(lines[..i], frameWidth, frameHeight, option, measure)
    {
      var out := CreateCaption(lines[i], frameWidth, frameHeight, option, measure);
      allClips := allClips + out;
      assert lines[..i + 1][..i] == lines[..i];
    }
    assert lines[..|lines|] == lines;
  }
}
