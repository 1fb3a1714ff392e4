/** The caption pipeline of the audiogram conversion: the recogniser's segments are flattened
    into one stream of stripped words, the stream is split into subtitle lines, and every
    line's caption clips are collected into one overlay list. */
module Audiogram {
  import opened Transcript
  import opened Segmenter
  import opened Caption

  /** Flatten, split and lay out: the overlay holds three clips for every recognised word,
      and its lines give back the flattened word stream exactly. */
  method CaptionTranscript(segments: seq<Segment>, frameWidth: nat, frameHeight: nat, option: int,
                           measure: Measure)
    returns (wordlevelInfo: seq<Word>, subtitles: seq<Line>, allClips: seq<Clip>)
    ensures |wordlevelInfo| == |AllWords(segments)| == WordCount(segments)
    ensures forall k :: 0 <= k < |wordlevelInfo| ==> wordlevelInfo[k] == Normalize(AllWords(segments)[k])
    ensures subtitles == Split(wordlevelInfo) && WordsOfLines(subtitles) == wordlevelInfo
    ensures allClips == Overlay(subtitles, frameWidth, frameHeight, option, measure)
    ensures |allClips| == 3 * WordCount(segments)
  {
    wordlevelInfo := FlattenTranscript(segments);
    subtitles := SplitTextIntoLines(wordlevelInfo);
    allClips := BuildOverlay(subtitles, frameWidth, frameHeight, option, measure);
    SplitCovers(wordlevelInfo);
    OverlaySize(subtitles, frameWidth, frameHeight, option, measure);
  }
}
