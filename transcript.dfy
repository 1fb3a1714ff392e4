/** The word-level transcript that the speech recogniser hands over, and the
    flattening of its segments into one stream of stripped words. */
module Transcript {

  /** One recognised word and its speech interval, in seconds. */
  datatype Word = Word(text: string, start: real, end: real)

  /** One recognition segment; only its words are used by the caption engine. */
  datatype Segment = Segment(words: seq<Word>)

  /** The characters for which Python's `str.isspace()` holds. */
  predicate IsSpace(c: char)
  {
    || ('\t' <= c <= '\r')
    || ('\U{1C}' <= c <= ' ')
    || c == '\U{85}' || c == '\U{A0}' || c == '\U{1680}'
    || ('\U{2000}' <= c <= '\U{200A}')
    || c == '\U{2028}' || c == '\U{2029}' || c == '\U{202F}' || c == '\U{205F}' || c == '\U{3000}'
  }

  /** `s` without its leading whitespace: the longest suffix that does not start with a space. */
  function TrimLeading(s: string): (r: string)
    ensures |r| <= |s| && r == s[|s| - |r|..]
    ensures forall k :: 0 <= k < |s| - |r| ==> IsSpace(s[k])
    ensures r != [] ==> !IsSpace(r[0])
  {
    if |s| > 0 && IsSpace(s[0]) then TrimLeading(s[1..]) else s
  }

  /** `s` without its trailing whitespace: the longest prefix that does not end with a space. */
  function TrimTrailing(s: string): (r: string)
    ensures |r| <= |s| && r == s[..|r|]
    ensures forall k :: |r| <= k < |s| ==> IsSpace(s[k])
    ensures r != [] ==> !IsSpace(r[|r| - 1])
  {
    if |s| > 0 && IsSpace(s[|s| - 1]) then TrimTrailing(s[..|s| - 1]) else s
  }

  /** Python's `str.strip()` with no argument. */
  function Strip(s: string): string
  {
    TrimTrailing(TrimLeading(s))
  }

  /** `Strip(s)` is the slice of `s` left after removing whitespace at both ends, and
      everything cut off is whitespace. */
  lemma {:induction false} StripCharacterised(s: string)
    ensures var r, i := Strip(s), |s| - |TrimLeading(s)|;
      && i + |r| <= |s|
      && r == s[i..i + |r|]
      && (forall k :: 0 <= k < i ==> IsSpace(s[k]))
      && (forall k :: i + |r| <= k < |s| ==> IsSpace(s[k]))
  {
    var t := TrimLeading(s);
    var r := TrimTrailing(t);
    var i := |s| - |t|;
    PrefixOfSuffix(s, i, |r|);
    SpaceTail(s, t, i, |r|);
  }

  /** The first `m` elements of `s[i..]` are the slice `s[i..i + m]`. */
  lemma PrefixOfSuffix<T>(s: seq<T>, i: nat, m: nat)
    requires i + m <= |s|
    ensures s[i..][..m] == s[i..i + m]
  {
  }

  /** If `t` is the suffix of `s` from `i` and every character of `t` from position `m` on is
      whitespace, then so is every character of `s` from `i + m` on. */
  lemma SpaceTail(s: string, t: string, i: nat, m: nat)
    requires i <= |s| && t == s[i..] && m <= |t|
    requires forall k :: m <= k < |t| ==> IsSpace(t[k])
    ensures forall k :: i + m <= k < |s| ==> IsSpace(s[k])
  {
    forall k | i + m <= k < |s|
      ensures IsSpace(s[k])
    {
      assert t[k - i] == s[k];
    }
  }

  /** The result of `Strip` neither starts nor ends with whitespace. */
  lemma {:induction false} StripEnds(s: string)
    ensures var r := Strip(s);
      r != [] ==> !IsSpace(r[0]) && !IsSpace(r[|r| - 1])
  {
    var t := TrimLeading(s);
    var r := TrimTrailing(t);
    if r != [] {
      assert r[0] == t[0];
    }
  }

  /** Stripping twice is the same as stripping once. */
  lemma {:induction false} StripIdempotent(s: string)
    ensures Strip(Strip(s)) == Strip(s)
  {
    var r := Strip(s);
    StripEnds(s);
    assert TrimLeading(r) == r;
    assert TrimTrailing(r) == r;
  }

  /** The record appended for one recognised word: its text stripped, its times kept. */
  function Normalize(w: Word): Word
  {
    Word(Strip(w.text), w.start, w.end)
  }

  /** The words of all segments, segment after segment, each in its segment's order. */
  function AllWords(segments: seq<Segment>): seq<Word>
  {
    if |segments| == 0 then []
    else AllWords(segments[..|segments| - 1]) + segments[|segments| - 1].words
  }

  /** The sum of the segments' word counts. */
  function WordCount(segments: seq<Segment>): nat
  {
    if |segments| == 0 then 0
    else WordCount(segments[..|segments| - 1]) + |segments[|segments| - 1].words|
  }

  /** Flattening neither drops nor adds words: the stream is as long as the sum of the counts. */
  lemma {:induction false} AllWordsCount(segments: seq<Segment>)
    ensures |AllWords(segments)| == WordCount(segments)
  {
    if |segments| > 0 {
      AllWordsCount(segments[..|segments| - 1]);
    }
  }

  /** Word `j` of segment `i` sits in the flat stream right after all the words of the
      segments before it, so the stream keeps segment order and the order inside each segment. */
  lemma {:induction false} AllWordsAt(segments: seq<Segment>, i: nat, j: nat)
    requires i < |segments| && j < |segments[i].words|
    ensures WordCount(segments[..i]) + j < |AllWords(segments)|
    ensures AllWords(segments)[WordCount(segments[..i]) + j] == segments[i].words[j]
  {
    var n := |segments|;
    var init := segments[..n - 1];
    AllWordsCount(segments[..i]);
    AllWordsCount(init);
    if i == n - 1 {
      assert init == segments[..i];
    } else {
      assert init[..i] == segments[..i];
      AllWordsAt(init, i, j);
    }
  }

  /** The flattening loop: one stripped record per recognised word, in order.
      Each output record is the input word with its text stripped and its start and end unchanged. */
  method FlattenTranscript(segments: seq<Segment>) returns (info: seq<Word>)
    ensures |info| == |AllWords(segments)| == WordCount(segments)
    ensures forall k :: 0 <= k < |info| ==> info[k] == Normalize(AllWords(segments)[k])
  {
    info := [];
    for i := 0 to |segments|
      invariant |info| == |AllWords(segments[..i])|
      invariant forall k :: 0 <= k < |info| ==> info[k] == Normalize(AllWords(segments[..i])[k])
    {
      var words := segments[i].words;
      ghost var before := AllWords(segments[..i]);
      for j := 0 to |words|
        invariant |info| == |before| + j
        invariant forall k :: 0 <= k < |info| ==> info[k] == Normalize((before + words)[k])
      {
        var word := words[j];
        info := info + [Word(Strip(word.text), word.start, word.end)];
      }
      assert segments[..i + 1][..i] == segments[..i];
      assert AllWords(segments[..i + 1]) == before + words;
    }
    assert segments[..|segments|] == segments;
    AllWordsCount(segments);
  }
}
