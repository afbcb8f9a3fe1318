/** The trend listing's keyword cloud: words of the titles and tags of the
    twenty most viewed videos, weighted by views, without stop words, the
    fifteen heaviest first. The view-based weight factor
    (`log10(views + 1) / 6`) is an abstract parameter. */
module ServiceKeywords {
  import opened Text
  import opened Seqs
  import opened Tally
  import opened Videos

  /** `가-힯`: the Hangul syllables block as the source writes it. */
  predicate IsHangulSyllable(c: char) { 0xAC00 <= c as int <= 0xD7AF }

  /** `㄰-㆏`: Hangul compatibility jamo. */
  predicate IsHangulJamo(c: char) { 0x3130 <= c as int <= 0x318F }

  /** A character `[^\w\s가-힯㄰-㆏]` does not remove. */
  predicate IsKept(c: char) { IsWordChar(c) || IsSpace(c) || IsHangulSyllable(c) || IsHangulJamo(c) }

  /** A character a keyword may consist of. */
  predicate IsKeywordChar(c: char) { IsWordChar(c) || IsHangulSyllable(c) || IsHangulJamo(c) }

  predicate NotSpace(c: char) { !IsSpace(c) }

  predicate LongerThanOne(w: string) { |w| > 1 }

  /** `extractWords`: lower-case, drop every character outside `\w`, `\s`
      and Hangul, split at whitespace runs, keep words longer than one
      character. The empty strings `split` yields at the ends are dropped by
      the length filter, so splitting is taken as "maximal non-space runs"
      (`ExtractWordsSplits`). */
  function ExtractWords(text: string): (r: seq<string>)
    ensures forall k :: 0 <= k < |r| ==> |r[k]| > 1
    ensures forall k :: 0 <= k < |r| ==> IsLowercase(r[k])
    ensures forall k, i :: 0 <= k < |r| && 0 <= i < |r[k]| ==> IsKeywordChar(r[k][i])
  {
    if text == "" then []
    else
      var cleaned := Filter(Lower(text), IsKept);
      var words := Runs(cleaned, NotSpace);
      var r := Filter(words, LongerThanOne);
      assert forall k, i :: 0 <= k < |r| && 0 <= i < |r[k]| ==> r[k][i] in cleaned && NotSpace(r[k][i]) by {
        forall k, i | 0 <= k < |r| && 0 <= i < |r[k]|
          ensures r[k][i] in cleaned && NotSpace(r[k][i])
        {
          assert r[k] in words;
        }
      }
      assert forall c :: c in cleaned ==> IsKept(c) && !IsUpper(c);
      r
  }

  /** The words are the long-enough pieces of the one split of the cleaned
      text into non-space words and whitespace gaps, non-empty between two
      words; an empty text has none. */
  lemma ExtractWordsSplits(text: string)
    ensures text == "" ==> ExtractWords(text) == []
    ensures text != "" ==> exists gaps, words ::
      && Separated(gaps, words, NotSpace)
      && Weave(gaps, words) == Filter(Lower(text), IsKept)
      && ExtractWords(text) == Filter(words, LongerThanOne)
    ensures forall gaps, words ::
      Separated(gaps, words, NotSpace) && Weave(gaps, words) == Filter(Lower(text), IsKept) ==>
      ExtractWords(text) == Filter(words, LongerThanOne)
  {
    var cleaned := Filter(Lower(text), IsKept);
    if text == "" {
      assert cleaned == "";
    } else {
      RunsSpec(cleaned, NotSpace);
    }
    RunsUnique(cleaned, NotSpace);
  }

  /** `isStopWord`'s list. */
  const StopWords: set<string> := {
    "이", "그", "저", "것", "들", "의", "가", "을", "를", "에", "에서", "와", "과", "도",
    "으로", "만", "까지", "부터", "보다", "처럼", "같이", "하고", "하는", "된", "된다",
    "the", "a", "an", "and", "or", "but", "in", "on", "at", "to", "for", "of", "with",
    "by", "from", "up", "about", "into", "through", "during", "before", "after", "above", "below",
    "is", "are", "was", "were", "be", "been", "being", "have", "has", "had", "do", "does",
    "did", "will", "would", "could", "should", "may", "might", "must", "shall", "can",
    "i", "you", "he", "she", "it", "we", "they", "me", "him", "her", "us", "them",
    "my", "your", "his", "its", "our", "their", "this", "that", "these", "those"
  }

  predicate IsStopWord(w: string) { w in StopWords }

  /** A word that may be counted: longer than one character and not a stop word. */
  predicate Counted(w: string) { |w| > 1 && !IsStopWord(w) }

  /** The `map.set` steps for a list of words, each adding `delta`. */
  function WordIncrements(words: seq<string>, delta: real): (r: seq<Increment>)
    ensures forall i :: 0 <= i < |r| ==> Counted(r[i].word) && r[i].word in words
    ensures |r| == |Filter(words, Counted)|
    ensures forall i :: 0 <= i < |r| ==> r[i] == Increment(Filter(words, Counted)[i], delta)
  {
    if |words| == 0 then []
    else
      var head := if Counted(words[0]) then [Increment(words[0], delta)] else [];
      var rest := WordIncrements(words[1..], delta);
      WordIncrementsStep(words, delta, head, rest);
      head + rest
  }

  /** The step of `WordIncrements`: the first word, when counted, goes in front. */
  lemma WordIncrementsStep(words: seq<string>, delta: real, head: seq<Increment>, rest: seq<Increment>)
    requires |words| > 0
    requires head == if Counted(words[0]) then [Increment(words[0], delta)] else []
    requires |rest| == |Filter(words[1..], Counted)|
    requires forall i :: 0 <= i < |rest| ==> rest[i] == Increment(Filter(words[1..], Counted)[i], delta)
    ensures |head + rest| == |Filter(words, Counted)|
    ensures forall i :: 0 <= i < |head + rest| ==> (head + rest)[i] == Increment(Filter(words, Counted)[i], delta)
  {
    assert Filter(words, Counted) == (if Counted(words[0]) then [words[0]] else []) + Filter(words[1..], Counted);
  }

  /** `w` is a word of one of the tags. */
  predicate InTags(tags: seq<string>, w: string) {
    |tags| > 0 && (w in ExtractWords(tags[0]) || InTags(tags[1..], w))
  }

  /** The steps for every tag, in order, each word adding `delta`. */
  function TagIncrements(tags: seq<string>, delta: real): (r: seq<Increment>)
    ensures forall i :: 0 <= i < |r| ==> Counted(r[i].word) && InTags(tags, r[i].word)
  {
    if |tags| == 0 then []
    else WordIncrements(ExtractWords(tags[0]), delta) + TagIncrements(tags[1..], delta)
  }

  /** A word of a video: a title word or a word of one of its tags. */
  predicate IsVideoWord(v: Video, w: string) {
    w in ExtractWords(v.title) || InTags(v.tags, w)
  }

  /** `w` is a word of one of the videos. */
  predicate InVideos(videos: seq<Video>, w: string) {
    |videos| > 0 && (IsVideoWord(videos[0], w) || InVideos(videos[1..], w))
  }

  /** One video's steps: title words weigh `2 * factor`, tag words `factor`. */
  function VideoIncrements(v: Video, factor: int -> real): (r: seq<Increment>)
    ensures forall i :: 0 <= i < |r| ==> Counted(r[i].word) && IsVideoWord(v, r[i].word)
  {
    WordIncrements(ExtractWords(v.title), TitleDelta(v, factor)) + TagIncrements(v.tags, TagDelta(v, factor))
  }

  /** `weightFactor`, the view-based weight of one video. */
  function ViewFactor(v: Video, factor: int -> real): real { factor(v.stats.views) }

  /** `2 * weightFactor`, added for every title word. */
  function TitleDelta(v: Video, factor: int -> real): real { 2.0 * ViewFactor(v, factor) }

  /** `1 * weightFactor`, added for every tag word. */
  function TagDelta(v: Video, factor: int -> real): real { 1.0 * ViewFactor(v, factor) }

  /** Every video's steps, in list order. */
  function AllIncrements(videos: seq<Video>, factor: int -> real): (r: seq<Increment>)
    ensures forall i :: 0 <= i < |r| ==> Counted(r[i].word) && InVideos(videos, r[i].word)
  {
    if |videos| == 0 then []
    else VideoIncrements(videos[0], factor) + AllIncrements(videos[1..], factor)
  }

  function Weight(e: Entry): real { e.weight }

  /** Only the first twenty videos contribute. */
  const KeywordVideos: int := 20

  /** At most fifteen keywords are reported. */
  const KeywordLimit: int := 15

  /** The steps of the first twenty videos. */
  function KeywordItems(videos: seq<Video>, factor: int -> real): seq<Increment> {
    AllIncrements(Prefix(videos, KeywordVideos), factor)
  }

  /** `extractKeywords` (before the final two-decimal rounding of weights). */
  function ExtractKeywords(videos: seq<Video>, factor: int -> real): (r: seq<Entry>)
    ensures |r| <= KeywordLimit
    ensures SortedDesc(r, Weight)
    ensures Distinct(Texts(r))
    ensures forall i :: 0 <= i < |r| ==>
      Counted(r[i].text) && InVideos(Prefix(videos, KeywordVideos), r[i].text)
    ensures forall i :: 0 <= i < |r| ==> r[i].weight == SumFor(KeywordItems(videos, factor), r[i].text)
    ensures |r| == if |TallyAll(KeywordItems(videos, factor))| < KeywordLimit
      then |TallyAll(KeywordItems(videos, factor))| else KeywordLimit
    ensures KeepsHeaviest(TallyAll(KeywordItems(videos, factor)), r, Weight)
  {
    var items := KeywordItems(videos, factor);
    var tally := TallyAll(items);
    var r := Prefix(SortDesc(tally, Weight), KeywordLimit);
    TopOfTally(items, tally, r);
    KeptFromVideos(videos, factor, r);
    r
  }

  /** Every reported word is counted and comes from one of the first twenty
      videos. */
  lemma KeptFromVideos(videos: seq<Video>, factor: int -> real, r: seq<Entry>)
    requires r == Prefix(SortDesc(TallyAll(KeywordItems(videos, factor)), Weight), KeywordLimit)
    ensures forall i :: 0 <= i < |r| ==>
      Counted(r[i].text) && InVideos(Prefix(videos, KeywordVideos), r[i].text)
  {
    var items := KeywordItems(videos, factor);
    forall i | 0 <= i < |r|
      ensures Counted(r[i].text) && InVideos(Prefix(videos, KeywordVideos), r[i].text)
    {
      var k := KeptEntryFromItems(items, r, i);
    }
  }

  /** The fifteen heaviest entries of a tally: distinct words, each with the
      total of its increments, and none left out heavier than one kept. */
  lemma TopOfTally(items: seq<Increment>, tally: seq<Entry>, r: seq<Entry>)
    requires tally == TallyAll(items)
    requires r == Prefix(SortDesc(tally, Weight), KeywordLimit)
    ensures |r| == if |tally| < KeywordLimit then |tally| else KeywordLimit
    ensures KeepsHeaviest(tally, r, Weight)
    ensures SortedDesc(r, Weight)
    ensures forall i :: 0 <= i < |r| ==> r[i].weight == SumFor(items, r[i].text)
    ensures Distinct(Texts(r))
  {
    TallyAllTexts(items);
    TopOfSortDesc(tally, Weight, KeywordLimit);
    KeptWeights(items, r);
    DistinctAfterSort(tally, r);
  }

  /** Every entry taken from a tally carries the total of the increments for
      its word. */
  lemma KeptWeights(items: seq<Increment>, r: seq<Entry>)
    requires multiset(r) <= multiset(TallyAll(items))
    ensures forall i :: 0 <= i < |r| ==> r[i].weight == SumFor(items, r[i].text)
  {
    var tally := TallyAll(items);
    TallyAllWeights(items);
    forall i | 0 <= i < |r| ensures r[i].weight == SumFor(items, r[i].text) {
      assert r[i] in multiset(tally);
      var j :| 0 <= j < |tally| && tally[j] == r[i];
    }
  }

  /** Every reported entry is keyed by the word of some step. */
  lemma KeptEntryFromItems(items: seq<Increment>, r: seq<Entry>, i: int) returns (k: int)
    requires r == Prefix(SortDesc(TallyAll(items), Weight), KeywordLimit)
    requires 0 <= i < |r|
    ensures 0 <= k < |items| && items[k].word == r[i].text
  {
    var tally := TallyAll(items);
    TallyAllTexts(items);
    assert r[i] in multiset(tally);
    var j :| 0 <= j < |tally| && tally[j] == r[i];
    assert Texts(tally)[j] in Words(items);
    k :| 0 <= k < |items| && Words(items)[k] == r[i].text;
  }

  /** Sorting and truncating a tally with distinct keys keeps the keys distinct. */
  lemma DistinctAfterSort(tally: seq<Entry>, r: seq<Entry>)
    requires Distinct(Texts(tally))
    requires r == Prefix(SortDesc(tally, Weight), KeywordLimit)
    ensures Distinct(Texts(r))
  {
    var sorted := SortDesc(tally, Weight);
    DistinctPermutation(tally, sorted);
    DistinctOfPrefix(sorted, r);
  }

  /** Videos after the twentieth never change the keywords. */
  lemma OnlyFirstTwentyCount(videos: seq<Video>, more: seq<Video>, factor: int -> real)
    requires |videos| >= KeywordVideos
    ensures ExtractKeywords(videos + more, factor) == ExtractKeywords(videos, factor)
  {
    assert Prefix(videos + more, KeywordVideos) == Prefix(videos, KeywordVideos);
  }
}
