/** The weight a keyword reaches, stated without the increments: the view
    factor of every video for each occurrence of the word among its tag
    words and twice that for each occurrence among its title words. The
    lemmas show that the increments of `ServiceKeywords` add up to it. */
module KeywordWeights {
  import opened Seqs
  import opened Tally
  import opened Videos
  import opened ServiceKeywords

  /** How often `w` occurs in `ws`. */
  function Count(ws: seq<string>, w: string): nat { multiset(ws)[w] }

  /** How often `w` occurs among the words of the tags. */
  function TagWordCount(tags: seq<string>, w: string): nat {
    if |tags| == 0 then 0 else Count(ExtractWords(tags[0]), w) + TagWordCount(tags[1..], w)
  }

  /** The occurrences of `w` in a video, a title occurrence counting twice. */
  function WeightedCount(v: Video, w: string): nat {
    2 * Count(ExtractWords(v.title), w) + TagWordCount(v.tags, w)
  }

  /** What one video adds to the weight of `w`: its view factor once per
      weighted occurrence, when `w` is counted at all. */
  function VideoWeight(v: Video, factor: int -> real, w: string): real {
    if Counted(w) then Times(WeightedCount(v, w), ViewFactor(v, factor)) else 0.0
  }

  /** The weight of `w` over a list of videos. */
  function TotalWeight(videos: seq<Video>, factor: int -> real, w: string): real {
    if |videos| == 0 then 0.0 else VideoWeight(videos[0], factor, w) + TotalWeight(videos[1..], factor, w)
  }

  /** The steps of a word list add `delta` to `w` once per occurrence, or
      nothing when `w` is not counted. */
  lemma WordIncrementsSum(words: seq<string>, delta: real, w: string)
    ensures SumFor(WordIncrements(words, delta), w) == if Counted(w) then Times(Count(words, w), delta) else 0.0
  {
    StepsForWords(WordIncrements(words, delta), Filter(words, Counted), delta);
    SumForUniform(WordIncrements(words, delta), delta, w);
    FilterCount(words, Counted, w);
  }

  /** Adding two totals that are each `delta` per occurrence, or both zero. */
  lemma AddCounted(counted: bool, s: real, a: real, b: real, m: nat, n: nat, t: nat, delta: real)
    requires s == a + b && t == m + n
    requires a == if counted then Times(m, delta) else 0.0
    requires b == if counted then Times(n, delta) else 0.0
    ensures s == if counted then Times(t, delta) else 0.0
  {
    TimesAdd(m, n, delta);
  }

  /** The steps of the tags add `delta` to `w` once per occurrence among the
      tag words. */
  lemma {:induction false} TagIncrementsSum(tags: seq<string>, delta: real, w: string)
    ensures SumFor(TagIncrements(tags, delta), w) == if Counted(w) then Times(TagWordCount(tags, w), delta) else 0.0
    decreases |tags|
  {
    if |tags| > 0 {
      var a, b := WordIncrements(ExtractWords(tags[0]), delta), TagIncrements(tags[1..], delta);
      SumForOfConcat(TagIncrements(tags, delta), a, b, w);
      WordIncrementsSum(ExtractWords(tags[0]), delta, w);
      TagIncrementsSum(tags[1..], delta, w);
      AddCounted(Counted(w), SumFor(TagIncrements(tags, delta), w), SumFor(a, w), SumFor(b, w),
        Count(ExtractWords(tags[0]), w), TagWordCount(tags[1..], w), TagWordCount(tags, w), delta);
    }
  }

  /** One video's steps add exactly its `VideoWeight` to `w`. */
  lemma VideoIncrementsSum(v: Video, factor: int -> real, w: string)
    ensures SumFor(VideoIncrements(v, factor), w) == VideoWeight(v, factor, w)
  {
    VideoIncrementsSplit(v, factor, w);
    WordIncrementsSum(ExtractWords(v.title), TitleDelta(v, factor), w);
    TagIncrementsSum(v.tags, TagDelta(v, factor), w);
    VideoWeightAsSteps(v, factor, w);
  }

  /** A video's total is that of its title steps plus that of its tag steps. */
  lemma VideoIncrementsSplit(v: Video, factor: int -> real, w: string)
    ensures SumFor(VideoIncrements(v, factor), w) ==
      SumFor(WordIncrements(ExtractWords(v.title), TitleDelta(v, factor)), w) +
      SumFor(TagIncrements(v.tags, TagDelta(v, factor)), w)
  {
    SumForConcat(WordIncrements(ExtractWords(v.title), TitleDelta(v, factor)),
      TagIncrements(v.tags, TagDelta(v, factor)), w);
  }

  /** `f * (2 * titles + tags)` is `titles` steps of `2 * f` and `tags` steps of `1 * f`. */
  lemma VideoWeightAsSteps(v: Video, factor: int -> real, w: string)
    ensures VideoWeight(v, factor, w) == if Counted(w) then
      Times(Count(ExtractWords(v.title), w), TitleDelta(v, factor)) + Times(TagWordCount(v.tags, w), TagDelta(v, factor))
      else 0.0
  {
    StepsOfTwoWeights(Count(ExtractWords(v.title), w), TagWordCount(v.tags, w), WeightedCount(v, w),
      ViewFactor(v, factor), TitleDelta(v, factor), TagDelta(v, factor));
  }

  lemma StepsOfTwoWeights(titles: nat, tags: nat, weighted: nat, f: real, titleDelta: real, tagDelta: real)
    requires weighted == 2 * titles + tags
    requires titleDelta == 2.0 * f && tagDelta == 1.0 * f
    ensures Times(titles, titleDelta) + Times(tags, tagDelta) == Times(weighted, f)
  {
    TimesIsProduct(titles, titleDelta);
    TimesIsProduct(tags, tagDelta);
    TimesIsProduct(weighted, f);
  }

  /** The steps of a list of videos add exactly their `TotalWeight` to `w`. */
  lemma {:induction false} AllIncrementsSum(videos: seq<Video>, factor: int -> real, w: string)
    ensures SumFor(AllIncrements(videos, factor), w) == TotalWeight(videos, factor, w)
    decreases |videos|
  {
    if |videos| > 0 {
      AllIncrementsSum(videos[1..], factor, w);
      VideoIncrementsSum(videos[0], factor, w);
      SumForOfConcat(AllIncrements(videos, factor), VideoIncrements(videos[0], factor), AllIncrements(videos[1..], factor), w);
    }
  }

  /** Every reported keyword carries its `TotalWeight` over the first twenty
      videos. */
  lemma KeywordTotals(videos: seq<Video>, factor: int -> real)
    ensures forall i :: 0 <= i < |ExtractKeywords(videos, factor)| ==>
      ExtractKeywords(videos, factor)[i].weight ==
      TotalWeight(Prefix(videos, KeywordVideos), factor, ExtractKeywords(videos, factor)[i].text)
  {
    var r := ExtractKeywords(videos, factor);
    forall i | 0 <= i < |r|
      ensures r[i].weight == TotalWeight(Prefix(videos, KeywordVideos), factor, r[i].text)
    {
      AllIncrementsSum(Prefix(videos, KeywordVideos), factor, r[i].text);
    }
  }

  /** A word that some step of the first twenty videos counts but that is not
      reported weighs, by `TotalWeight`, no more than any reported keyword. */
  lemma LeftOutIsNoHeavier(videos: seq<Video>, factor: int -> real, w: string)
    requires w in Words(KeywordItems(videos, factor))
    requires w !in Texts(ExtractKeywords(videos, factor))
    ensures forall i :: 0 <= i < |ExtractKeywords(videos, factor)| ==>
      TotalWeight(Prefix(videos, KeywordVideos), factor, w) <= ExtractKeywords(videos, factor)[i].weight
  {
    var items := KeywordItems(videos, factor);
    var j := TallyEntryFor(items, w);
    LeftOutEntry(TallyAll(items), ExtractKeywords(videos, factor), j);
    AllIncrementsSum(Prefix(videos, KeywordVideos), factor, w);
  }
}
