/** `NlpProcessor.extractKeywords`: integer frequency counting of the tokens
    of titles and tags, then the `limit` most frequent, ties in order of
    first appearance. */
module Nlp {
  import opened Wrappers
  import opened Text
  import opened Seqs
  import opened Tally

  /** What the processor reads of a video; `tags` may be missing. */
  datatype Doc = Doc(title: string, tags: Option<seq<string>>)

  /** `[가-힣a-zA-Z0-9]`. Every token character is a Hangul syllable, which
      has no case, or ASCII, so ASCII lower-casing is exactly `toLowerCase`
      on tokens. */
  predicate IsTokenChar(c: char) {
    (0xAC00 <= c as int <= 0xD7A3) || IsUpper(c) || IsLower(c) || IsDigit(c)
  }

  const NlpStopWords: set<string> := {
    "영상", "동영상", "shorts", "youtube", "channel", "video", "공식", "티저",
    "뮤비", "직캠", "예고", "하이라이트", "모음", "반응", "댓글", "오늘", "내일",
    "어제", "진짜", "정말", "너무", "다시", "보기", "full", "ver", "sub", "eng",
    "kr", "official", "music", "trailer", "teaser", "highlight", "compilation"
  }

  /** A lower-cased token that is counted: at least two characters, not a
      stop word, not made only of digits. */
  predicate Admissible(w: string) {
    |w| >= 2 && w !in NlpStopWords && !AllDigits(w)
  }

  /** `video.tags || []`. */
  function TagsOf(d: Doc): seq<string> { d.tags.GetOr([]) }

  /** `` `${video.title} ${(video.tags || []).join(' ')}` ``. */
  function TextSource(d: Doc): string { d.title + " " + Join(TagsOf(d), " ") }

  /** `textSource.match(tokenizerRegex) || []`: the maximal runs of token
      characters (no match and the empty list coincide). The text source is
      the tokens interleaved with gaps free of token characters, non-empty
      between two tokens, and no other sequence of tokens splits it so. */
  function Tokens(d: Doc): (r: seq<string>)
    ensures forall k, i :: 0 <= k < |r| && 0 <= i < |r[k]| ==> IsTokenChar(r[k][i])
    ensures forall k :: 0 <= k < |r| ==> |r[k]| > 0
    ensures exists gaps :: Separated(gaps, r, IsTokenChar) && Weave(gaps, r) == TextSource(d)
    ensures forall gaps, toks :: Separated(gaps, toks, IsTokenChar) && Weave(gaps, toks) == TextSource(d) ==> toks == r
  {
    RunsSpec(TextSource(d), IsTokenChar);
    RunsUnique(TextSource(d), IsTokenChar);
    Runs(TextSource(d), IsTokenChar)
  }

  /** The space between title and tags, and between tags, only separates:
      the tokens are those of the title followed by those of each tag. */
  lemma TokensOfTitleAndTags(d: Doc)
    ensures Tokens(d) == Runs(d.title, IsTokenChar) + RunsOfEach(TagsOf(d), IsTokenChar)
  {
    assert TextSource(d) == d.title + [' '] + Join(TagsOf(d), [' ']);
    RunsSplit(d.title, ' ', Join(TagsOf(d), [' ']), IsTokenChar);
    RunsOfJoin(TagsOf(d), ' ', IsTokenChar);
  }

  /** A missing `tags` contributes no token. */
  lemma MissingTagsCountAsEmpty(title: string)
    ensures Tokens(Doc(title, None)) == Runs(title, IsTokenChar)
    ensures Tokens(Doc(title, None)) == Tokens(Doc(title, Some([])))
  {
    TokensOfTitleAndTags(Doc(title, None));
    TokensOfTitleAndTags(Doc(title, Some([])));
  }

  function LowerAll(ws: seq<string>): (r: seq<string>)
    ensures |r| == |ws|
    ensures forall i :: 0 <= i < |ws| ==> r[i] == Lower(ws[i])
  {
    seq(|ws|, i requires 0 <= i < |ws| => Lower(ws[i]))
  }

  /** The words one video contributes, in order. */
  function DocWords(d: Doc): (r: seq<string>)
    ensures forall i :: 0 <= i < |r| ==> Admissible(r[i]) && IsLowercase(r[i])
  {
    Filter(LowerAll(Tokens(d)), Admissible)
  }

  /** The words of every video, in order. */
  function AllWords(docs: seq<Doc>): (r: seq<string>)
    ensures forall i :: 0 <= i < |r| ==> Admissible(r[i]) && IsLowercase(r[i])
  {
    if |docs| == 0 then [] else DocWords(docs[0]) + AllWords(docs[1..])
  }

  /** Each word adds one. */
  function Ones(ws: seq<string>): (r: seq<Increment>)
    ensures Words(r) == ws
    ensures forall i :: 0 <= i < |r| ==> r[i].delta == 1.0
  {
    seq(|ws|, i requires 0 <= i < |ws| => Increment(ws[i], 1.0))
  }

  function Weight(e: Entry): real { e.weight }

  /** The `frequencyMap` after every video. */
  function Frequencies(docs: seq<Doc>): seq<Entry> { TallyAll(Ones(AllWords(docs))) }

  /** The default `limit`. */
  const DefaultLimit: int := 20

  /** `extractKeywords(videos, limit)`: the `limit` most frequent words, most
      frequent first. */
  function ExtractKeywords(docs: seq<Doc>, limit: int): (r: seq<Entry>)
    ensures |r| == SliceEnd(|Frequencies(docs)|, limit)
    ensures limit >= 0 ==> |r| == if limit < |Frequencies(docs)| then limit else |Frequencies(docs)|
    ensures SortedDesc(r, Weight)
    ensures KeepsHeaviest(Frequencies(docs), r, Weight)
  {
    TopOfSortDesc(Frequencies(docs), Weight, limit);
    Prefix(SortDesc(Frequencies(docs), Weight), limit)
  }

  /** With the default limit at most twenty words are reported, and all of
      them when there are no more than twenty. */
  lemma DefaultLimitKeepsTwenty(docs: seq<Doc>)
    ensures |ExtractKeywords(docs, DefaultLimit)| == if |Frequencies(docs)| < 20 then |Frequencies(docs)| else 20
  {
  }

  /** The total of unit deltas for `w` is its number of occurrences. */
  lemma {:induction false} SumForOnes(ws: seq<string>, w: string)
    ensures SumFor(Ones(ws), w) == multiset(ws)[w] as real
  {
    if |ws| > 0 {
      var init := ws[..|ws| - 1];
      assert ws == init + [ws[|ws| - 1]];
      assert Ones(ws)[..|ws| - 1] == Ones(init);
      SumForOnes(init, w);
    }
  }

  /** Every entry of the frequency map is a counted, lower-case word that
      occurs in the input, with its number of occurrences as weight; the
      words are distinct and in order of first appearance. */
  lemma FrequenciesSpec(docs: seq<Doc>)
    ensures Texts(Frequencies(docs)) == FirstOccurrences(AllWords(docs))
    ensures Distinct(Texts(Frequencies(docs)))
    ensures forall i :: 0 <= i < |Frequencies(docs)| ==>
      var e := Frequencies(docs)[i];
      e.text in AllWords(docs) && e.weight == multiset(AllWords(docs))[e.text] as real
  {
    var ws := AllWords(docs);
    var t := Frequencies(docs);
    TallyAllTexts(Ones(ws));
    TallyAllWeights(Ones(ws));
    forall i | 0 <= i < |t|
      ensures t[i].text in ws && t[i].weight == multiset(ws)[t[i].text] as real
    {
      assert Texts(t)[i] in FirstOccurrences(ws);
      SumForOnes(ws, t[i].text);
    }
  }

  /** One reported entry: a counted, lower-case word with its number of
      occurrences as weight. */
  lemma ReportedEntry(docs: seq<Doc>, limit: int, i: int)
    requires 0 <= i < |ExtractKeywords(docs, limit)|
    ensures var e := ExtractKeywords(docs, limit)[i];
      Admissible(e.text) && IsLowercase(e.text) &&
      e.weight == multiset(AllWords(docs))[e.text] as real
  {
    var t := Frequencies(docs);
    var e := ExtractKeywords(docs, limit)[i];
    FrequenciesSpec(docs);
    assert e == SortDesc(t, Weight)[i];
    assert e in multiset(t);
    var j :| 0 <= j < |t| && t[j] == e;
    var k :| 0 <= k < |AllWords(docs)| && AllWords(docs)[k] == e.text;
  }

  /** What the result promises about its entries. */
  lemma ExtractKeywordsEntries(docs: seq<Doc>, limit: int)
    ensures var r := ExtractKeywords(docs, limit);
      Distinct(Texts(r)) &&
      forall i :: 0 <= i < |r| ==>
        Admissible(r[i].text) && IsLowercase(r[i].text) &&
        r[i].weight == multiset(AllWords(docs))[r[i].text] as real
  {
    var t := Frequencies(docs);
    var s := SortDesc(t, Weight);
    var r := ExtractKeywords(docs, limit);
    forall i | 0 <= i < |r| {
      ReportedEntry(docs, limit, i);
    }
    FrequenciesSpec(docs);
    DistinctPermutation(t, s);
    DistinctOfPrefix(s, r);
  }

  /** Ties keep first-appearance order: the reported entries of any one
      weight are a prefix of the words of that weight in the order they
      first appeared. */
  lemma TiesInFirstAppearanceOrder(docs: seq<Doc>, limit: int, k: real)
    ensures WithKey(ExtractKeywords(docs, limit), Weight, k) <= WithKey(Frequencies(docs), Weight, k)
    ensures Texts(Frequencies(docs)) == FirstOccurrences(AllWords(docs))
  {
    var t := Frequencies(docs);
    var s := SortDesc(t, Weight);
    SortDescStable(t, Weight, k);
    WithKeyOfPrefix(s, SliceEnd(|s|, limit), Weight, k);
    FrequenciesSpec(docs);
  }
}
