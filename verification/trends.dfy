/** The trend listing (`getTrends`) and the category list
    (`getVideoCategories`): cache lookup, the YouTube request as an oracle,
    and the post-processing of its items — the publication cut-off, the
    per-video analysis, the sort by views and the metadata. */
module Trends {
  import opened Wrappers
  import opened Text
  import opened Seqs
  import opened Tally
  import opened Videos
  import opened Duration
  import ServiceKeywords

  // ---------------------------------------------------------------------
  // Raw YouTube items
  // ---------------------------------------------------------------------

  /** One item of the `videos` resource, as far as the listing reads it.
      Counts are the decimal strings the API sends, possibly absent;
      `published` is the instant `new Date(publishedAt)` denotes. */
  datatype RawItem = RawItem(
    id: string,
    title: string,
    description: string,
    thumbnailMedium: Option<string>,
    thumbnailDefault: Option<string>,
    channelTitle: string,
    publishedAt: string,
    published: int,
    tags: Option<seq<string>>,
    categoryId: string,
    viewCount: Option<string>,
    likeCount: Option<string>,
    commentCount: Option<string>,
    duration: string)

  /** The query the listing sends: the region, and `videoCategoryId` only
      for a category other than all (`"0"` or empty). */
  datatype TrendsRequest = TrendsRequest(region: string, category: Option<string>)

  /** What the HTTP call yields: a failure (network or API error), or a
      response whose `items` may be missing. */
  datatype Fetched<T> = FetchFailed | Response(items: Option<seq<T>>)

  /** Formatting done by the JavaScript runtime (`toFixed(2)` and
      `toLocaleString()`), passed in. */
  datatype Formatters = Formatters(fixed2: real -> string, grouped: int -> string)

  /** `parseInt(count || '0')`; a count the API did not send is zero. */
  function CountOf(c: Option<string>): (r: int)
    ensures c.None? ==> r == 0
    ensures c == Some("") ==> r == 0
  {
    var s := if c.None? || c.value == "" then "0" else c.value;
    assert ParseInt("0") == Some(0) by { ParseIntOfIntToString(0); }
    ParseInt(s).GetOr(0)
  }

  /** A count rendered in decimal reads back as itself. */
  lemma CountOfDecimal(n: int)
    ensures CountOf(Some(IntToString(n))) == n
  {
    ParseIntOfIntToString(n);
  }

  /** `thumbnails?.medium?.url || thumbnails?.default?.url`. */
  function Thumbnail(medium: Option<string>, fallback: Option<string>): (r: Option<string>)
    ensures medium.Some? && medium.value != "" ==> r == medium
    ensures (medium.None? || medium.value == "") ==> r == fallback
  {
    if medium.Some? && medium.value != "" then medium else fallback
  }

  /** The per-item `map` of the listing, with the corrected duration parser. */
  function Analyze(item: RawItem, fmt: Formatters): (v: Video)
    ensures v.isShort <==> v.durationSec <= ShortsLimitSeconds
    ensures v.stats.views == 0 ==> v.stats.engagementRate == fmt.fixed2(0.0)
    ensures v.id == item.id && v.published == item.published
  {
    var views := CountOf(item.viewCount);
    var likes := CountOf(item.likeCount);
    var comments := CountOf(item.commentCount);
    var seconds := ParseDuration(item.duration);
    Video(
      item.id, item.title, item.description,
      Thumbnail(item.thumbnailMedium, item.thumbnailDefault),
      item.channelTitle, item.publishedAt, item.published,
      item.tags.GetOr([]), item.categoryId,
      IsShort(seconds), seconds,
      Stats(views, likes, comments, fmt.fixed2(Engagement(views, likes, comments))),
      fmt.grouped(views), fmt.grouped(likes))
  }

  /** An item whose duration is `PT#H#M#S` lasts the sum of its components
      and is a Short exactly when that is at most a minute. */
  lemma AnalyzeIsoDuration(item: RawItem, fmt: Formatters, prefix: string,
                           h: Option<nat>, m: Option<nat>, s: Option<nat>)
    requires forall j :: !OccursAt(prefix, "PT", j)
    requires item.duration == prefix + IsoDuration(h, m, s)
    ensures Analyze(item, fmt).durationSec ==
      3600 * ComponentValue(h) + 60 * ComponentValue(m) + ComponentValue(s)
    ensures Analyze(item, fmt).isShort <==>
      3600 * ComponentValue(h) + 60 * ComponentValue(m) + ComponentValue(s) <= 60
  {
    ParseIsoDuration(prefix, h, m, s);
  }

  /** `publishedAt >= cutOffDate`. */
  predicate InWindow(item: RawItem, cutoff: int) { item.published >= cutoff }

  function Views(v: Video): real { v.stats.views as real }

  /** The items published at or after the cut-off, in order. */
  function Recent(items: seq<RawItem>, cutoff: int): (r: seq<RawItem>)
    ensures forall i :: 0 <= i < |r| ==> r[i] in items && InWindow(r[i], cutoff)
    ensures forall i :: 0 <= i < |items| && InWindow(items[i], cutoff) ==> items[i] in r
    ensures IsSubsequence(r, items)
  {
    Filter(items, (it: RawItem) => InWindow(it, cutoff))
  }

  function AnalyzeAll(items: seq<RawItem>, fmt: Formatters): (r: seq<Video>)
    ensures |r| == |items|
    ensures forall i :: 0 <= i < |items| ==> r[i] == Analyze(items[i], fmt)
  {
    seq(|items|, i requires 0 <= i < |items| => Analyze(items[i], fmt))
  }

  /** The listing's processing of the fetched items: drop items published
      before the cut-off, analyse each, sort by views (most first). */
  function ListVideos(items: seq<RawItem>, cutoff: int, fmt: Formatters): (r: seq<Video>)
    ensures SortedDesc(r, Views)
    ensures forall i :: 0 <= i < |r| ==> r[i].published >= cutoff
    ensures multiset(r) == multiset(AnalyzeAll(Recent(items, cutoff), fmt))
  {
    var kept := Recent(items, cutoff);
    var r := SortDesc(AnalyzeAll(kept, fmt), Views);
    PermutedInWindow(kept, cutoff, fmt, r);
    r
  }

  /** A rearrangement of the analysed in-window items is in the window. */
  lemma PermutedInWindow(kept: seq<RawItem>, cutoff: int, fmt: Formatters, r: seq<Video>)
    requires forall i :: 0 <= i < |kept| ==> InWindow(kept[i], cutoff)
    requires multiset(r) == multiset(AnalyzeAll(kept, fmt))
    ensures forall i :: 0 <= i < |r| ==> r[i].published >= cutoff
  {
    forall i | 0 <= i < |r| ensures r[i].published >= cutoff {
      assert r[i] in multiset(AnalyzeAll(kept, fmt));
      var j :| 0 <= j < |kept| && AnalyzeAll(kept, fmt)[j] == r[i];
    }
  }

  // ---------------------------------------------------------------------
  // getTrends
  // ---------------------------------------------------------------------

  datatype Meta = Meta(region: string, period: string, totalResults: int)

  datatype TrendsData = TrendsData(meta: Meta, topVideos: seq<Video>, keywords: seq<Entry>)

  /** `categoryId || 'all'`. */
  function CategoryKeyPart(categoryId: string): (r: string)
    ensures r != ""
  {
    if categoryId == "" then "all" else categoryId
  }

  /** `trends_v4_${regionCode}_${period}_${categoryId || 'all'}`. */
  function TrendsKey(region: string, period: string, categoryId: string): string
  {
    "trends_v4_" + region + "_" + period + "_" + CategoryKeyPart(categoryId)
  }

  /** `videoCategoryId` is sent only for a truthy id other than `"0"`. */
  function RequestFor(region: string, categoryId: string): (q: TrendsRequest)
    ensures q.region == region
    ensures q.category.Some? <==> categoryId != "" && categoryId != "0"
  {
    TrendsRequest(region, if categoryId != "" && categoryId != "0" then Some(categoryId) else None)
  }

  /** `getTrends`. An empty `apiKey` is a missing key. The result carries the
      trends cache afterwards. */
  function GetTrends(apiKey: string, cache: map<string, seq<RawItem>>,
                     region: string, period: string, categoryId: string, cutoff: int,
                     fetch: TrendsRequest -> Fetched<RawItem>, fmt: Formatters,
                     factor: int -> real): (r: Result<(TrendsData, map<string, seq<RawItem>>)>)
    ensures apiKey == "" ==> r == Err("YouTube API key is missing.")
    ensures var key := TrendsKey(region, period, categoryId);
      apiKey != "" && key !in cache && fetch(RequestFor(region, categoryId)).FetchFailed? ==>
        r == Err("Failed to fetch YouTube trends.")
    ensures r.Ok? ==> var (data, cache') := r.value;
      var key := TrendsKey(region, period, categoryId);
      && key in cache'
      && (key in cache ==> cache' == cache)
      && (key !in cache ==> cache' == cache[key := fetch(RequestFor(region, categoryId)).items.GetOr([])])
      && data.topVideos == ListVideos(cache'[key], cutoff, fmt)
      && data.meta == Meta(region, period, |data.topVideos|)
      && data.keywords == ServiceKeywords.ExtractKeywords(data.topVideos, factor)
    ensures var key := TrendsKey(region, period, categoryId);
      apiKey != "" && (key in cache || fetch(RequestFor(region, categoryId)).Response?) ==> r.Ok?
  {
    var key := TrendsKey(region, period, categoryId);
    if apiKey == "" then Err("YouTube API key is missing.")
    else
      var fetched := if key in cache then Response(Some(cache[key])) else fetch(RequestFor(region, categoryId));
      match fetched
      case FetchFailed => Err("Failed to fetch YouTube trends.")
      case Response(items) =>
        var stored := items.GetOr([]);
        var cache' := if key in cache then cache else cache[key := stored];
        var videos := ListVideos(stored, cutoff, fmt);
        Ok((TrendsData(Meta(region, period, |videos|), videos, ServiceKeywords.ExtractKeywords(videos, factor)), cache'))
  }

  /** A cache hit does not consult YouTube: any two fetchers give the same
      outcome. */
  lemma TrendsCacheHitIgnoresFetch(apiKey: string, cache: map<string, seq<RawItem>>,
                                   region: string, period: string, categoryId: string, cutoff: int,
                                   fetch1: TrendsRequest -> Fetched<RawItem>,
                                   fetch2: TrendsRequest -> Fetched<RawItem>,
                                   fmt: Formatters, factor: int -> real)
    requires TrendsKey(region, period, categoryId) in cache
    ensures GetTrends(apiKey, cache, region, period, categoryId, cutoff, fetch1, fmt, factor)
         == GetTrends(apiKey, cache, region, period, categoryId, cutoff, fetch2, fmt, factor)
  {
  }

  /** Asking again after a successful listing answers from the cache with the
      same data, whatever YouTube would say now. */
  lemma TrendsRepeatFromCache(apiKey: string, cache: map<string, seq<RawItem>>,
                              region: string, period: string, categoryId: string, cutoff: int,
                              fetch: TrendsRequest -> Fetched<RawItem>,
                              later: TrendsRequest -> Fetched<RawItem>,
                              fmt: Formatters, factor: int -> real)
    requires GetTrends(apiKey, cache, region, period, categoryId, cutoff, fetch, fmt, factor).Ok?
    ensures var (data, cache') := GetTrends(apiKey, cache, region, period, categoryId, cutoff, fetch, fmt, factor).value;
      GetTrends(apiKey, cache', region, period, categoryId, cutoff, later, fmt, factor) == Ok((data, cache'))
  {
  }

  /** `_`-free regions and periods make the trends key determine the region,
      the period and the category part. */
  lemma TrendsKeyInjective(r1: string, p1: string, c1: string, r2: string, p2: string, c2: string)
    requires forall i :: 0 <= i < |r1| ==> r1[i] != '_'
    requires forall i :: 0 <= i < |r2| ==> r2[i] != '_'
    requires forall i :: 0 <= i < |p1| ==> p1[i] != '_'
    requires forall i :: 0 <= i < |p2| ==> p2[i] != '_'
    requires TrendsKey(r1, p1, c1) == TrendsKey(r2, p2, c2)
    ensures r1 == r2 && p1 == p2 && CategoryKeyPart(c1) == CategoryKeyPart(c2)
  {
    var rest1 := p1 + "_" + CategoryKeyPart(c1);
    var rest2 := p2 + "_" + CategoryKeyPart(c2);
    assert TrendsKey(r1, p1, c1) == "trends_v4_" + (r1 + "_" + rest1);
    assert TrendsKey(r2, p2, c2) == "trends_v4_" + (r2 + "_" + rest2);
    CancelPrefix("trends_v4_", r1 + "_" + rest1, r2 + "_" + rest2);
    SplitAtSeparator(r1, rest1, r2, rest2, '_');
    SplitAtSeparator(p1, CategoryKeyPart(c1), p2, CategoryKeyPart(c2), '_');
  }

  /** The category `"0"` sends the same request as no category but is cached
      under its own key, so the two listings are fetched and kept apart. */
  lemma AllCategoriesTwoKeys(region: string, period: string)
    ensures RequestFor(region, "0") == RequestFor(region, "")
    ensures TrendsKey(region, period, "0") != TrendsKey(region, period, "")
  {
    var k0 := TrendsKey(region, period, "0");
    var k1 := TrendsKey(region, period, "");
    assert |k0| != |k1|;
  }

  // ---------------------------------------------------------------------
  // getAnalysedVideos as written: a live broadcast fails the listing
  // ---------------------------------------------------------------------

  /** The per-item `map` with the duration parser as written: `None` is the
      TypeError it raises. */
  function AnalyzeAsWritten(item: RawItem, fmt: Formatters): (r: Option<Video>)
    ensures r.Some? ==> r.value == Analyze(item, fmt)
  {
    match ParseDurationAsWritten(item.duration)
    case None => None
    case Some(_) => Some(Analyze(item, fmt))
  }

  /** The whole `map` as written: one throwing item fails all of it. */
  function AnalyzeAllAsWritten(items: seq<RawItem>, fmt: Formatters): (r: Option<seq<Video>>)
    ensures r.Some? <==> forall i :: 0 <= i < |items| ==> AnalyzeAsWritten(items[i], fmt).Some?
    ensures r.Some? ==> r.value == AnalyzeAll(items, fmt)
  {
    if forall i :: 0 <= i < |items| ==> ParseDurationAsWritten(items[i].duration).Some? then
      Some(AnalyzeAll(items, fmt))
    else None
  }

  /** One item in the window whose duration has no `"PT"` (a live broadcast
      reports `"P0D"`) makes the as-written listing throw; the corrected one
      lists it with zero seconds, as a Short. */
  lemma LiveItemFailsListing(items: seq<RawItem>, k: int, fmt: Formatters)
    requires 0 <= k < |items|
    requires items[k].duration == "P0D"
    ensures AnalyzeAllAsWritten(items, fmt).None?
    ensures Analyze(items[k], fmt).durationSec == 0 && Analyze(items[k], fmt).isShort
  {
    LiveBroadcastThrows();
    assert AnalyzeAsWritten(items[k], fmt).None?;
  }

  /** The message of the TypeError the as-written parser raises when it
      indexes the `null` match (V8's wording). */
  const NullMatchError: string := "Cannot read properties of null (reading '1')"

  /** `getTrends` as written. The fetched items are cached before they are
      analysed, so when the analysis throws, the error propagates and the
      cache keeps the new entry. The result pairs the outcome with the cache
      afterwards. */
  function GetTrendsAsWritten(apiKey: string, cache: map<string, seq<RawItem>>,
                              region: string, period: string, categoryId: string, cutoff: int,
                              fetch: TrendsRequest -> Fetched<RawItem>, fmt: Formatters,
                              factor: int -> real): (r: (Result<TrendsData>, map<string, seq<RawItem>>))
    ensures var res := GetTrends(apiKey, cache, region, period, categoryId, cutoff, fetch, fmt, factor);
      res.Err? ==> r == (Err(res.msg), cache)
    ensures var res := GetTrends(apiKey, cache, region, period, categoryId, cutoff, fetch, fmt, factor);
      var key := TrendsKey(region, period, categoryId);
      res.Ok? ==>
        && r.1 == res.value.1
        && (r.0.Ok? <==> AnalyzeAllAsWritten(Recent(res.value.1[key], cutoff), fmt).Some?)
        && (r.0.Ok? ==> r.0.value == res.value.0)
        && (r.0.Err? ==> r.0.msg == NullMatchError)
  {
    var key := TrendsKey(region, period, categoryId);
    if apiKey == "" then (Err("YouTube API key is missing."), cache)
    else
      var fetched := if key in cache then Response(Some(cache[key])) else fetch(RequestFor(region, categoryId));
      match fetched
      case FetchFailed => (Err("Failed to fetch YouTube trends."), cache)
      case Response(items) =>
        var stored := items.GetOr([]);
        var cache' := if key in cache then cache else cache[key := stored];
        match AnalyzeAllAsWritten(Recent(stored, cutoff), fmt)
        case None => (Err(NullMatchError), cache')
        case Some(analysed) =>
          var videos := SortDesc(analysed, Views);
          (Ok(TrendsData(Meta(region, period, |videos|), videos, ServiceKeywords.ExtractKeywords(videos, factor))), cache')
  }

  /** A cached live broadcast inside the window makes the as-written listing
      fail, while the corrected listing succeeds and shows it as a Short of
      zero seconds. */
  lemma LiveItemFailsTrends(apiKey: string, cache: map<string, seq<RawItem>>,
                            region: string, period: string, categoryId: string, cutoff: int,
                            fetch: TrendsRequest -> Fetched<RawItem>, fmt: Formatters,
                            factor: int -> real, k: int)
    requires apiKey != ""
    requires TrendsKey(region, period, categoryId) in cache
    requires 0 <= k < |cache[TrendsKey(region, period, categoryId)]|
    requires InWindow(cache[TrendsKey(region, period, categoryId)][k], cutoff)
    requires cache[TrendsKey(region, period, categoryId)][k].duration == "P0D"
    ensures GetTrendsAsWritten(apiKey, cache, region, period, categoryId, cutoff, fetch, fmt, factor)
         == (Err(NullMatchError), cache)
    ensures var res := GetTrends(apiKey, cache, region, period, categoryId, cutoff, fetch, fmt, factor);
      var v := Analyze(cache[TrendsKey(region, period, categoryId)][k], fmt);
      res.Ok? && v in res.value.0.topVideos && v.durationSec == 0 && v.isShort
  {
    LiveItemListed(cache[TrendsKey(region, period, categoryId)], cutoff, fmt, k);
  }

  /** An in-window `P0D` item fails the code's analysis of the window, while
      the corrected listing shows it as a 0-second Short. */
  lemma LiveItemListed(items: seq<RawItem>, cutoff: int, fmt: Formatters, k: int)
    requires 0 <= k < |items| && InWindow(items[k], cutoff) && items[k].duration == "P0D"
    ensures AnalyzeAllAsWritten(Recent(items, cutoff), fmt).None?
    ensures var v := Analyze(items[k], fmt);
      v in ListVideos(items, cutoff, fmt) && v.durationSec == 0 && v.isShort
  {
    var kept := Recent(items, cutoff);
    assert items[k] in kept;
    var j :| 0 <= j < |kept| && kept[j] == items[k];
    LiveItemFailsListing(kept, j, fmt);
    assert AnalyzeAll(kept, fmt)[j] == Analyze(items[k], fmt);
    assert Analyze(items[k], fmt) in multiset(ListVideos(items, cutoff, fmt));
  }

  // ---------------------------------------------------------------------
  // getVideoCategories
  // ---------------------------------------------------------------------

  datatype Category = Category(id: string, title: string)

  /** `categories_${regionCode}`. */
  function CategoriesKey(region: string): string { "categories_" + region }

  /** `getVideoCategories`: a cached list (even an empty one) is returned as
      is; otherwise the fetched list is cached; any failure, including a
      response without `items`, yields an empty list and caches nothing. */
  function GetVideoCategories(cache: map<string, seq<Category>>, region: string,
                              fetch: string -> Fetched<Category>): (r: (seq<Category>, map<string, seq<Category>>))
    ensures CategoriesKey(region) in cache ==> r == (cache[CategoriesKey(region)], cache)
    ensures CategoriesKey(region) !in cache ==>
      match fetch(region)
      case Response(Some(items)) => r == (items, cache[CategoriesKey(region) := items])
      case _ => r == ([], cache)
  {
    var key := CategoriesKey(region);
    if key in cache then (cache[key], cache)
    else
      match fetch(region)
      case Response(Some(items)) => (items, cache[key := items])
      case _ => ([], cache)
  }

  /** After a successful fetch the categories are served from the cache; after
      a failure the next call asks again. */
  lemma CategoriesCachedOnSuccessOnly(cache: map<string, seq<Category>>, region: string,
                                      fetch: string -> Fetched<Category>,
                                      later: string -> Fetched<Category>)
    requires CategoriesKey(region) !in cache
    ensures fetch(region).Response? && fetch(region).items.Some? ==>
      GetVideoCategories(GetVideoCategories(cache, region, fetch).1, region, later)
        == GetVideoCategories(cache, region, fetch)
    ensures !(fetch(region).Response? && fetch(region).items.Some?) ==>
      GetVideoCategories(GetVideoCategories(cache, region, fetch).1, region, later)
        == GetVideoCategories(cache, region, later)
  {
  }

  /** Distinct regions use distinct category keys. */
  lemma CategoriesKeyInjective(r1: string, r2: string)
    requires CategoriesKey(r1) == CategoriesKey(r2)
    ensures r1 == r2
  {
    CancelPrefix("categories_", r1, r2);
  }
}
